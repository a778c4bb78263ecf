/** Whole runs of uninterrupted handlers: what the pool holds in terms of the history, what the
    gauges show and what the counters add up to. */
module SidecarRuns {
  import opened Prelude
  import opened Filter
  import opened Pool
  import opened SidecarModel
  import SidecarThreads
  import SidecarLaws
  import SidecarRefinement
  import P = Priorities

  // ----- the pool as a function of the history ------------------------------------------------

  /** An Insert of h that can be stored. */
  predicate Inserts(input: Input, h: Hash) {
    input.InsertEvent? && input.tx.hash == h && input.tx.binary.Some?
  }

  /** An input that removes a transaction h received at the given time. */
  predicate Kills(cfg: Config, receivedAt: Time, input: Input, h: Hash) {
    match input
    case RetireEvent(g, _, _) => g == h
    case Tick(poolNow, _) => poolNow - receivedAt > cfg.maxDuration
    case _ => false
  }

  /** Nothing between input i and input n removes what input i inserted. */
  ghost predicate Survives(cfg: Config, inputs: seq<Input>, i: int, n: int, h: Hash)
    requires 0 <= i < n <= |inputs| && Inserts(inputs[i], h)
  {
    forall k :: i < k < n ==> !Kills(cfg, inputs[i].env.pooledAt, inputs[k], h)
  }

  /** Input i is an Insert of h, and no earlier accepted Insert of h is still alive: a duplicate
      is not accepted, whatever its own fate would have been. */
  ghost predicate Accepted(cfg: Config, inputs: seq<Input>, i: int, h: Hash)
    requires 0 <= i < |inputs|
    decreases i
  {
    Inserts(inputs[i], h) && !exists j :: 0 <= j < i && Accepted(cfg, inputs, j, h) && Survives(cfg, inputs, j, i, h)
  }

  /** Input i is the accepted Insert of h that is alive after n inputs. */
  ghost predicate Live(cfg: Config, inputs: seq<Input>, i: int, n: int, h: Hash)
    requires n <= |inputs|
  {
    0 <= i < n && Accepted(cfg, inputs, i, h) && Survives(cfg, inputs, i, n, h)
  }

  /** Some accepted Insert of h is alive after n inputs. */
  ghost predicate Alive(cfg: Config, inputs: seq<Input>, n: int, h: Hash)
    requires n <= |inputs|
  {
    exists i :: Live(cfg, inputs, i, n, h)
  }

  /** The record an accepted Insert leaves in the pool. */
  function RecordOf(cfg: Config, input: Input): Pooled
    requires input.InsertEvent? && input.tx.binary.Some?
  {
    var c := cfg.classify(input.tx);
    Pooled(input.tx, input.tx.binary.value, input.originalRlp, input.env.pooledAt, "txpool", input.tx.hash,
           c.txType, c.bid)
  }

  /** What one input does to the pool. */
  function PoolAfter(cfg: Config, pool: map<Hash, Pooled>, input: Input): map<Hash, Pooled> {
    match input
    case InsertEvent(tx, _, _) =>
      if tx.binary.None? || tx.hash in pool then pool else pool[tx.hash := RecordOf(cfg, input)]
    case RetireEvent(h, _, _) => pool - {h}
    case Tick(poolNow, _) => Unexpired(pool, poolNow, cfg.maxDuration)
    case _ => pool
  }

  lemma AcceptedPool(cfg: Config, s: State, tx: Tx, txBytes: Bytes, originalRlp: Bytes, at: Time)
    requires tx.hash !in s.pool
    ensures Accept(cfg, s, tx, txBytes, originalRlp, at).pool
         == s.pool[tx.hash := Pooled(tx, txBytes, originalRlp, at, "txpool", tx.hash,
                                     cfg.classify(tx).txType, cfg.classify(tx).bid)]
  {
    hide Accept;
    AcceptIs(cfg, s, tx, txBytes, originalRlp, at);
  }

  lemma StreamKeeps(s: State, job: Job, env: SendEnv)
    ensures var t := Stream(s, job, env);
            t.pool == s.pool && t.upkeep == s.upkeep && t.books.expired == s.books.expired
  {
  }

  lemma StreamingKeeps(cfg: Config, s: State, tx: Tx, env: InsertEnv)
    ensures var t := StreamAccepted(cfg, s, tx, env);
            t.pool == s.pool && t.upkeep == s.upkeep && t.books.expired == s.books.expired
  {
    hide Stream;
    var bid := cfg.classify(tx).bid;
    if bid.Some? && bid.value.amount.Some? {
      var amount := bid.value.amount.value;
      StreamKeeps(s, Job(tx.hash, P.TobBid(amount)), env.first);
      if bid.value.target.Some? && bid.value.target.value in s.pool {
        var target := bid.value.target.value;
        var first := Job(s.pool[target].tx.hash, P.Opportunity(target));
        StreamKeeps(s, first, env.first);
        StreamKeeps(Stream(s, first, env.first), Job(tx.hash, P.BackrunBid(amount, target)), env.second);
      }
    }
  }

  /** What a retirement, a cleanup or a measurement leaves of the pool, the gauges and the log. */
  lemma RetireKeeps(s: State, h: Hash, kind: Retirement, at: Time)
    ensures var t := Retire(s, h, kind, at);
            && t.pool == s.pool - {h} && t.log == s.log
            && t.upkeep == s.upkeep && t.books.expired == s.books.expired
  {
  }

  lemma CleanupKeeps(cfg: Config, s: State, poolNow: Time, trackNow: Time)
    ensures var t := Cleanup(cfg, s, poolNow, trackNow);
            && t.pool == Unexpired(s.pool, poolNow, cfg.maxDuration) && t.log == s.log
            && t.books.expired == s.books.expired + |s.pool.Keys - t.pool.Keys|
            && t.upkeep.txExpired == s.upkeep.txExpired + (if |t.pool| < |s.pool| then |s.pool| - |t.pool| else 0)
            && t.upkeep.poolSize == t.upkeep.poolSizeMetric == |t.pool|
  {
    hide Unexpired, Fresh;
  }

  lemma MeasuringKeeps(s: State, ms: real)
    ensures forall t :: t == RecordEcho(s, ms) || t == RecordArrival(s, ms) ==>
              t.pool == s.pool && t.log == s.log && t.upkeep == s.upkeep && t.books == s.books
  {
  }

  lemma ReceiveKeeps(s: State, arrivedAt: Time, receivedAt: Time)
    ensures var t := Receive(s, arrivedAt, receivedAt);
            t.pool == s.pool && t.log == s.log && t.upkeep == s.upkeep && t.books == s.books
  {
  }

  lemma IncomingPool(cfg: Config, s: State, tx: Tx, originalRlp: Bytes, env: InsertEnv)
    ensures HandleIncoming(cfg, s, tx, originalRlp, env).pool
        == PoolAfter(cfg, s.pool, InsertEvent(tx, originalRlp, env))
  {
    hide Accept, StreamAccepted;
    if tx.binary.Some? && tx.hash !in s.pool {
      AcceptedPool(cfg, s, tx, tx.binary.value, originalRlp, env.pooledAt);
      StreamingKeeps(cfg, Accept(cfg, s, tx, tx.binary.value, originalRlp, env.pooledAt), tx, env);
    }
  }

  lemma StepPool(cfg: Config, s: State, input: Input)
    ensures Step(cfg, s, input).pool == PoolAfter(cfg, s.pool, input)
  {
    hide HandleIncoming, Receive, Retire, Cleanup, RecordEcho, RecordArrival, Unexpired;
    match input
    case InsertEvent(tx, originalRlp, env) =>
      ReceiveKeeps(s, env.arrivedAt, env.receivedAt);
      IncomingPool(cfg, Receive(s, env.arrivedAt, env.receivedAt), tx, originalRlp, env);
    case RetireEvent(h, kind, at) => RetireKeeps(s, h, kind, at);
    case Tick(poolNow, trackNow) => CleanupKeeps(cfg, s, poolNow, trackNow);
    case RunEcho(ms) => MeasuringKeeps(s, ms);
    case RunArrival(ms) => MeasuringKeeps(s, ms);
  }

  /** The pool agrees with the history on h. */
  ghost predicate Agrees(cfg: Config, inputs: seq<Input>, n: nat, h: Hash, pool: map<Hash, Pooled>)
    requires n <= |inputs|
  {
    && (h in pool <==> Alive(cfg, inputs, n, h))
    && (forall i :: Live(cfg, inputs, i, n, h) ==> h in pool && pool[h] == RecordOf(cfg, inputs[i]))
  }

  /** After any run, h is pooled exactly when some accepted Insert of h has seen no later Commit,
      Drop or Evict of h and no later cleanup more than the maximum age after it; the record is
      then that of this first accepted Insert, never refreshed by a duplicate. */
  lemma HistoryRefinement(cfg: Config, inputs: seq<Input>, n: nat, h: Hash)
    requires n <= |inputs|
    ensures h in Run(cfg, inputs, n).pool <==> exists i :: Live(cfg, inputs, i, n, h)
    ensures forall i :: Live(cfg, inputs, i, n, h) ==>
              h in Run(cfg, inputs, n).pool && Run(cfg, inputs, n).pool[h] == RecordOf(cfg, inputs[i])
  {
    hide Step;
    RunAgrees(cfg, inputs, n, h);
    assert Alive(cfg, inputs, n, h) <==> exists i :: Live(cfg, inputs, i, n, h);
  }

  lemma {:induction false} RunAgrees(cfg: Config, inputs: seq<Input>, n: nat, h: Hash)
    requires n <= |inputs|
    ensures Agrees(cfg, inputs, n, h, Run(cfg, inputs, n).pool)
  {
    hide Step;
    if n > 0 {
      RunAgrees(cfg, inputs, n - 1, h);
      StepPool(cfg, Run(cfg, inputs, n - 1), inputs[n - 1]);
      HistoryStep(cfg, inputs, n - 1, h, Run(cfg, inputs, n - 1).pool);
    }
  }

  lemma AcceptedWhenDead(cfg: Config, inputs: seq<Input>, n: nat, h: Hash)
    requires n < |inputs|
    ensures Accepted(cfg, inputs, n, h) <==> Inserts(inputs[n], h) && !Alive(cfg, inputs, n, h)
  {
    if exists j :: 0 <= j < n && Accepted(cfg, inputs, j, h) && Survives(cfg, inputs, j, n, h) {
      var j :| 0 <= j < n && Accepted(cfg, inputs, j, h) && Survives(cfg, inputs, j, n, h);
      assert Live(cfg, inputs, j, n, h);
    }
  }

  lemma LiveLonger(cfg: Config, inputs: seq<Input>, i: int, n: nat, h: Hash)
    requires n < |inputs| && i < n
    ensures Live(cfg, inputs, i, n + 1, h) <==>
            Live(cfg, inputs, i, n, h) && !Kills(cfg, inputs[i].env.pooledAt, inputs[n], h)
  {
  }

  lemma HistoryStep(cfg: Config, inputs: seq<Input>, n: nat, h: Hash, pool: map<Hash, Pooled>)
    requires n < |inputs| && Agrees(cfg, inputs, n, h, pool)
    ensures Agrees(cfg, inputs, n + 1, h, PoolAfter(cfg, pool, inputs[n]))
  {
    var pool' := PoolAfter(cfg, pool, inputs[n]);
    AcceptedWhenDead(cfg, inputs, n, h);
    assert Live(cfg, inputs, n, n + 1, h) <==> Inserts(inputs[n], h) && h !in pool;
    forall i | Live(cfg, inputs, i, n + 1, h)
      ensures h in pool' && pool'[h] == RecordOf(cfg, inputs[i])
    {
      if i < n {
        LiveLonger(cfg, inputs, i, n, h);
      }
    }
    if h in pool' {
      if h in pool {
        var i :| Live(cfg, inputs, i, n, h);
        LiveLonger(cfg, inputs, i, n, h);
        assert Live(cfg, inputs, i, n + 1, h);
      } else {
        assert Live(cfg, inputs, n, n + 1, h);
      }
    }
  }

  // ----- gauges and conservation ----------------------------------------------------------------

  /** What one input does to the gauges and the expiry counts. */
  predicate UpkeepFollows(cfg: Config, s: State, input: Input, t: State) {
    match input
    case InsertEvent(tx, _, _) =>
      && t.upkeep.txExpired == s.upkeep.txExpired && t.books.expired == s.books.expired
      && (if tx.binary.Some? && tx.hash !in s.pool
          then t.upkeep.poolSize == t.upkeep.poolSizeMetric == |t.pool|
          else t.upkeep == s.upkeep)
    case Tick(_, _) =>
      && t.books.expired == s.books.expired + |s.pool.Keys - t.pool.Keys|
      && t.upkeep.txExpired == s.upkeep.txExpired + (if |t.pool| < |s.pool| then |s.pool| - |t.pool| else 0)
      && t.upkeep.poolSize == t.upkeep.poolSizeMetric == |t.pool|
    case _ => t.upkeep == s.upkeep && t.books.expired == s.books.expired
  }

  lemma AcceptUpkeep(cfg: Config, s: State, tx: Tx, txBytes: Bytes, originalRlp: Bytes, at: Time)
    ensures var t := Accept(cfg, s, tx, txBytes, originalRlp, at);
            && t.upkeep.txExpired == s.upkeep.txExpired && t.books.expired == s.books.expired
            && t.upkeep.poolSize == t.upkeep.poolSizeMetric == |t.pool|
  {
    hide AddToPool, SetType, SetBid;
    AddKeepsUpkeep(s, tx, txBytes, originalRlp, cfg.classify(tx), at);
  }

  lemma AddKeepsUpkeep(s: State, tx: Tx, txBytes: Bytes, originalRlp: Bytes, classification: Classification, at: Time)
    ensures var t := AddTyped(s, tx, txBytes, originalRlp, classification, at);
            t.upkeep == s.upkeep && t.books.expired == s.books.expired && t.log == s.log
  {
  }

  lemma IncomingUpkeep(cfg: Config, s: State, tx: Tx, originalRlp: Bytes, env: InsertEnv)
    ensures UpkeepFollows(cfg, s, InsertEvent(tx, originalRlp, env), HandleIncoming(cfg, s, tx, originalRlp, env))
  {
    hide Accept, StreamAccepted;
    if tx.binary.Some? && tx.hash !in s.pool {
      AcceptUpkeep(cfg, s, tx, tx.binary.value, originalRlp, env.pooledAt);
      StreamingKeeps(cfg, Accept(cfg, s, tx, tx.binary.value, originalRlp, env.pooledAt), tx, env);
    }
  }

  lemma InsertUpkeep(cfg: Config, s: State, tx: Tx, originalRlp: Bytes, env: InsertEnv)
    ensures var input := InsertEvent(tx, originalRlp, env); UpkeepFollows(cfg, s, input, Step(cfg, s, input))
  {
    var t := Receive(s, env.arrivedAt, env.receivedAt);
    assert Step(cfg, s, InsertEvent(tx, originalRlp, env)) == HandleIncoming(cfg, t, tx, originalRlp, env);
    hide Step, HandleIncoming, Receive;
    ReceiveKeeps(s, env.arrivedAt, env.receivedAt);
    IncomingUpkeep(cfg, t, tx, originalRlp, env);
  }

  lemma StepUpkeep(cfg: Config, s: State, input: Input)
    ensures UpkeepFollows(cfg, s, input, Step(cfg, s, input))
  {
    hide HandleIncoming, Receive, Retire, Cleanup, RecordEcho, RecordArrival, Unexpired;
    match input
    case InsertEvent(tx, originalRlp, env) =>
      hide Step, UpkeepFollows;
      InsertUpkeep(cfg, s, tx, originalRlp, env);
    case Tick(poolNow, trackNow) =>
      hide UpkeepFollows;
      TickUpkeep(cfg, s, poolNow, trackNow);
    case RetireEvent(h, kind, at) => RetireKeeps(s, h, kind, at);
    case RunEcho(ms) => MeasuringKeeps(s, ms);
    case RunArrival(ms) => MeasuringKeeps(s, ms);
  }

  lemma TickUpkeep(cfg: Config, s: State, poolNow: Time, trackNow: Time)
    ensures UpkeepFollows(cfg, s, Tick(poolNow, trackNow), Cleanup(cfg, s, poolNow, trackNow))
  {
    hide Cleanup, Unexpired;
    CleanupKeeps(cfg, s, poolNow, trackNow);
  }

  /** Both gauges agree and never understate the pool, and with uninterrupted cleanups the expiry
      counter counts exactly the expired transactions. */
  ghost predicate GaugesTrue(s: State) {
    && s.upkeep.poolSize == s.upkeep.poolSizeMetric >= |s.pool|
    && s.upkeep.txExpired == s.books.expired
  }

  lemma PoolShrinks(cfg: Config, pool: map<Hash, Pooled>, input: Input)
    ensures !input.InsertEvent? ==> |PoolAfter(cfg, pool, input)| <= |pool|
    ensures input.Tick? ==> var left := PoolAfter(cfg, pool, input); |pool| == |left| + |pool.Keys - left.Keys|
  {
    var left := PoolAfter(cfg, pool, input);
    if !input.InsertEvent? {
      SidecarLaws.KeysLeft(pool, left);
    }
  }

  lemma GaugeStep(cfg: Config, s: State, input: Input, t: State)
    requires GaugesTrue(s) && UpkeepFollows(cfg, s, input, t) && t.pool == PoolAfter(cfg, s.pool, input)
    ensures GaugesTrue(t)
    ensures input.Tick? || (input.InsertEvent? && input.tx.binary.Some? && input.tx.hash !in s.pool) ==>
              t.upkeep.poolSize == |t.pool|
  {
    PoolShrinks(cfg, s.pool, input);
  }

  lemma {:induction false} GaugesHold(cfg: Config, inputs: seq<Input>, n: nat)
    requires n <= |inputs|
    ensures GaugesTrue(Run(cfg, inputs, n))
  {
    hide Step, UpkeepFollows, PoolAfter;
    if n > 0 {
      hide GaugesTrue;
      var s := Run(cfg, inputs, n - 1);
      GaugesHold(cfg, inputs, n - 1);
      StepUpkeep(cfg, s, inputs[n - 1]);
      StepPool(cfg, s, inputs[n - 1]);
      GaugeStep(cfg, s, inputs[n - 1], Run(cfg, inputs, n));
    }
  }

  /** The gauge is exact right after an accepted Insert and right after a cleanup. */
  lemma GaugeExactAfter(cfg: Config, inputs: seq<Input>, n: nat)
    requires n < |inputs|
    requires inputs[n].Tick? || (inputs[n].InsertEvent? && Accepted(cfg, inputs, n, inputs[n].tx.hash))
    ensures Run(cfg, inputs, n + 1).upkeep.poolSize == |Run(cfg, inputs, n + 1).pool|
  {
    hide Step;
    var s := Run(cfg, inputs, n);
    GaugesHold(cfg, inputs, n);
    StepUpkeep(cfg, s, inputs[n]);
    StepPool(cfg, s, inputs[n]);
    if inputs[n].InsertEvent? {
      RunAgrees(cfg, inputs, n, inputs[n].tx.hash);
      AcceptedWhenDead(cfg, inputs, n, inputs[n].tx.hash);
    }
    GaugeStep(cfg, s, inputs[n], Run(cfg, inputs, n + 1));
  }

  /** The input stores the pool size in the gauge. */
  predicate Refreshes(pool: map<Hash, Pooled>, input: Input) {
    input.Tick? || (input.InsertEvent? && input.tx.binary.Some? && input.tx.hash !in pool)
  }

  /** Pooled transactions removed by commits, drops and evicts since the gauge was last stored. */
  function RemovedSince(cfg: Config, inputs: seq<Input>, n: nat): nat
    requires n <= |inputs|
  {
    if n == 0 then 0
    else
      var pool := Run(cfg, inputs, n - 1).pool;
      var input := inputs[n - 1];
      if Refreshes(pool, input) then 0
      else RemovedSince(cfg, inputs, n - 1) + (if input.RetireEvent? && input.hash in pool then 1 else 0)
  }

  lemma DriftStep(cfg: Config, s: State, input: Input, t: State, drift: nat)
    requires UpkeepFollows(cfg, s, input, t) && t.pool == PoolAfter(cfg, s.pool, input)
    requires s.upkeep.poolSize == |s.pool| + drift
    ensures t.upkeep.poolSize == |t.pool| + (if Refreshes(s.pool, input) then 0
                                             else drift + if input.RetireEvent? && input.hash in s.pool then 1 else 0)
  {
    if input.RetireEvent? {
      if input.hash in s.pool {
        SidecarLaws.KeysMinus(s.pool, input.hash);
      } else {
        assert s.pool - {input.hash} == s.pool;
      }
    }
  }

  /** Commit, Drop and Evict do not refresh the gauge: it overstates the pool by exactly the
      transactions they removed since the last accepted Insert or cleanup, so it is right exactly
      when they removed none. */
  lemma {:induction false} GaugeDrift(cfg: Config, inputs: seq<Input>, n: nat)
    requires n <= |inputs|
    ensures Run(cfg, inputs, n).upkeep.poolSize == |Run(cfg, inputs, n).pool| + RemovedSince(cfg, inputs, n)
  {
    hide Step;
    if n > 0 {
      var s := Run(cfg, inputs, n - 1);
      GaugeDrift(cfg, inputs, n - 1);
      StepUpkeep(cfg, s, inputs[n - 1]);
      StepPool(cfg, s, inputs[n - 1]);
      DriftStep(cfg, s, inputs[n - 1], Run(cfg, inputs, n), RemovedSince(cfg, inputs, n - 1));
    }
  }

  /** The shortest such run: an Insert, then its Commit, Drop or Evict; the pool is empty and the
      gauge still shows one. */
  lemma RetirementLeavesGauge(cfg: Config, tx: Tx, originalRlp: Bytes, env: InsertEnv, kind: Retirement, at: Time)
    requires tx.binary.Some?
    ensures var inputs := [InsertEvent(tx, originalRlp, env), RetireEvent(tx.hash, kind, at)];
            Run(cfg, inputs, 2).pool == map[] && Run(cfg, inputs, 2).upkeep.poolSize == 1
  {
    var inputs := [InsertEvent(tx, originalRlp, env), RetireEvent(tx.hash, kind, at)];
    hide Step;
    assert Run(cfg, inputs, 0).pool == map[];
    StepPool(cfg, Run(cfg, inputs, 0), inputs[0]);
    StepPool(cfg, Run(cfg, inputs, 1), inputs[1]);
    assert Run(cfg, inputs, 1).pool == map[tx.hash := RecordOf(cfg, inputs[0])];
    GaugeDrift(cfg, inputs, 2);
    assert RemovedSince(cfg, inputs, 2) == RemovedSince(cfg, inputs, 1) + 1;
  }

  /** With uninterrupted handlers on a non-decreasing clock: every Insert received is a duplicate,
      unreadable or of one kind; every transaction of a kind is processed, and is pooled, was
      removed by an event or is counted as expired; every send is tracked, echoed, retired,
      swept or overwritten; every bid and pair half was sent or counted as an error. */
  lemma RunConservation(cfg: Config, start: Time, inputs: seq<Input>, n: nat)
    requires Complete(cfg) && SidecarRefinement.TimelyRun(start, inputs) && n <= |inputs|
    ensures var s := Run(cfg, inputs, n);
            var kinds := SidecarLaws.Classed(s.kinds);
            && s.received.txs == s.books.duplicates + s.received.decodeErrors + kinds
            && kinds == s.kinds.processed == |s.pool| + s.books.removed + s.upkeep.txExpired
            && SidecarLaws.TrackingLaw(s, 0)
            && s.kinds.tob + 2 * s.kinds.pairs == s.sends.toNode + s.sends.errors
  {
    hide Step, SidecarThreads.Reaches;
    GaugesHold(cfg, inputs, n);
    var m := SidecarRefinement.RunReaches(cfg, start, inputs, n);
    SidecarLaws.ReceiveConservation(cfg, start, m);
    SidecarLaws.SendEquation(cfg, start, m);
    SidecarLaws.TrackingConservation(cfg, start, m);
  }

  // ----- schedules in which the expiry counter and the gauge are wrong ---------------------------------

  /** From the start: one Insert, then a tick during which that transaction is evicted, all at
      time 0. Nothing ever expired and the counter says one did. */
  lemma NothingExpiredCountsOne(cfg: Config, tx: Tx, originalRlp: Bytes) returns (m: SidecarThreads.Machine)
    requires cfg.maxDuration >= 0 && tx.binary.Some?
    ensures SidecarThreads.Reaches(cfg, SidecarThreads.Start(0), m)
    ensures m.s.books.expired == 0 && m.s.upkeep.txExpired == 1
  {
    var send := SendEnv(true, 0, 0);
    var input := InsertEvent(tx, originalRlp, InsertEnv(0, 0, 0, send, send));
    var m0 := SidecarThreads.Start(0);
    SidecarRefinement.StartReaches(cfg, m0);
    hide SidecarThreads.Reaches;
    var m1 := SidecarRefinement.StepReaches(cfg, m0, m0, input);
    StepPool(cfg, m0.s, input);
    StepUpkeep(cfg, m0.s, input);
    hide Step;
    assert m1.s.pool == map[tx.hash := RecordOf(cfg, input)];
    m := SidecarRefinement.RetiredDuringTickCountsAsExpired(cfg, m0, m1, tx.hash);
  }

  /** From the start: a tick recounts the empty pool, an Insert is handled whole and stores its gauge,
      then the tick stores. One transaction is pooled, no event is in hand, and the gauge says none. */
  lemma GaugeSaysNone(cfg: Config, tx: Tx, originalRlp: Bytes) returns (m: SidecarThreads.Machine)
    requires tx.binary.Some?
    ensures SidecarThreads.Reaches(cfg, SidecarThreads.Start(0), m)
    ensures m.ev.Idle? && |m.s.pool| == 1 && m.s.upkeep.poolSize == 0
  {
    var send := SendEnv(true, 0, 0);
    var env := InsertEnv(0, 0, 0, send, send);
    var m0 := SidecarThreads.Start(0);
    SidecarRefinement.StartReaches(cfg, m0);
    hide SidecarThreads.Reaches;
    var m1 := SidecarRefinement.PoolTickReaches(cfg, m0, m0, 0);
    assert m1.s.pool == map[];
    hide CleanPool;
    var m2 := SidecarRefinement.InsertReaches(cfg, m0, m1, tx, originalRlp, env);
    StepPool(cfg, m1.s, InsertEvent(tx, originalRlp, env));
    hide Step;
    assert m2.s.pool == map[tx.hash := RecordOf(cfg, InsertEvent(tx, originalRlp, env))];
    m := SidecarRefinement.StoreTickReaches(cfg, m0, m2, m2.now);
  }
}
