/** Every counter, timestamp, measurement and tracking entry of a run of whole handlers, in terms of
    the inputs: how many there were of what, when the last one came, what was measured. */
module SidecarHistory {
  import opened Prelude
  import opened Filter
  import opened Pool
  import opened SidecarModel
  import opened SidecarRuns
  import opened SidecarSends
  import P = Priorities

  // ----- counting and remembering along a run ---------------------------------------------------

  /** How many of the first n inputs are marked. */
  function Tally(n: nat, mark: nat -> bool): nat {
    if n == 0 then 0 else Tally(n - 1, mark) + One(mark(n - 1))
  }

  /** The reading of the last of the first n inputs that has one; 0 when none has. */
  function Latest(n: nat, reading: nat -> Option<Time>): Time {
    if n == 0 then 0
    else
      match reading(n - 1)
      case None => Latest(n - 1, reading)
      case Some(at) => at
  }

  lemma {:induction false} LatestIs(n: nat, reading: nat -> Option<Time>, k: nat)
    requires k < n && reading(k).Some? && forall j :: k < j < n ==> reading(j).None?
    ensures Latest(n, reading) == reading(k).value
  {
    if k < n - 1 {
      LatestIs(n - 1, reading, k);
    }
  }

  lemma {:induction false} LatestOfNone(n: nat, reading: nat -> Option<Time>)
    requires forall j :: 0 <= j < n ==> reading(j).None?
    ensures Latest(n, reading) == 0
  {
    if n > 0 {
      LatestOfNone(n - 1, reading);
    }
  }

  /** The measurements the first n inputs take, together. */
  function Gather(n: nat, taken: nat -> multiset<real>): multiset<real> {
    if n == 0 then multiset{} else Gather(n - 1, taken) + taken(n - 1)
  }

  // ----- what an input is, told from the history ---------------------------------------------------

  /** Input k puts its transaction in the pool. */
  predicate Accepts(cfg: Config, inputs: seq<Input>, k: nat)
    requires k < |inputs|
  {
    inputs[k].InsertEvent? && inputs[k].tx.binary.Some? && inputs[k].tx.hash !in Run(cfg, inputs, k).pool
  }

  /** That is: it is an accepted Insert in the sense of the history of the pool. */
  lemma AcceptsIsAccepted(cfg: Config, inputs: seq<Input>, k: nat)
    requires k < |inputs| && inputs[k].InsertEvent?
    ensures Accepts(cfg, inputs, k) <==> Accepted(cfg, inputs, k, inputs[k].tx.hash)
  {
    RunAgrees(cfg, inputs, k, inputs[k].tx.hash);
    AcceptedWhenDead(cfg, inputs, k, inputs[k].tx.hash);
    hide Run;
  }

  /** Input k is a readable Insert of a pooled transaction. */
  predicate Duplicates(cfg: Config, inputs: seq<Input>, k: nat)
    requires k < |inputs|
  {
    inputs[k].InsertEvent? && inputs[k].tx.binary.Some? && inputs[k].tx.hash in Run(cfg, inputs, k).pool
  }

  /** Input k is a retirement of this kind that finds its transaction tracked. */
  predicate RetiresTracked(cfg: Config, inputs: seq<Input>, k: nat, kind: Retirement)
    requires k < |inputs|
  {
    inputs[k].RetireEvent? && inputs[k].kind == kind && inputs[k].hash in Run(cfg, inputs, k).tracked
  }

  /** Input k is an accepted backrun bid whose target is pooled or the bid itself. */
  predicate Matches(cfg: Config, inputs: seq<Input>, k: nat)
    requires k < |inputs|
  {
    && Accepts(cfg, inputs, k)
    && var c := cfg.classify(inputs[k].tx);
       && c.txType == BackrunBid && c.bid.Some? && c.bid.value.target.Some?
       && (c.bid.value.target.value in Run(cfg, inputs, k).pool || c.bid.value.target.value == inputs[k].tx.hash)
  }

  ghost function Inserting(inputs: seq<Input>): nat -> bool {
    (k: nat) => k < |inputs| && inputs[k].InsertEvent?
  }

  ghost function Unreadable(inputs: seq<Input>): nat -> bool {
    (k: nat) => k < |inputs| && inputs[k].InsertEvent? && inputs[k].tx.binary.None?
  }

  ghost function AcceptedAs(cfg: Config, inputs: seq<Input>, txType: TxType): nat -> bool {
    (k: nat) => k < |inputs| && Accepts(cfg, inputs, k) && cfg.classify(inputs[k].tx).txType == txType
  }

  ghost function AcceptedAll(cfg: Config, inputs: seq<Input>): nat -> bool {
    (k: nat) => k < |inputs| && Accepts(cfg, inputs, k)
  }

  ghost function Matched(cfg: Config, inputs: seq<Input>): nat -> bool {
    (k: nat) => k < |inputs| && Matches(cfg, inputs, k)
  }

  ghost function Dropping(inputs: seq<Input>): nat -> bool {
    (k: nat) => k < |inputs| && inputs[k].RetireEvent? && inputs[k].kind == Dropped
  }

  ghost function BeforeEcho(cfg: Config, inputs: seq<Input>, kind: Retirement): nat -> bool {
    (k: nat) => k < |inputs| && RetiresTracked(cfg, inputs, k, kind)
  }

  ghost function Ticking(inputs: seq<Input>): nat -> bool {
    (k: nat) => k < |inputs| && inputs[k].Tick?
  }

  ghost function ReceivedAt(inputs: seq<Input>): nat -> Option<Time> {
    (k: nat) => if k < |inputs| && inputs[k].InsertEvent? then Some(inputs[k].env.receivedAt) else None
  }

  ghost function CommittedAt(inputs: seq<Input>): nat -> Option<Time> {
    (k: nat) =>
      if k < |inputs| && inputs[k].RetireEvent? && inputs[k].kind == Committed then Some(inputs[k].at) else None
  }

  /** The reading of the last Commit before input n, 0 when there was none. */
  ghost function LastCommit(inputs: seq<Input>, n: nat): Time {
    Latest(n, CommittedAt(inputs))
  }

  /** An Insert that arrives after a Commit measures the time since, in milliseconds. */
  ghost function ArrivalOf(inputs: seq<Input>): nat -> multiset<real> {
    (k: nat) =>
      if k < |inputs| && inputs[k].InsertEvent? && LastCommit(inputs, k) > 0
      then multiset{(inputs[k].env.arrivedAt - LastCommit(inputs, k)) as real / 1000000.0}
      else multiset{}
  }

  /** A duplicate of a tracked transaction is its echo, and measures the time since it was sent. */
  ghost function EchoOf(cfg: Config, inputs: seq<Input>): nat -> multiset<real> {
    (k: nat) =>
      if k < |inputs| && Duplicates(cfg, inputs, k) && inputs[k].tx.hash in Run(cfg, inputs, k).tracked
      then multiset{(inputs[k].env.pooledAt - Run(cfg, inputs, k).tracked[inputs[k].tx.hash]) as real / 1000000.0}
      else multiset{}
  }

  // ----- what one input does to the counters -----------------------------------------------------

  /** What one input does to everything but the pool, the gauges and what it sends. */
  predicate Follows(cfg: Config, s: State, input: Input, t: State) {
    match input
    case InsertEvent(tx, _, env) =>
      && t.received == Received(s.received.txs + 1, s.received.fromNode + 1, s.received.messages + 1,
                                s.received.decodeErrors + One(tx.binary.None?), env.receivedAt)
      && t.retired == s.retired && t.upkeep.cleanupOps == s.upkeep.cleanupOps
      && KindsFollow(cfg, s.pool, s.kinds, tx, t.kinds)
      && MeasuresFollow(s, tx, env, t.measures)
    case RetireEvent(h, kind, at) =>
      && t.received == s.received && t.kinds == s.kinds && t.measures == s.measures
      && t.upkeep.cleanupOps == s.upkeep.cleanupOps
      && RetiredFollow(s, h, kind, at, t.retired)
    case Tick(_, _) =>
      && t.received == s.received && t.kinds == s.kinds && t.measures == s.measures && t.retired == s.retired
      && t.upkeep.cleanupOps == s.upkeep.cleanupOps + 1
    case RunEcho(ms) =>
      && t.received == s.received && t.kinds == s.kinds && t.retired == s.retired
      && t.upkeep.cleanupOps == s.upkeep.cleanupOps
      && t.measures.arrivals == s.measures.arrivals && t.measures.arrivalTimes == s.measures.arrivalTimes
      && RecordedFrom(s.measures.echoes, s.measures.roundTrips, ms, t.measures.echoes, t.measures.roundTrips)
    case RunArrival(ms) =>
      && t.received == s.received && t.kinds == s.kinds && t.retired == s.retired
      && t.upkeep.cleanupOps == s.upkeep.cleanupOps
      && t.measures.echoes == s.measures.echoes && t.measures.roundTrips == s.measures.roundTrips
      && RecordedFrom(s.measures.arrivals, s.measures.arrivalTimes, ms, t.measures.arrivals, t.measures.arrivalTimes)
  }

  predicate KindsFollow(cfg: Config, pool: map<Hash, Pooled>, was: Kinds, tx: Tx, kinds: Kinds) {
    var c := cfg.classify(tx);
    var accepted := tx.binary.Some? && tx.hash !in pool;
    && kinds.tob == was.tob + One(accepted && c.txType == TobBid)
    && kinds.backrun == was.backrun + One(accepted && c.txType == BackrunBid)
    && kinds.normal == was.normal + One(accepted && c.txType == NormalTransaction)
    && kinds.processed == was.processed + One(accepted)
    && kinds.pairs == was.pairs + One(accepted && c.txType == BackrunBid && c.bid.Some? && c.bid.value.target.Some?
                                          && (c.bid.value.target.value in pool || c.bid.value.target.value == tx.hash))
  }

  predicate MeasuresFollow(s: State, tx: Tx, env: InsertEnv, measures: Measures) {
    var last := s.retired.lastCommitTime;
    && measures.roundTrips == s.measures.roundTrips && measures.arrivalTimes == s.measures.arrivalTimes
    && measures.arrivals == s.measures.arrivals
         + (if last > 0 then multiset{(env.arrivedAt - last) as real / 1000000.0} else multiset{})
    && measures.echoes == s.measures.echoes
         + (if tx.binary.Some? && tx.hash in s.pool && tx.hash in s.tracked
            then multiset{(env.pooledAt - s.tracked[tx.hash]) as real / 1000000.0} else multiset{})
  }

  predicate RetiredFollow(s: State, h: Hash, kind: Retirement, at: Time, retired: Retired) {
    && retired.dropped == s.retired.dropped + One(kind == Dropped)
    && retired.committedBeforeEcho == s.retired.committedBeforeEcho + One(kind == Committed && h in s.tracked)
    && retired.droppedBeforeEcho == s.retired.droppedBeforeEcho + One(kind == Dropped && h in s.tracked)
    && retired.evictedBeforeEcho == s.retired.evictedBeforeEcho + One(kind == Evicted && h in s.tracked)
    && retired.lastCommitTime == if kind == Committed then at else s.retired.lastCommitTime
  }

  /** A pending measurement moves, once, to the end of the recorded ones. */
  predicate RecordedFrom(pending: multiset<real>, recorded: seq<real>, ms: real,
                         pending': multiset<real>, recorded': seq<real>) {
    if ms in pending then pending' == pending - multiset{ms} && recorded' == recorded + [ms]
    else pending' == pending && recorded' == recorded
  }

  lemma ReceiveFollows(s: State, env: InsertEnv)
    ensures var t := Receive(s, env.arrivedAt, env.receivedAt);
            var r := s.received;
            && t.received == Received(r.txs + 1, r.fromNode + 1, r.messages + 1, r.decodeErrors, env.receivedAt)
            && t.pool == s.pool && t.tracked == s.tracked && t.kinds == s.kinds && t.retired == s.retired
            && t.upkeep == s.upkeep && t.sends == s.sends
            && t.measures.echoes == s.measures.echoes && t.measures.roundTrips == s.measures.roundTrips
            && t.measures.arrivalTimes == s.measures.arrivalTimes
            && t.measures.arrivals == s.measures.arrivals
                 + (if s.retired.lastCommitTime > 0
                    then multiset{(env.arrivedAt - s.retired.lastCommitTime) as real / 1000000.0} else multiset{})
  {
  }

  lemma AcceptFollows(cfg: Config, s: State, tx: Tx, txBytes: Bytes, originalRlp: Bytes, at: Time)
    requires tx.hash !in s.pool
    ensures var t := Accept(cfg, s, tx, txBytes, originalRlp, at);
            && t.received == s.received && t.retired == s.retired && t.measures == s.measures && t.sends == s.sends
            && t.tracked == s.tracked && t.upkeep.cleanupOps == s.upkeep.cleanupOps
            && t.kinds.pairs == s.kinds.pairs && t.kinds.processed == s.kinds.processed
            && t.kinds.tob == s.kinds.tob + One(cfg.classify(tx).txType == TobBid)
            && t.kinds.backrun == s.kinds.backrun + One(cfg.classify(tx).txType == BackrunBid)
            && t.kinds.normal == s.kinds.normal + One(cfg.classify(tx).txType == NormalTransaction)
  {
    AcceptIs(cfg, s, tx, txBytes, originalRlp, at);
    hide Accept;
  }

  /** What streaming leaves alone. */
  predicate Aside(s: State, t: State) {
    t.received == s.received && t.retired == s.retired && t.measures == s.measures && t.upkeep == s.upkeep
    && t.pool == s.pool
  }

  lemma StreamFollows(s: State, job: Job, env: SendEnv)
    ensures Aside(s, Stream(s, job, env)) && Stream(s, job, env).kinds == s.kinds
  {
  }

  lemma StreamAcceptedFollows(cfg: Config, s: State, tx: Tx, env: InsertEnv)
    requires Complete(cfg)
    ensures var t := StreamAccepted(cfg, s, tx, env);
            var c := cfg.classify(tx);
            && Aside(s, t)
            && t.kinds == s.kinds.(pairs := s.kinds.pairs
                 + One(c.txType == BackrunBid && c.bid.Some? && c.bid.value.target.Some?
                       && c.bid.value.target.value in s.pool))
  {
    hide Stream;
    var c := cfg.classify(tx);
    assert CompleteBid(c);
    if c.txType == TobBid {
      StreamFollows(s, Job(tx.hash, P.TobBid(c.bid.value.amount.value)), env.first);
    } else if c.txType == BackrunBid && c.bid.value.target.value in s.pool {
      var target := c.bid.value.target.value;
      var first := Job(s.pool[target].tx.hash, P.Opportunity(target));
      var second := Job(tx.hash, P.BackrunBid(c.bid.value.amount.value, target));
      StreamFollows(s, first, env.first);
      StreamFollows(Stream(s, first, env.first), second, env.second);
    }
  }

  lemma EchoFollows(s: State, h: Hash, at: Time)
    ensures var t := Echo(s, h, at);
            && t.received == s.received && t.retired == s.retired && t.kinds == s.kinds && t.upkeep == s.upkeep
            && t.sends == s.sends
            && t.measures.roundTrips == s.measures.roundTrips && t.measures.arrivalTimes == s.measures.arrivalTimes
            && t.measures.arrivals == s.measures.arrivals
            && t.measures.echoes == s.measures.echoes
                 + (if h in s.tracked then multiset{(at - s.tracked[h]) as real / 1000000.0} else multiset{})
            && t.tracked == s.tracked - {h}
  {
  }

  /** What the handler after the arrival does to the counters. */
  predicate IncomingFollows(cfg: Config, s: State, tx: Tx, env: InsertEnv, t: State) {
    && t.received == s.received.(decodeErrors := s.received.decodeErrors + One(tx.binary.None?))
    && t.retired == s.retired && t.upkeep.cleanupOps == s.upkeep.cleanupOps
    && KindsFollow(cfg, s.pool, s.kinds, tx, t.kinds)
    && t.measures.roundTrips == s.measures.roundTrips && t.measures.arrivalTimes == s.measures.arrivalTimes
    && t.measures.arrivals == s.measures.arrivals
    && t.measures.echoes == s.measures.echoes
         + (if tx.binary.Some? && tx.hash in s.pool && tx.hash in s.tracked
            then multiset{(env.pooledAt - s.tracked[tx.hash]) as real / 1000000.0} else multiset{})
  }

  lemma UnreadableFollows(cfg: Config, s: State, tx: Tx, env: InsertEnv)
    requires tx.binary.None?
    ensures IncomingFollows(cfg, s, tx, env, CountDecodeError(s))
  {
  }

  lemma DuplicateFollows(cfg: Config, s: State, tx: Tx, env: InsertEnv)
    requires tx.binary.Some? && tx.hash in s.pool
    ensures IncomingFollows(cfg, s, tx, env, Echo(s, tx.hash, env.pooledAt))
  {
    EchoFollows(s, tx.hash, env.pooledAt);
    hide Echo;
  }

  lemma AcceptedFollows(cfg: Config, s: State, tx: Tx, originalRlp: Bytes, env: InsertEnv)
    requires Complete(cfg) && tx.binary.Some? && tx.hash !in s.pool
    ensures var a := Accept(cfg, s, tx, tx.binary.value, originalRlp, env.pooledAt);
            IncomingFollows(cfg, s, tx, env, CountProcessed(StreamAccepted(cfg, a, tx, env)))
  {
    var a := Accept(cfg, s, tx, tx.binary.value, originalRlp, env.pooledAt);
    AcceptFollows(cfg, s, tx, tx.binary.value, originalRlp, env.pooledAt);
    AcceptedPool(cfg, s, tx, tx.binary.value, originalRlp, env.pooledAt);
    StreamAcceptedFollows(cfg, a, tx, env);
    hide StreamAccepted, Accept, Complete;
  }

  lemma HandleFollows(cfg: Config, s: State, tx: Tx, originalRlp: Bytes, env: InsertEnv)
    requires Complete(cfg)
    ensures IncomingFollows(cfg, s, tx, env, HandleIncoming(cfg, s, tx, originalRlp, env))
  {
    hide Echo, StreamAccepted, Accept, CountDecodeError, CountProcessed, IncomingFollows, Complete;
    if tx.binary.None? {
      UnreadableFollows(cfg, s, tx, env);
    } else if tx.hash in s.pool {
      DuplicateFollows(cfg, s, tx, env);
    } else {
      AcceptedFollows(cfg, s, tx, originalRlp, env);
    }
  }

  lemma InsertFollows(cfg: Config, s: State, tx: Tx, originalRlp: Bytes, env: InsertEnv)
    requires Complete(cfg)
    ensures var input := InsertEvent(tx, originalRlp, env); Follows(cfg, s, input, Step(cfg, s, input))
  {
    hide Receive, HandleIncoming, Complete, KindsFollow, MeasuresFollow;
    var r := Receive(s, env.arrivedAt, env.receivedAt);
    ReceiveFollows(s, env);
    assert Step(cfg, s, InsertEvent(tx, originalRlp, env)) == HandleIncoming(cfg, r, tx, originalRlp, env);
    hide Step;
    var t := HandleIncoming(cfg, r, tx, originalRlp, env);
    HandleFollows(cfg, r, tx, originalRlp, env);
    MeasuresCompose(s, r.measures, tx, env, t.measures);
  }

  lemma MeasuresCompose(s: State, received: Measures, tx: Tx, env: InsertEnv, measures: Measures)
    requires received.echoes == s.measures.echoes && received.roundTrips == s.measures.roundTrips
    requires received.arrivalTimes == s.measures.arrivalTimes
    requires received.arrivals == s.measures.arrivals
               + (if s.retired.lastCommitTime > 0
                  then multiset{(env.arrivedAt - s.retired.lastCommitTime) as real / 1000000.0} else multiset{})
    requires measures.roundTrips == received.roundTrips && measures.arrivalTimes == received.arrivalTimes
    requires measures.arrivals == received.arrivals
    requires measures.echoes == received.echoes
               + (if tx.binary.Some? && tx.hash in s.pool && tx.hash in s.tracked
                  then multiset{(env.pooledAt - s.tracked[tx.hash]) as real / 1000000.0} else multiset{})
    ensures MeasuresFollow(s, tx, env, measures)
  {
  }

  lemma RetireFollows(s: State, h: Hash, kind: Retirement, at: Time)
    ensures var t := Retire(s, h, kind, at);
            && t.received == s.received && t.kinds == s.kinds && t.measures == s.measures && t.upkeep == s.upkeep
            && t.sends == s.sends && t.tracked == s.tracked - {h}
            && RetiredFollow(s, h, kind, at, t.retired)
  {
  }

  lemma CleanupFollows(cfg: Config, s: State, poolNow: Time, trackNow: Time)
    ensures var t := Cleanup(cfg, s, poolNow, trackNow);
            && t.received == s.received && t.kinds == s.kinds && t.measures == s.measures && t.retired == s.retired
            && t.sends == s.sends && t.upkeep.cleanupOps == s.upkeep.cleanupOps + 1
  {
    hide Unexpired, Fresh;
  }

  lemma EchoRecords(s: State, ms: real)
    ensures var t := RecordEcho(s, ms);
            && t.received == s.received && t.kinds == s.kinds && t.retired == s.retired && t.upkeep == s.upkeep
            && t.sends == s.sends && t.tracked == s.tracked
            && t.measures.arrivals == s.measures.arrivals && t.measures.arrivalTimes == s.measures.arrivalTimes
            && RecordedFrom(s.measures.echoes, s.measures.roundTrips, ms, t.measures.echoes, t.measures.roundTrips)
  {
  }

  lemma ArrivalRecords(s: State, ms: real)
    ensures var t := RecordArrival(s, ms);
            && t.received == s.received && t.kinds == s.kinds && t.retired == s.retired && t.upkeep == s.upkeep
            && t.sends == s.sends && t.tracked == s.tracked
            && t.measures.echoes == s.measures.echoes && t.measures.roundTrips == s.measures.roundTrips
            && RecordedFrom(s.measures.arrivals, s.measures.arrivalTimes, ms,
                            t.measures.arrivals, t.measures.arrivalTimes)
  {
  }

  lemma StepFollows(cfg: Config, s: State, input: Input)
    requires Complete(cfg)
    ensures Follows(cfg, s, input, Step(cfg, s, input))
  {
    hide HandleIncoming, Receive, Retire, Cleanup, RecordEcho, RecordArrival, RetiredFollow, RecordedFrom;
    match input
    case InsertEvent(tx, originalRlp, env) =>
      hide Step, Follows;
      InsertFollows(cfg, s, tx, originalRlp, env);
    case RetireEvent(h, kind, at) => RetireFollows(s, h, kind, at);
    case Tick(poolNow, trackNow) => CleanupFollows(cfg, s, poolNow, trackNow);
    case RunEcho(ms) => EchoRecords(s, ms);
    case RunArrival(ms) => ArrivalRecords(s, ms);
  }

  // ----- counters, timestamps and measurements of a run -----------------------------------------------

  ghost predicate ReceivedAre(inputs: seq<Input>, n: nat, r: Received) {
    && r.txs == r.fromNode == r.messages == Tally(n, Inserting(inputs))
    && r.decodeErrors == Tally(n, Unreadable(inputs))
    && r.lastReceivedAt == Latest(n, ReceivedAt(inputs))
  }

  ghost predicate KindsAre(cfg: Config, inputs: seq<Input>, n: nat, k: Kinds) {
    && k.tob == Tally(n, AcceptedAs(cfg, inputs, TobBid))
    && k.backrun == Tally(n, AcceptedAs(cfg, inputs, BackrunBid))
    && k.normal == Tally(n, AcceptedAs(cfg, inputs, NormalTransaction))
    && k.processed == Tally(n, AcceptedAll(cfg, inputs))
    && k.pairs == Tally(n, Matched(cfg, inputs)) <= k.backrun
  }

  ghost predicate RetiredAre(cfg: Config, inputs: seq<Input>, n: nat, r: Retired) {
    && r.dropped == Tally(n, Dropping(inputs))
    && r.committedBeforeEcho == Tally(n, BeforeEcho(cfg, inputs, Committed))
    && r.droppedBeforeEcho == Tally(n, BeforeEcho(cfg, inputs, Dropped))
    && r.evictedBeforeEcho == Tally(n, BeforeEcho(cfg, inputs, Evicted))
    && r.lastCommitTime == LastCommit(inputs, n)
  }

  ghost predicate ArrivalsAre(inputs: seq<Input>, n: nat, m: Measures) {
    m.arrivals + multiset(m.arrivalTimes) == Gather(n, ArrivalOf(inputs))
  }

  ghost predicate EchoesAre(cfg: Config, inputs: seq<Input>, n: nat, m: Measures) {
    m.echoes + multiset(m.roundTrips) == Gather(n, EchoOf(cfg, inputs))
  }

  ghost predicate HistoryOf(cfg: Config, inputs: seq<Input>, n: nat, s: State) {
    && ReceivedAre(inputs, n, s.received) && KindsAre(cfg, inputs, n, s.kinds)
    && RetiredAre(cfg, inputs, n, s.retired)
    && ArrivalsAre(inputs, n, s.measures) && EchoesAre(cfg, inputs, n, s.measures)
    && s.upkeep.cleanupOps == Tally(n, Ticking(inputs))
  }

  lemma ReceivedStep(cfg: Config, inputs: seq<Input>, n: nat, s: State, t: State)
    requires n < |inputs| && ReceivedAre(inputs, n, s.received) && Follows(cfg, s, inputs[n], t)
    ensures ReceivedAre(inputs, n + 1, t.received)
    ensures s.upkeep.cleanupOps == Tally(n, Ticking(inputs)) ==> t.upkeep.cleanupOps == Tally(n + 1, Ticking(inputs))
  {
    hide KindsFollow, MeasuresFollow, RetiredFollow, RecordedFrom;
  }

  lemma KindsStep(cfg: Config, inputs: seq<Input>, n: nat, t: State)
    requires n < |inputs| && KindsAre(cfg, inputs, n, Run(cfg, inputs, n).kinds)
    requires Follows(cfg, Run(cfg, inputs, n), inputs[n], t)
    ensures KindsAre(cfg, inputs, n + 1, t.kinds)
  {
    hide MeasuresFollow, RetiredFollow, RecordedFrom, Run;
  }

  lemma RetiredStep(cfg: Config, inputs: seq<Input>, n: nat, t: State)
    requires n < |inputs| && RetiredAre(cfg, inputs, n, Run(cfg, inputs, n).retired)
    requires Follows(cfg, Run(cfg, inputs, n), inputs[n], t)
    ensures RetiredAre(cfg, inputs, n + 1, t.retired)
  {
    hide MeasuresFollow, KindsFollow, RecordedFrom, Run;
  }

  lemma RecordedKeeps(pending: multiset<real>, recorded: seq<real>, ms: real,
                      pending': multiset<real>, recorded': seq<real>)
    requires RecordedFrom(pending, recorded, ms, pending', recorded')
    ensures pending' + multiset(recorded') == pending + multiset(recorded)
  {
  }

  lemma Regrouped(a: multiset<real>, b: multiset<real>, c: multiset<real>, all: multiset<real>)
    requires a + b == all
    ensures (a + c) + b == all + c
  {
  }

  lemma ArrivalsFollow(cfg: Config, s: State, input: Input, t: State)
    requires Follows(cfg, s, input, t)
    ensures var m, m' := s.measures, t.measures;
            match input
            case InsertEvent(_, _, env) =>
              var last := s.retired.lastCommitTime;
              m'.arrivalTimes == m.arrivalTimes && m'.arrivals == m.arrivals
                + (if last > 0 then multiset{(env.arrivedAt - last) as real / 1000000.0} else multiset{})
            case RunArrival(ms) => RecordedFrom(m.arrivals, m.arrivalTimes, ms, m'.arrivals, m'.arrivalTimes)
            case _ => m'.arrivals == m.arrivals && m'.arrivalTimes == m.arrivalTimes
  {
    hide RetiredFollow, KindsFollow, RecordedFrom;
  }

  lemma EchoesFollow(cfg: Config, s: State, input: Input, t: State)
    requires Follows(cfg, s, input, t)
    ensures var m, m' := s.measures, t.measures;
            match input
            case InsertEvent(tx, _, env) =>
              m'.roundTrips == m.roundTrips && m'.echoes == m.echoes
                + (if tx.binary.Some? && tx.hash in s.pool && tx.hash in s.tracked
                   then multiset{(env.pooledAt - s.tracked[tx.hash]) as real / 1000000.0} else multiset{})
            case RunEcho(ms) => RecordedFrom(m.echoes, m.roundTrips, ms, m'.echoes, m'.roundTrips)
            case _ => m'.echoes == m.echoes && m'.roundTrips == m.roundTrips
  {
    hide RetiredFollow, KindsFollow, RecordedFrom;
  }

  lemma GatherNext(n: nat, taken: nat -> multiset<real>)
    ensures Gather(n + 1, taken) == Gather(n, taken) + taken(n)
  {
  }

  /** What an Insert measures on arrival, and as an echo. */
  function ArrivalTaken(s: State, input: Input): multiset<real> {
    if input.InsertEvent? && s.retired.lastCommitTime > 0
    then multiset{(input.env.arrivedAt - s.retired.lastCommitTime) as real / 1000000.0}
    else multiset{}
  }

  function EchoTaken(s: State, input: Input): multiset<real> {
    if input.InsertEvent? && input.tx.binary.Some? && input.tx.hash in s.pool && input.tx.hash in s.tracked
    then multiset{(input.env.pooledAt - s.tracked[input.tx.hash]) as real / 1000000.0}
    else multiset{}
  }

  lemma ArrivalsGrow(cfg: Config, s: State, input: Input, t: State)
    requires Follows(cfg, s, input, t)
    ensures t.measures.arrivals + multiset(t.measures.arrivalTimes)
         == s.measures.arrivals + multiset(s.measures.arrivalTimes) + ArrivalTaken(s, input)
  {
    ArrivalsFollow(cfg, s, input, t);
    hide Follows, RecordedFrom;
    var m, m' := s.measures, t.measures;
    if input.InsertEvent? {
      assert m'.arrivals == m.arrivals + ArrivalTaken(s, input) && m'.arrivalTimes == m.arrivalTimes;
      hide ArrivalTaken;
      Regrouped(m.arrivals, multiset(m.arrivalTimes), ArrivalTaken(s, input), m.arrivals + multiset(m.arrivalTimes));
    } else if input.RunArrival? {
      RecordedKeeps(m.arrivals, m.arrivalTimes, input.ms, m'.arrivals, m'.arrivalTimes);
    }
  }

  lemma EchoesGrow(cfg: Config, s: State, input: Input, t: State)
    requires Follows(cfg, s, input, t)
    ensures t.measures.echoes + multiset(t.measures.roundTrips)
         == s.measures.echoes + multiset(s.measures.roundTrips) + EchoTaken(s, input)
  {
    EchoesFollow(cfg, s, input, t);
    hide Follows, RecordedFrom;
    var m, m' := s.measures, t.measures;
    if input.InsertEvent? {
      assert m'.echoes == m.echoes + EchoTaken(s, input) && m'.roundTrips == m.roundTrips;
      hide EchoTaken;
      Regrouped(m.echoes, multiset(m.roundTrips), EchoTaken(s, input), m.echoes + multiset(m.roundTrips));
    } else if input.RunEcho? {
      RecordedKeeps(m.echoes, m.roundTrips, input.ms, m'.echoes, m'.roundTrips);
    }
  }

  lemma ArrivalOfIs(inputs: seq<Input>, n: nat, s: State)
    requires n < |inputs| && s.retired.lastCommitTime == LastCommit(inputs, n)
    ensures ArrivalOf(inputs)(n) == ArrivalTaken(s, inputs[n])
  {
    hide LastCommit;
  }

  lemma EchoOfIs(cfg: Config, inputs: seq<Input>, n: nat)
    requires n < |inputs|
    ensures EchoOf(cfg, inputs)(n) == EchoTaken(Run(cfg, inputs, n), inputs[n])
  {
    hide Run;
  }

  lemma ArrivalsStep(cfg: Config, inputs: seq<Input>, n: nat, s: State, t: State)
    requires n < |inputs| && ArrivalsAre(inputs, n, s.measures) && s.retired.lastCommitTime == LastCommit(inputs, n)
    requires Follows(cfg, s, inputs[n], t)
    ensures ArrivalsAre(inputs, n + 1, t.measures)
  {
    hide Follows, Gather, LastCommit, ArrivalTaken, ArrivalOf;
    ArrivalsGrow(cfg, s, inputs[n], t);
    ArrivalOfIs(inputs, n, s);
    GatherNext(n, ArrivalOf(inputs));
  }

  lemma EchoesStep(cfg: Config, inputs: seq<Input>, n: nat, s: State, t: State)
    requires n < |inputs| && s == Run(cfg, inputs, n) && EchoesAre(cfg, inputs, n, s.measures)
    requires Follows(cfg, s, inputs[n], t)
    ensures EchoesAre(cfg, inputs, n + 1, t.measures)
  {
    hide Follows, Gather, Run, EchoTaken, EchoOf;
    EchoesGrow(cfg, s, inputs[n], t);
    EchoOfIs(cfg, inputs, n);
    GatherNext(n, EchoOf(cfg, inputs));
  }

  lemma LastCommitIs(cfg: Config, inputs: seq<Input>, n: nat, r: Retired)
    requires RetiredAre(cfg, inputs, n, r)
    ensures r.lastCommitTime == LastCommit(inputs, n)
  {
  }

  lemma HistoryStep(cfg: Config, inputs: seq<Input>, n: nat, s: State, t: State)
    requires n < |inputs| && s == Run(cfg, inputs, n) && HistoryOf(cfg, inputs, n, s)
    requires Follows(cfg, s, inputs[n], t)
    ensures HistoryOf(cfg, inputs, n + 1, t)
  {
    hide Run, Follows, ReceivedAre, KindsAre, RetiredAre, ArrivalsAre, EchoesAre, LastCommit, Tally;
    LastCommitIs(cfg, inputs, n, s.retired);
    ReceivedStep(cfg, inputs, n, s, t);
    KindsStep(cfg, inputs, n, t);
    RetiredStep(cfg, inputs, n, t);
    ArrivalsStep(cfg, inputs, n, s, t);
    EchoesStep(cfg, inputs, n, s, t);
  }

  /** In every run each counter is the number of the inputs it stands for: Inserts received and
      unreadable; accepted transactions of each type, and matched pairs, of which there are no more than
      backrun bids; drops; commits, drops and evictions that found their transaction tracked; ticks.
      Each timestamp is the last reading of its kind. The measurements, pending and recorded together,
      are exactly one for each Insert that arrived after a Commit, and one for each echo, in
      milliseconds between the two readings. */
  lemma {:induction false} RunHistory(cfg: Config, inputs: seq<Input>, n: nat)
    requires Complete(cfg) && n <= |inputs|
    ensures HistoryOf(cfg, inputs, n, Run(cfg, inputs, n))
  {
    hide HistoryOf, Step, Follows, Complete;
    if n == 0 {
      StartHistory(cfg, inputs);
    } else {
      var s := Run(cfg, inputs, n - 1);
      RunHistory(cfg, inputs, n - 1);
      StepFollows(cfg, s, inputs[n - 1]);
      HistoryStep(cfg, inputs, n - 1, s, Run(cfg, inputs, n));
    }
  }

  lemma StartHistory(cfg: Config, inputs: seq<Input>)
    ensures HistoryOf(cfg, inputs, 0, Run(cfg, inputs, 0))
  {
    assert Run(cfg, inputs, 0) == Init();
    var s := Init();
    assert s.received == Received(0, 0, 0, 0, 0) && s.kinds == Kinds(0, 0, 0, 0, 0);
    assert s.retired == Retired(0, 0, 0, 0, 0);
    assert s.measures == Measures(multiset{}, [], multiset{}, []) && s.upkeep.cleanupOps == 0;
    hide Run, Init;
  }
}
