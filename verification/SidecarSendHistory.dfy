/** The send counters and the tracking map of a run of whole handlers, in terms of the sends made. */
module SidecarSendHistory {
  import opened Prelude
  import opened Filter
  import opened Pool
  import opened SidecarModel
  import opened SidecarRuns
  import opened SidecarSends
  import opened SidecarHistory
  import P = Priorities

  // ----- a few sends in a row -----------------------------------------------------------------

  /** What the sends of one input leave of the send counters. */
  function CountSends(was: Sends, sends: seq<Attempt>, envs: seq<SendEnv>): Sends
    requires |sends| <= |envs|
  {
    if sends == [] then was
    else
      var k := |sends| - 1;
      var x := CountSends(was, sends[..k], envs);
      if sends[k].ok then Sends(x.streamed + 1, x.toNode + 1, x.errors, envs[k].sentAt) else x.(errors := x.errors + 1)
  }

  /** What they leave of the tracking map. */
  function TrackSends(was: map<Hash, Time>, sends: seq<Attempt>, envs: seq<SendEnv>): map<Hash, Time>
    requires |sends| <= |envs|
  {
    if sends == [] then was
    else
      var k := |sends| - 1;
      var x := TrackSends(was, sends[..k], envs);
      if sends[k].ok then x[sends[k].hash := envs[k].trackedAt] else x
  }

  /** The last successful send of h among these is tracked at t. */
  ghost predicate SentLast(sends: seq<Attempt>, envs: seq<SendEnv>, h: Hash, t: Time)
    requires |sends| <= |envs|
  {
    exists j :: 0 <= j < |sends| && LastOf(sends, h, j) && envs[j].trackedAt == t
  }

  predicate LastOf(sends: seq<Attempt>, h: Hash, j: nat)
    requires j < |sends|
  {
    sends[j].ok && sends[j].hash == h && forall i :: j < i < |sends| ==> !(sends[i].ok && sends[i].hash == h)
  }

  ghost predicate Sent(sends: seq<Attempt>, h: Hash) {
    exists j :: 0 <= j < |sends| && sends[j].ok && sends[j].hash == h
  }

  lemma OneSend(was: map<Hash, Time>, a: Attempt, env: SendEnv, envs: seq<SendEnv>)
    requires |envs| > 0 && envs[0] == env
    ensures TrackSends(was, [a], envs) == if a.ok then was[a.hash := env.trackedAt] else was
  {
    assert [a][..0] == [];
  }

  lemma TwoSends(was: map<Hash, Time>, a: Attempt, b: Attempt, first: SendEnv, second: SendEnv)
    ensures var x := if a.ok then was[a.hash := first.trackedAt] else was;
            TrackSends(was, [a, b], [first, second]) == if b.ok then x[b.hash := second.trackedAt] else x
  {
    assert [a, b][..1] == [a];
    OneSend(was, a, first, [first, second]);
  }

  lemma OneCount(was: Sends, a: Attempt, env: SendEnv, envs: seq<SendEnv>)
    requires |envs| > 0 && envs[0] == env
    ensures CountSends(was, [a], envs)
         == if a.ok then Sends(was.streamed + 1, was.toNode + 1, was.errors, env.sentAt)
            else was.(errors := was.errors + 1)
  {
    assert [a][..0] == [];
  }

  lemma TwoCounts(was: Sends, a: Attempt, b: Attempt, first: SendEnv, second: SendEnv)
    ensures var x := CountSends(was, [a], [first, second]);
            CountSends(was, [a, b], [first, second])
            == if b.ok then Sends(x.streamed + 1, x.toNode + 1, x.errors, second.sentAt) else x.(errors := x.errors + 1)
  {
    assert [a, b][..1] == [a];
  }

  // ----- what one input sends --------------------------------------------------------------------

  lemma StreamSends(s: State, job: Job, env: SendEnv)
    requires job.hash in s.pool && s.pool[job.hash].originalRlp != []
    ensures var t := Stream(s, job, env);
            && t.pool == s.pool
            && t.sends == (if env.ok then Sends(s.sends.streamed + 1, s.sends.toNode + 1, s.sends.errors, env.sentAt)
                           else s.sends.(errors := s.sends.errors + 1))
            && t.tracked == if env.ok then s.tracked[job.hash := env.trackedAt] else s.tracked
  {
  }

  /** The sends, counters and tracking of an accepted transaction. */
  predicate SendsFollow(s: State, sends: seq<Attempt>, env: InsertEnv, t: State) {
    && |sends| <= 2
    && t.sends == CountSends(s.sends, sends, [env.first, env.second])
    && t.tracked == TrackSends(s.tracked, sends, [env.first, env.second])
  }

  lemma OneSendFollows(s: State, job: Job, originalRlp: Bytes, env: InsertEnv)
    requires job.hash in s.pool && s.pool[job.hash].originalRlp != []
    ensures SendsFollow(s, [Attempt(job.hash, originalRlp, job.source, env.first.ok)], env, Stream(s, job, env.first))
  {
    var a := Attempt(job.hash, originalRlp, job.source, env.first.ok);
    StreamSends(s, job, env.first);
    OneSend(s.tracked, a, env.first, [env.first, env.second]);
    OneCount(s.sends, a, env.first, [env.first, env.second]);
    hide Stream, CountSends, TrackSends;
  }

  lemma TwoSendsFollow(s: State, one: Job, two: Job, rlp1: Bytes, rlp2: Bytes, env: InsertEnv)
    requires one.hash in s.pool && s.pool[one.hash].originalRlp != []
    requires two.hash in s.pool && s.pool[two.hash].originalRlp != []
    ensures SendsFollow(s, [Attempt(one.hash, rlp1, one.source, env.first.ok),
                            Attempt(two.hash, rlp2, two.source, env.second.ok)],
                        env, Stream(Stream(s, one, env.first), two, env.second))
  {
    var a := Attempt(one.hash, rlp1, one.source, env.first.ok);
    var b := Attempt(two.hash, rlp2, two.source, env.second.ok);
    StreamSends(s, one, env.first);
    StreamSends(Stream(s, one, env.first), two, env.second);
    TwoSends(s.tracked, a, b, env.first, env.second);
    OneCount(s.sends, a, env.first, [env.first, env.second]);
    TwoCounts(s.sends, a, b, env.first, env.second);
    hide Stream, CountSends, TrackSends;
  }

  lemma NoSendFollows(s: State, env: InsertEnv)
    ensures SendsFollow(s, [], env, s)
  {
  }

  lemma AcceptedSends(cfg: Config, s: State, pool: map<Hash, Pooled>, tx: Tx, originalRlp: Bytes, env: InsertEnv)
    requires Complete(cfg) && Sound(s.pool) && tx.binary.Some? && tx.hash !in pool
    requires s.pool == PoolAfter(cfg, pool, InsertEvent(tx, originalRlp, env))
    ensures SendsFollow(s, NewSends(cfg, pool, InsertEvent(tx, originalRlp, env)), env, StreamAccepted(cfg, s, tx, env))
  {
    var c := cfg.classify(tx);
    assert CompleteBid(c);
    hide PoolAfter, Complete, SendsFollow, Stream, CountPair;
    assert tx.hash in s.pool by {
      PoolHolds(cfg, pool, tx, originalRlp, env);
    }
    if c.txType == TobBid {
      OneSendFollows(s, Job(tx.hash, P.TobBid(c.bid.value.amount.value)), originalRlp, env);
    } else if c.txType == BackrunBid && c.bid.value.target.value in s.pool {
      var target := c.bid.value.target.value;
      var one := Job(target, P.Opportunity(target));
      var two := Job(tx.hash, P.BackrunBid(c.bid.value.amount.value, target));
      TwoSendsFollow(s, one, two, s.pool[target].originalRlp, originalRlp, env);
      PairAside(Stream(Stream(s, one, env.first), two, env.second), s,
                NewSends(cfg, pool, InsertEvent(tx, originalRlp, env)), env);
    } else {
      NoSendFollows(s, env);
    }
  }

  lemma PoolHolds(cfg: Config, pool: map<Hash, Pooled>, tx: Tx, originalRlp: Bytes, env: InsertEnv)
    requires tx.binary.Some?
    ensures tx.hash in PoolAfter(cfg, pool, InsertEvent(tx, originalRlp, env))
  {
  }

  lemma PairAside(t: State, s: State, sends: seq<Attempt>, env: InsertEnv)
    requires SendsFollow(s, sends, env, t)
    ensures SendsFollow(s, sends, env, CountPair(t))
  {
    hide CountSends, TrackSends;
  }

  /** What one input does to the send counters and the tracking map. */
  predicate SendsAndTracking(cfg: Config, s: State, input: Input, t: State) {
    var sends := NewSends(cfg, s.pool, input);
    match input
    case InsertEvent(tx, _, env) =>
      if tx.binary.Some? && tx.hash in s.pool then t.sends == s.sends && t.tracked == s.tracked - {tx.hash}
      else SendsFollow(s, sends, env, t)
    case RetireEvent(h, _, _) => t.sends == s.sends && t.tracked == s.tracked - {h}
    case Tick(_, trackNow) => t.sends == s.sends && t.tracked == Fresh(s.tracked, trackNow, cfg.maxDuration)
    case _ => t.sends == s.sends && t.tracked == s.tracked
  }

  lemma IncomingSends(cfg: Config, s: State, tx: Tx, originalRlp: Bytes, env: InsertEnv)
    requires Complete(cfg) && Sound(s.pool) && originalRlp != [] && tx.binary.Some? && tx.hash !in s.pool
    ensures SendsFollow(s, NewSends(cfg, s.pool, InsertEvent(tx, originalRlp, env)), env,
                        HandleIncoming(cfg, s, tx, originalRlp, env))
  {
    var a := Accept(cfg, s, tx, tx.binary.value, originalRlp, env.pooledAt);
    AcceptFollows(cfg, s, tx, tx.binary.value, originalRlp, env.pooledAt);
    AcceptedPool(cfg, s, tx, tx.binary.value, originalRlp, env.pooledAt);
    assert Sound(a.pool);
    assert HandleIncoming(cfg, s, tx, originalRlp, env) == CountProcessed(StreamAccepted(cfg, a, tx, env));
    hide Accept, StreamAccepted, NewSends, SendsFollow, HandleIncoming, Complete, CountProcessed;
    AcceptedSends(cfg, a, s.pool, tx, originalRlp, env);
    hide PoolAfter;
    SameSends(s, a, StreamAccepted(cfg, a, tx, env), NewSends(cfg, s.pool, InsertEvent(tx, originalRlp, env)), env);
  }

  lemma InsertSends(cfg: Config, s: State, tx: Tx, originalRlp: Bytes, env: InsertEnv)
    requires Complete(cfg) && Sound(s.pool) && originalRlp != []
    ensures var input := InsertEvent(tx, originalRlp, env); SendsAndTracking(cfg, s, input, Step(cfg, s, input))
  {
    var input := InsertEvent(tx, originalRlp, env);
    var r := Receive(s, env.arrivedAt, env.receivedAt);
    ReceiveFollows(s, env);
    assert Step(cfg, s, input) == HandleIncoming(cfg, r, tx, originalRlp, env);
    hide Step, Receive, Complete, Echo, Accept, StreamAccepted, NewSends;
    if tx.binary.None? {
      hide SendsFollow;
      UnreadableSends(cfg, s, r, input);
    } else if tx.hash in s.pool {
      EchoFollows(r, tx.hash, env.pooledAt);
    } else {
      IncomingSends(cfg, r, tx, originalRlp, env);
      hide HandleIncoming, CountSends, TrackSends;
    }
  }

  lemma UnreadableSends(cfg: Config, s: State, r: State, input: Input)
    requires input.InsertEvent? && input.tx.binary.None? && r.sends == s.sends && r.tracked == s.tracked
    ensures SendsFollow(s, NewSends(cfg, s.pool, input), input.env, CountDecodeError(r))
  {
  }

  lemma SameSends(s: State, a: State, t: State, sends: seq<Attempt>, env: InsertEnv)
    requires SendsFollow(a, sends, env, t) && a.sends == s.sends && a.tracked == s.tracked
    ensures SendsFollow(s, sends, env, CountProcessed(t))
  {
    hide CountSends, TrackSends;
  }

  lemma StepSends(cfg: Config, s: State, input: Input)
    requires Complete(cfg) && Sound(s.pool) && (input.InsertEvent? ==> input.originalRlp != [])
    ensures SendsAndTracking(cfg, s, input, Step(cfg, s, input))
  {
    hide HandleIncoming, Receive, Retire, Cleanup, RecordEcho, RecordArrival, RetiredFollow, RecordedFrom;
    hide NewSends, Complete;
    match input
    case InsertEvent(tx, originalRlp, env) =>
      hide SendsAndTracking, Step;
      InsertSends(cfg, s, tx, originalRlp, env);
    case RetireEvent(h, kind, at) => RetireFollows(s, h, kind, at);
    case Tick(poolNow, trackNow) => CleanupSends(cfg, s, poolNow, trackNow);
    case RunEcho(ms) => EchoRecords(s, ms);
    case RunArrival(ms) => ArrivalRecords(s, ms);
  }

  lemma CleanupSends(cfg: Config, s: State, poolNow: Time, trackNow: Time)
    ensures var t := Cleanup(cfg, s, poolNow, trackNow);
            t.sends == s.sends && t.tracked == Fresh(s.tracked, trackNow, cfg.maxDuration)
  {
    hide Unexpired, Fresh;
  }

  // ----- the tracking map as a function of the history ---------------------------------------------

  /** Input k sends h, and the last of its successful sends of h is tracked at t. */
  ghost predicate SendsAt(cfg: Config, inputs: seq<Input>, k: nat, h: Hash, t: Time)
    requires k < |inputs|
  {
    var sends := NewSends(cfg, Run(cfg, inputs, k).pool, inputs[k]);
    inputs[k].InsertEvent? && |sends| <= 2 && SentLast(sends, [inputs[k].env.first, inputs[k].env.second], h, t)
  }

  /** Input k sends h successfully. */
  ghost predicate Resends(cfg: Config, inputs: seq<Input>, k: nat, h: Hash)
    requires k < |inputs|
  {
    Sent(NewSends(cfg, Run(cfg, inputs, k).pool, inputs[k]), h)
  }

  /** Input k deletes an entry of h made at t: a retirement of h, a readable Insert of it while it is
      pooled, or a tick more than the maximum age after t. */
  predicate Deletes(cfg: Config, inputs: seq<Input>, k: nat, h: Hash, t: Time)
    requires k < |inputs|
  {
    match inputs[k]
    case RetireEvent(g, _, _) => g == h
    case InsertEvent(tx, _, _) => tx.hash == h && tx.binary.Some? && h in Run(cfg, inputs, k).pool
    case Tick(_, trackNow) => trackNow - t > cfg.maxDuration
    case _ => false
  }

  /** Input k made the entry of h at t, and nothing since has deleted or replaced it. */
  ghost predicate TrackedSince(cfg: Config, inputs: seq<Input>, k: int, n: nat, h: Hash, t: Time)
    requires n <= |inputs|
  {
    && 0 <= k < n && SendsAt(cfg, inputs, k, h, t)
    && forall j :: k < j < n ==> !Deletes(cfg, inputs, j, h, t) && !Resends(cfg, inputs, j, h)
  }

  ghost predicate TrackedAs(cfg: Config, inputs: seq<Input>, n: nat, h: Hash, t: Time)
    requires n <= |inputs|
  {
    exists k :: TrackedSince(cfg, inputs, k, n, h, t)
  }

  lemma {:induction false} TrackSendsMeans(was: map<Hash, Time>, sends: seq<Attempt>, envs: seq<SendEnv>,
                                          h: Hash, t: Time)
    requires |sends| <= |envs|
    ensures var m := TrackSends(was, sends, envs);
            (h in m && m[h] == t)
            <==> SentLast(sends, envs, h, t) || (!Sent(sends, h) && h in was && was[h] == t)
    decreases |sends|
  {
    if sends != [] {
      var k := |sends| - 1;
      var init := sends[..k];
      TrackSendsMeans(was, init, envs, h, t);
      LastSends(sends, envs, h, t);
    }
  }

  lemma LastSends(sends: seq<Attempt>, envs: seq<SendEnv>, h: Hash, t: Time)
    requires 0 < |sends| <= |envs|
    ensures var k := |sends| - 1;
            var mine := sends[k].ok && sends[k].hash == h;
            && (SentLast(sends, envs, h, t)
                <==> if mine then envs[k].trackedAt == t else SentLast(sends[..k], envs, h, t))
            && (Sent(sends, h) <==> mine || Sent(sends[..k], h))
  {
    var k := |sends| - 1;
    var init := sends[..k];
    assert forall j :: 0 <= j < k ==> init[j] == sends[j];
    if sends[k].ok && sends[k].hash == h {
      assert LastOf(sends, h, k);
      if SentLast(sends, envs, h, t) {
        var j :| 0 <= j < |sends| && LastOf(sends, h, j) && envs[j].trackedAt == t;
        assert j == k;
      }
    } else {
      forall j | 0 <= j < k
        ensures LastOf(sends, h, j) <==> LastOf(init, h, j)
      {
      }
      assert !LastOf(sends, h, k);
      if Sent(sends, h) {
        var j :| 0 <= j < |sends| && sends[j].ok && sends[j].hash == h;
        assert init[j].ok && init[j].hash == h;
      }
      if Sent(init, h) {
        var j :| 0 <= j < |init| && init[j].ok && init[j].hash == h;
        assert sends[j].ok && sends[j].hash == h;
      }
    }
  }

  lemma OtherInputsSendNothing(cfg: Config, inputs: seq<Input>, n: nat, h: Hash)
    requires n < |inputs|
    ensures !inputs[n].InsertEvent? ==> !Resends(cfg, inputs, n, h)
    ensures inputs[n].InsertEvent? && Deletes(cfg, inputs, n, h, 0) ==> !Resends(cfg, inputs, n, h)
  {
    hide Run;
  }

  lemma SendingResends(cfg: Config, inputs: seq<Input>, n: nat, h: Hash, t: Time)
    requires n < |inputs| && SendsAt(cfg, inputs, n, h, t)
    ensures Resends(cfg, inputs, n, h)
  {
    hide Run, NewSends;
  }

  /** One input: an entry is there after it exactly when it has just been made, or was there and is
      neither deleted nor replaced. */
  lemma TrackedNext(cfg: Config, inputs: seq<Input>, n: nat, t': State, h: Hash, t: Time)
    requires n < |inputs| && SendsAndTracking(cfg, Run(cfg, inputs, n), inputs[n], t')
    ensures var was := Run(cfg, inputs, n).tracked;
            (h in t'.tracked && t'.tracked[h] == t)
            <==> SendsAt(cfg, inputs, n, h, t)
                 || (h in was && was[h] == t && !Deletes(cfg, inputs, n, h, t) && !Resends(cfg, inputs, n, h))
  {
    OtherInputsSendNothing(cfg, inputs, n, h);
    if SendsAt(cfg, inputs, n, h, t) {
      SendingResends(cfg, inputs, n, h, t);
    }
    var s := Run(cfg, inputs, n);
    var sends := NewSends(cfg, s.pool, inputs[n]);
    if inputs[n].InsertEvent? && |sends| <= 2 {
      TrackSendsMeans(s.tracked, sends, [inputs[n].env.first, inputs[n].env.second], h, t);
    }
    hide Run, NewSends, TrackSends, CountSends, SentLast, Sent;
  }

  lemma TrackedOnward(cfg: Config, inputs: seq<Input>, k: int, n: nat, h: Hash, t: Time)
    requires n < |inputs| && k < n
    ensures TrackedSince(cfg, inputs, k, n + 1, h, t)
       <==> TrackedSince(cfg, inputs, k, n, h, t) && !Deletes(cfg, inputs, n, h, t) && !Resends(cfg, inputs, n, h)
  {
    hide SendsAt, Resends, Deletes;
  }

  lemma TrackedSinceNext(cfg: Config, inputs: seq<Input>, n: nat, h: Hash, t: Time)
    requires n < |inputs|
    ensures TrackedAs(cfg, inputs, n + 1, h, t)
       <==> SendsAt(cfg, inputs, n, h, t)
            || (TrackedAs(cfg, inputs, n, h, t) && !Deletes(cfg, inputs, n, h, t) && !Resends(cfg, inputs, n, h))
  {
    hide SendsAt, Resends, Deletes;
    assert TrackedSince(cfg, inputs, n, n + 1, h, t) <==> SendsAt(cfg, inputs, n, h, t);
    if TrackedAs(cfg, inputs, n + 1, h, t) {
      var k :| TrackedSince(cfg, inputs, k, n + 1, h, t);
      if k < n {
        TrackedOnward(cfg, inputs, k, n, h, t);
      }
    }
    if TrackedAs(cfg, inputs, n, h, t) {
      var k :| TrackedSince(cfg, inputs, k, n, h, t);
      TrackedOnward(cfg, inputs, k, n, h, t);
    }
  }

  /** After any run, h is tracked as sent at t exactly when some input sent it then and no later input
      retired it, echoed it, sent it again, or ticked more than the maximum age after t. */
  lemma TrackingRefinement(cfg: Config, inputs: seq<Input>, n: nat, h: Hash, t: Time)
    requires Complete(cfg) && RawBytes(inputs) && n <= |inputs|
    ensures (h in Run(cfg, inputs, n).tracked && Run(cfg, inputs, n).tracked[h] == t)
       <==> exists k :: TrackedSince(cfg, inputs, k, n, h, t)
  {
    hide Run, TrackedSince;
    TrackingHolds(cfg, inputs, n, h, t);
  }

  lemma {:induction false} TrackingHolds(cfg: Config, inputs: seq<Input>, n: nat, h: Hash, t: Time)
    requires Complete(cfg) && RawBytes(inputs) && n <= |inputs|
    ensures (h in Run(cfg, inputs, n).tracked && Run(cfg, inputs, n).tracked[h] == t)
       <==> TrackedAs(cfg, inputs, n, h, t)
  {
    hide Step, TrackedAs, SendsAndTracking, Complete, Sound;
    if n == 0 {
      NothingTracked(cfg, inputs, h, t);
    } else {
      TrackingHolds(cfg, inputs, n - 1, h, t);
      RunSound(cfg, inputs, n - 1);
      StepSends(cfg, Run(cfg, inputs, n - 1), inputs[n - 1]);
      TrackedNext(cfg, inputs, n - 1, Run(cfg, inputs, n), h, t);
      TrackedSinceNext(cfg, inputs, n - 1, h, t);
    }
  }

  lemma NothingTracked(cfg: Config, inputs: seq<Input>, h: Hash, t: Time)
    ensures h !in Run(cfg, inputs, 0).tracked && !TrackedAs(cfg, inputs, 0, h, t)
  {
    assert Run(cfg, inputs, 0).tracked == map[];
  }

  // ----- the send counters -------------------------------------------------------------------------

  function Successes(log: seq<Attempt>): nat {
    if log == [] then 0 else Successes(log[..|log| - 1]) + One(log[|log| - 1].ok)
  }

  lemma {:induction false} SuccessesJoin(log: seq<Attempt>, more: seq<Attempt>)
    ensures Successes(log + more) == Successes(log) + Successes(more) && Successes(more) <= |more|
    decreases |more|
  {
    if more == [] {
      assert log + more == log;
    } else {
      var init := more[..|more| - 1];
      SuccessesJoin(log, init);
      assert (log + more)[..|log + more| - 1] == log + init;
    }
  }

  lemma {:induction false} CountsAre(was: Sends, sends: seq<Attempt>, envs: seq<SendEnv>)
    requires |sends| <= |envs|
    ensures var x := CountSends(was, sends, envs);
            && x.toNode == was.toNode + Successes(sends) && x.streamed == was.streamed + Successes(sends)
            && x.errors == was.errors + |sends| - Successes(sends)
    decreases |sends|
  {
    if sends != [] {
      CountsAre(was, sends[..|sends| - 1], envs);
    }
  }

  /** When an input last sent something, if it did. */
  function LastReading(input: Input, sends: seq<Attempt>): Option<Time> {
    if !input.InsertEvent? then None
    else if |sends| >= 2 && sends[1].ok then Some(input.env.second.sentAt)
    else if |sends| >= 1 && sends[0].ok then Some(input.env.first.sentAt)
    else None
  }

  ghost function SentAt(cfg: Config, inputs: seq<Input>): nat -> Option<Time> {
    (k: nat) =>
      if k < |inputs| then LastReading(inputs[k], NewSends(cfg, Run(cfg, inputs, k).pool, inputs[k])) else None
  }

  lemma LastSentAt(was: Sends, sends: seq<Attempt>, first: SendEnv, second: SendEnv)
    requires |sends| <= 2
    ensures CountSends(was, sends, [first, second]).lastSentAt
         == if |sends| >= 2 && sends[1].ok then second.sentAt
            else if |sends| >= 1 && sends[0].ok then first.sentAt
            else was.lastSentAt
  {
    if |sends| == 1 {
      assert sends == [sends[0]];
      OneCount(was, sends[0], first, [first, second]);
    } else if |sends| == 2 {
      assert sends == [sends[0], sends[1]];
      OneCount(was, sends[0], first, [first, second]);
      TwoCounts(was, sends[0], sends[1], first, second);
    }
  }

  ghost predicate SendsAre(cfg: Config, inputs: seq<Input>, n: nat, x: Sends, log: seq<Attempt>) {
    && x.toNode == x.streamed == Successes(log)
    && x.errors == |log| - Successes(log)
    && x.lastSentAt == Latest(n, SentAt(cfg, inputs))
  }

  lemma InputCounts(cfg: Config, s: State, input: Input, t: State)
    requires SendsAndTracking(cfg, s, input, t)
    ensures var sends := NewSends(cfg, s.pool, input);
            && t.sends.toNode == s.sends.toNode + Successes(sends)
            && t.sends.streamed == s.sends.streamed + Successes(sends)
            && t.sends.errors == s.sends.errors + |sends| - Successes(sends)
            && t.sends.lastSentAt == if LastReading(input, sends).Some? then LastReading(input, sends).value
                                     else s.sends.lastSentAt
  {
    var sends := NewSends(cfg, s.pool, input);
    NoNewSends(cfg, s.pool, input);
    hide NewSends, Successes;
    if input.InsertEvent? && SendsFollow(s, sends, input.env, t) {
      CountsAre(s.sends, sends, [input.env.first, input.env.second]);
      LastSentAt(s.sends, sends, input.env.first, input.env.second);
      hide CountSends, TrackSends;
    }
  }

  lemma SentAtIs(cfg: Config, inputs: seq<Input>, n: nat)
    requires n < |inputs|
    ensures SentAt(cfg, inputs)(n) == LastReading(inputs[n], NewSends(cfg, Run(cfg, inputs, n).pool, inputs[n]))
  {
    hide Run, NewSends;
  }

  lemma SendsStep(cfg: Config, inputs: seq<Input>, n: nat, t: State)
    requires n < |inputs| && SendsAre(cfg, inputs, n, Run(cfg, inputs, n).sends, Run(cfg, inputs, n).log)
    requires SendsAndTracking(cfg, Run(cfg, inputs, n), inputs[n], t)
    requires t.log == Run(cfg, inputs, n).log + NewSends(cfg, Run(cfg, inputs, n).pool, inputs[n])
    ensures SendsAre(cfg, inputs, n + 1, t.sends, t.log)
  {
    hide Run, NewSends, Successes, SendsAndTracking, SentAt, LastReading;
    var s := Run(cfg, inputs, n);
    SuccessesJoin(s.log, NewSends(cfg, s.pool, inputs[n]));
    InputCounts(cfg, s, inputs[n], t);
    SentAtIs(cfg, inputs, n);
    LatestNext(n, SentAt(cfg, inputs));
    hide Latest;
  }

  lemma LatestNext(n: nat, reading: nat -> Option<Time>)
    ensures Latest(n + 1, reading) == if reading(n).Some? then reading(n).value else Latest(n, reading)
  {
  }

  lemma NoNewSends(cfg: Config, pool: map<Hash, Pooled>, input: Input)
    ensures !input.InsertEvent? || (input.tx.binary.Some? && input.tx.hash in pool) ==> NewSends(cfg, pool, input) == []
    ensures Successes([]) == 0
  {
  }

  /** In every run the two counters of sent transactions are the successful attempts of the log, the
      error counter the failed ones, and the last send time the reading of the last success. */
  lemma {:induction false} RunSends(cfg: Config, inputs: seq<Input>, n: nat)
    requires Complete(cfg) && RawBytes(inputs) && n <= |inputs|
    ensures SendsAre(cfg, inputs, n, Run(cfg, inputs, n).sends, Run(cfg, inputs, n).log)
  {
    hide Step, SendsAndTracking, Complete, SendsAre, NewSends, Sound, CarriesInsert;
    if n == 0 {
      NothingSent(cfg, inputs);
    } else {
      RunSends(cfg, inputs, n - 1);
      RunSound(cfg, inputs, n - 1);
      StepSends(cfg, Run(cfg, inputs, n - 1), inputs[n - 1]);
      SendLogStep(cfg, inputs, n - 1);
      SendsStep(cfg, inputs, n - 1, Run(cfg, inputs, n));
    }
  }

  lemma NothingSent(cfg: Config, inputs: seq<Input>)
    ensures SendsAre(cfg, inputs, 0, Run(cfg, inputs, 0).sends, Run(cfg, inputs, 0).log)
  {
    assert Run(cfg, inputs, 0) == Init();
    assert Init().sends == Sends(0, 0, 0, 0) && Init().log == [];
    hide Run, Init;
  }
}
