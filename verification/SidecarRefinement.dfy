/** Every run of uninterrupted handlers is a schedule of the interleaved machine, so whatever the
    machine guarantees in all its reachable states holds of such runs too. */
module SidecarRefinement {
  import opened Prelude
  import opened Filter
  import opened Pool
  import opened SidecarModel
  import opened SidecarThreads

  // ----- schedules compose -----------------------------------------------------------------

  lemma ReachedRefl(step: Stepper, m: Machine)
    ensures ReachedBy(step, m, m)
  {
    assert ExecWith(step, m, []) == Some(m);
  }

  lemma ReachedSnoc(step: Stepper, m: Machine, m': Machine, a: Action, m'': Machine)
    requires ReachedBy(step, m, m') && step(m', a) == Some(m'')
    ensures ReachedBy(step, m, m'')
  {
    var acts :| ExecWith(step, m, acts) == Some(m');
    var more := acts + [a];
    assert more[..|more| - 1] == acts;
    assert ExecWith(step, m, more) == Some(m'');
  }

  lemma Advance(cfg: Config, m0: Machine, m: Machine, a: Action, m': Machine)
    requires Reaches(cfg, m0, m) && Do(cfg, m, a) == Some(m')
    ensures Reaches(cfg, m0, m')
  {
    hide Do;
    ReachedSnoc(StepOf(cfg), m0, m, a, m');
  }

  lemma EventAdvance(cfg: Config, m0: Machine, m: Machine, ok: bool, at: Time, s: State, ev: EventPc)
    requires Reaches(cfg, m0, m) && m.now <= at
    requires EventMove(cfg, m.s, m.ev, ok, at) == Some((s, ev))
    ensures Reaches(cfg, m0, m.(s := s, ev := ev, now := at))
  {
    var m' := m.(s := s, ev := ev, now := at);
    assert Do(cfg, m, EventStep(ok, at)) == Some(m') by {
      hide EventMove;
    }
    hide EventMove, Do;
    Advance(cfg, m0, m, EventStep(ok, at), m');
  }

  lemma CleanAdvance(cfg: Config, m0: Machine, m: Machine, at: Time, s: State, cl: CleanPc) returns (m': Machine)
    requires Reaches(cfg, m0, m) && m.now <= at
    requires CleanMove(cfg, m.s, m.cl, at) == (s, cl)
    ensures Reaches(cfg, m0, m')
    ensures m'.s == s && m'.ev == m.ev && m'.cl == cl && m'.now == at
  {
    m' := Do(cfg, m, CleanStep(at)).value;
    assert Do(cfg, m, CleanStep(at)) == Some(m') && m'.s == s && m'.ev == m.ev && m'.cl == cl && m'.now == at by {
      hide CleanMove;
    }
    hide CleanMove, Do;
    Advance(cfg, m0, m, CleanStep(at), m');
  }

  // ----- one stream ----------------------------------------------------------------------------

  predicate TimelySend(now: Time, env: SendEnv) {
    now <= env.sentAt <= env.trackedAt
  }

  /** Looking the bytes up, sending and tracking without interruption is one Stream. */
  lemma StreamReaches(cfg: Config, m0: Machine, m: Machine, jobs: seq<Job>, pair: bool, env: SendEnv)
    requires Reaches(cfg, m0, m) && TimelySend(m.now, env)
    requires m.ev == Streaming(jobs, pair) && jobs != []
    ensures Reaches(cfg, m0, m.(s := Stream(m.s, jobs[0], env), ev := Streaming(jobs[1..], pair), now := env.trackedAt))
  {
    hide Reaches;
    var s, job := m.s, jobs[0];
    if !Sendable(s, job.hash) {
      EventAdvance(cfg, m0, m, false, env.trackedAt, FailSend(s), Streaming(jobs[1..], pair));
    } else {
      var rlp := s.pool[job.hash].originalRlp;
      EventAdvance(cfg, m0, m, false, env.sentAt, s, Sending(job, rlp, jobs[1..], pair));
      var m1 := m.(ev := Sending(job, rlp, jobs[1..], pair), now := env.sentAt);
      assert m1 == m.(s := s, ev := Sending(job, rlp, jobs[1..], pair), now := env.sentAt);
      SendReaches(cfg, m0, m1, job, rlp, jobs[1..], pair, env);
    }
  }

  lemma SendReaches(cfg: Config, m0: Machine, m: Machine, job: Job, rlp: Bytes, jobs: seq<Job>, pair: bool,
      env: SendEnv)
    requires Reaches(cfg, m0, m) && TimelySend(m.now, env) && m.now == env.sentAt
    requires m.ev == Sending(job, rlp, jobs, pair)
    ensures var t := Send(m.s, job, rlp, env.ok, env.sentAt);
            Reaches(cfg, m0, m.(s := if env.ok then Track(t, job.hash, env.trackedAt) else t,
                                ev := Streaming(jobs, pair), now := env.trackedAt))
  {
    hide Reaches;
    var t := Send(m.s, job, rlp, env.ok, env.sentAt);
    if env.ok {
      EventAdvance(cfg, m0, m, true, env.sentAt, t, Tracking(job.hash, jobs, pair));
      var m1 := m.(s := t, ev := Tracking(job.hash, jobs, pair), now := env.sentAt);
      EventAdvance(cfg, m0, m1, true, env.trackedAt, Track(t, job.hash, env.trackedAt), Streaming(jobs, pair));
    } else {
      assert t == Send(m.s, job, rlp, false, env.trackedAt);
      EventAdvance(cfg, m0, m, false, env.trackedAt, t, Streaming(jobs, pair));
    }
  }

  // ----- the Insert handler ----------------------------------------------------------------------

  predicate Timely(now: Time, input: Input) {
    match input
    case InsertEvent(_, _, env) =>
      now <= env.arrivedAt <= env.receivedAt <= env.pooledAt
      && TimelySend(env.pooledAt, env.first) && TimelySend(env.first.trackedAt, env.second)
    case RetireEvent(_, _, at) => now <= at
    case Tick(poolNow, trackNow) => now <= poolNow <= trackNow
    case RunEcho(_) | RunArrival(_) => true
  }

  /** The latest clock reading an input may make. */
  function Latest(now: Time, input: Input): Time {
    match input
    case InsertEvent(_, _, env) => env.second.trackedAt
    case RetireEvent(_, _, at) => at
    case Tick(_, trackNow) => trackNow
    case RunEcho(_) | RunArrival(_) => now
  }

  /** Accepting: add, type, bid data, size, gauge and kind, one section after the other. */
  lemma AddReaches(cfg: Config, m0: Machine, m: Machine, tx: Tx, txBytes: Bytes, originalRlp: Bytes, at: Time)
    requires Reaches(cfg, m0, m) && m.now <= at && m.ev == Adding(tx, txBytes, originalRlp)
    ensures var t := AddTyped(m.s, tx, txBytes, originalRlp, cfg.classify(tx), at);
            Reaches(cfg, m0, m.(s := t, ev := Sizing(tx), now := at))
  {
    hide Reaches;
    var s1 := AddToPool(m.s, tx, txBytes, originalRlp, at);
    var s2 := SetType(s1, tx.hash, cfg.classify(tx).txType);
    var s3 := SetBid(s2, tx.hash, cfg.classify(tx).bid);
    hide AddToPool, SetType, SetBid;
    EventAdvance(cfg, m0, m, false, at, s1, Typing(tx));
    var m1 := m.(s := s1, ev := Typing(tx), now := at);
    EventAdvance(cfg, m0, m1, false, at, s2, Bidding(tx));
    var m2 := m.(s := s2, ev := Bidding(tx), now := at);
    assert m2 == m1.(s := s2, ev := Bidding(tx), now := at);
    EventAdvance(cfg, m0, m2, false, at, s3, Sizing(tx));
    assert m.(s := s3, ev := Sizing(tx), now := at) == m2.(s := s3, ev := Sizing(tx), now := at);
  }

  lemma AcceptReaches(cfg: Config, m0: Machine, m: Machine, tx: Tx, txBytes: Bytes, originalRlp: Bytes, at: Time)
    requires Reaches(cfg, m0, m) && m.now <= at && m.ev == Adding(tx, txBytes, originalRlp)
    ensures Reaches(cfg, m0,
        m.(s := Accept(cfg, m.s, tx, txBytes, originalRlp, at), ev := AfterCounting(cfg, tx), now := at))
  {
    hide Reaches;
    AddReaches(cfg, m0, m, tx, txBytes, originalRlp, at);
    var t := AddTyped(m.s, tx, txBytes, originalRlp, cfg.classify(tx), at);
    assert Accept(cfg, m.s, tx, txBytes, originalRlp, at)
        == CountKind(StoreGauge(t, |t.pool|), cfg.classify(tx).txType);
    var s2, s3 := StoreSize(t, |t.pool|), StoreGauge(t, |t.pool|);
    assert s3 == MirrorSize(s2, |t.pool|);
    hide Accept, AddToPool, SetType, SetBid, AfterCounting, CountKind, StoreGauge, StoreSize, MirrorSize;
    var m1 := m.(s := t, ev := Sizing(tx), now := at);
    EventAdvance(cfg, m0, m1, false, at, t, Storing(tx, |t.pool|));
    var m2 := m1.(s := t, ev := Storing(tx, |t.pool|), now := at);
    EventAdvance(cfg, m0, m2, false, at, s2, Mirroring(tx, |t.pool|));
    var m3 := m2.(s := s2, ev := Mirroring(tx, |t.pool|), now := at);
    var u := CountKind(s3, cfg.classify(tx).txType);
    EventAdvance(cfg, m0, m3, false, at, u, AfterCounting(cfg, tx));
    assert m.(s := u, ev := AfterCounting(cfg, tx), now := at) == m3.(s := u, ev := AfterCounting(cfg, tx), now := at);
  }

  /** The end of an Insert handler: count the pair if one was open, count the transaction. */
  lemma FinishReaches(cfg: Config, m0: Machine, m: Machine, pair: bool, at: Time)
    requires Reaches(cfg, m0, m) && m.now <= at && m.ev == Streaming([], pair)
    ensures Reaches(cfg, m0, m.(s := CountProcessed(if pair then CountPair(m.s) else m.s), ev := Idle, now := at))
  {
    hide Reaches;
    EventAdvance(cfg, m0, m, false, at, CountProcessed(if pair then CountPair(m.s) else m.s), Idle);
  }

  /** Streaming whatever an accepted transaction calls for, then finishing. */
  lemma StreamAcceptedReaches(cfg: Config, m0: Machine, m: Machine, tx: Tx, env: InsertEnv)
    requires Reaches(cfg, m0, m) && m.ev == AfterCounting(cfg, tx)
    requires TimelySend(m.now, env.first) && TimelySend(env.first.trackedAt, env.second)
    ensures Reaches(cfg, m0, m.(s := CountProcessed(StreamAccepted(cfg, m.s, tx, env)), ev := Idle,
                                now := env.second.trackedAt))
  {
    hide Reaches;
    var c := cfg.classify(tx);
    if c.txType == BackrunBid && m.ev.Looking? {
      EventAdvance(cfg, m0, m, false, m.now, m.s, AfterLookup(cfg, m.s, tx));
      var m1 := m.(s := m.s, ev := AfterLookup(cfg, m.s, tx), now := m.now);
      BackrunReaches(cfg, m0, m1, m, tx, env);
    } else if c.txType == TobBid && m.ev.jobs != [] {
      var job := m.ev.jobs[0];
      assert m.ev == Streaming([job], false) && [job][1..] == [];
      StreamReaches(cfg, m0, m, [job], false, env.first);
      var t := Stream(m.s, job, env.first);
      assert StreamAccepted(cfg, m.s, tx, env) == t;
      hide Stream, StreamAccepted;
      var m1 := m.(s := t, ev := Streaming([], false), now := env.first.trackedAt);
      FinishReaches(cfg, m0, m1, false, env.second.trackedAt);
    } else {
      assert m.ev == Streaming([], false) && StreamAccepted(cfg, m.s, tx, env) == m.s;
      hide StreamAccepted;
      FinishReaches(cfg, m0, m, false, env.second.trackedAt);
    }
  }

  lemma BackrunReaches(cfg: Config, m0: Machine, m: Machine, looked: Machine, tx: Tx, env: InsertEnv)
    requires Reaches(cfg, m0, m) && looked.ev == AfterCounting(cfg, tx) == Looking(tx)
    requires m == looked.(ev := AfterLookup(cfg, looked.s, tx)) && cfg.classify(tx).txType == BackrunBid
    requires TimelySend(m.now, env.first) && TimelySend(env.first.trackedAt, env.second)
    ensures Reaches(cfg, m0, m.(s := CountProcessed(StreamAccepted(cfg, m.s, tx, env)), ev := Idle,
                                now := env.second.trackedAt))
  {
    hide Reaches;
    if m.ev == Streaming([], false) {
      assert StreamAccepted(cfg, m.s, tx, env) == m.s;
      hide StreamAccepted;
      FinishReaches(cfg, m0, m, false, env.second.trackedAt);
    } else {
      var jobs := m.ev.jobs;
      assert |jobs| == 2 && jobs[1..][0] == jobs[1] && jobs[1..][1..] == [] && m.ev.pair;
      StreamReaches(cfg, m0, m, jobs, true, env.first);
      var t := Stream(m.s, jobs[0], env.first);
      var u := Stream(t, jobs[1], env.second);
      assert StreamAccepted(cfg, m.s, tx, env) == CountPair(u);
      hide Stream, StreamAccepted, AfterLookup;
      var m1 := m.(s := t, ev := Streaming(jobs[1..], true), now := env.first.trackedAt);
      StreamReaches(cfg, m0, m1, jobs[1..], true, env.second);
      var m2 := m1.(s := u, ev := Streaming([], true), now := env.second.trackedAt);
      FinishReaches(cfg, m0, m2, true, env.second.trackedAt);
    }
  }

  lemma IncomingReaches(cfg: Config, m0: Machine, m: Machine, tx: Tx, originalRlp: Bytes, env: InsertEnv)
    returns (end: Time)
    requires Reaches(cfg, m0, m) && m.ev == Arrived(tx, originalRlp) && m.now <= env.pooledAt
    requires TimelySend(env.pooledAt, env.first) && TimelySend(env.first.trackedAt, env.second)
    ensures m.now <= end <= env.second.trackedAt
    ensures Reaches(cfg, m0, m.(s := HandleIncoming(cfg, m.s, tx, originalRlp, env), ev := Idle, now := end))
  {
    hide Reaches;
    if tx.binary.None? {
      end := m.now;
      EventAdvance(cfg, m0, m, false, end, CountDecodeError(m.s), Idle);
    } else if tx.hash in m.s.pool {
      end := env.pooledAt;
      EventAdvance(cfg, m0, m, false, end, m.s, EchoCheck(tx.hash));
      var m1 := m.(s := m.s, ev := EchoCheck(tx.hash), now := end);
      EventAdvance(cfg, m0, m1, false, end, Echo(m.s, tx.hash, end), Idle);
      assert m.(s := Echo(m.s, tx.hash, end), ev := Idle, now := end)
          == m1.(s := Echo(m.s, tx.hash, end), ev := Idle, now := end);
    } else {
      end := env.second.trackedAt;
      var txBytes := tx.binary.value;
      EventAdvance(cfg, m0, m, false, env.pooledAt, m.s, Adding(tx, txBytes, originalRlp));
      var m1 := m.(s := m.s, ev := Adding(tx, txBytes, originalRlp), now := env.pooledAt);
      var t := Accept(cfg, m.s, tx, txBytes, originalRlp, env.pooledAt);
      assert HandleIncoming(cfg, m.s, tx, originalRlp, env) == CountProcessed(StreamAccepted(cfg, t, tx, env));
      hide Accept, StreamAccepted, HandleIncoming, CountProcessed, AfterCounting, EventMove;
      AcceptReaches(cfg, m0, m1, tx, txBytes, originalRlp, env.pooledAt);
      var m2 := m1.(s := t, ev := AfterCounting(cfg, tx), now := env.pooledAt);
      StreamAcceptedReaches(cfg, m0, m2, tx, env);
      var u := CountProcessed(StreamAccepted(cfg, t, tx, env));
      assert m.(s := u, ev := Idle, now := end) == m2.(s := u, ev := Idle, now := end);
    }
  }

  lemma InsertReaches(cfg: Config, m0: Machine, m: Machine, tx: Tx, originalRlp: Bytes, env: InsertEnv)
    returns (m': Machine)
    requires Reaches(cfg, m0, m) && m.ev == Idle && Timely(m.now, InsertEvent(tx, originalRlp, env))
    ensures Reaches(cfg, m0, m') && m'.ev == Idle && m'.cl == m.cl && m'.now <= env.second.trackedAt
    ensures m'.s == Step(cfg, m.s, InsertEvent(tx, originalRlp, env))
  {
    hide Reaches, EventMove;
    var begin := BeginInsert(tx, originalRlp, env.arrivedAt, env.receivedAt);
    var s1 := Receive(m.s, env.arrivedAt, env.receivedAt);
    var m1 := m.(s := s1, ev := Arrived(tx, originalRlp), now := env.receivedAt,
                 inserts := m.inserts + {(tx.hash, originalRlp)});
    hide Receive, HandleIncoming;
    assert Do(cfg, m, begin) == Some(m1);
    hide Do;
    Advance(cfg, m0, m, begin, m1);
    var end := IncomingReaches(cfg, m0, m1, tx, originalRlp, env);
    m' := m1.(s := HandleIncoming(cfg, s1, tx, originalRlp, env), ev := Idle, now := end);
  }

  lemma BeginRetireReaches(cfg: Config, m0: Machine, m: Machine, h: Hash, kind: Retirement, at: Time)
    requires Reaches(cfg, m0, m) && m.ev == Idle && m.now <= at
    ensures Reaches(cfg, m0, m.(s := NoteRetirement(m.s, kind, at), ev := Untracking(h, kind), now := at))
  {
    hide Reaches, NoteRetirement, EventMove, CleanMove;
    var begin := BeginRetire(h, kind, at);
    var m1 := m.(s := NoteRetirement(m.s, kind, at), ev := Untracking(h, kind), now := at);
    assert Do(cfg, m, begin) == Some(m1);
    hide Do;
    Advance(cfg, m0, m, begin, m1);
  }

  lemma UntrackReaches(cfg: Config, m0: Machine, m: Machine, h: Hash, kind: Retirement)
    requires Reaches(cfg, m0, m) && m.ev == Untracking(h, kind)
    ensures Reaches(cfg, m0, m.(s := Untrack(m.s, h, kind), ev := Removing(h), now := m.now))
  {
    hide Reaches, Do, Forget, CountForgotten;
    if h in m.s.tracked {
      EventAdvance(cfg, m0, m, false, m.now, Forget(m.s, h), Untracked(h, kind));
      var m1 := m.(s := Forget(m.s, h), ev := Untracked(h, kind), now := m.now);
      EventAdvance(cfg, m0, m1, false, m.now, CountForgotten(Forget(m.s, h), kind), Removing(h));
    } else {
      EventAdvance(cfg, m0, m, false, m.now, m.s, Removing(h));
    }
  }

  lemma RetireReaches(cfg: Config, m0: Machine, m: Machine, h: Hash, kind: Retirement, at: Time)
    returns (m': Machine)
    requires Reaches(cfg, m0, m) && m.ev == Idle && m.now <= at
    ensures Reaches(cfg, m0, m') && m'.ev == Idle && m'.cl == m.cl && m'.now == at
    ensures m'.s == Step(cfg, m.s, RetireEvent(h, kind, at))
  {
    hide Reaches, NoteRetirement, Untrack, RemoveFromPool, Do;
    var s1 := NoteRetirement(m.s, kind, at);
    var s2 := Untrack(s1, h, kind);
    var s3 := RemoveFromPool(s2, h);
    assert Step(cfg, m.s, RetireEvent(h, kind, at)) == Retire(m.s, h, kind, at) == s3;
    hide Step;
    BeginRetireReaches(cfg, m0, m, h, kind, at);
    var m1 := m.(s := s1, ev := Untracking(h, kind), now := at);
    UntrackReaches(cfg, m0, m1, h, kind);
    var m2 := m1.(s := s2, ev := Removing(h), now := at);
    EventAdvance(cfg, m0, m2, false, at, s3, Idle);
    m' := m2.(s := s3, ev := Idle, now := at);
  }

  lemma PoolTickReaches(cfg: Config, m0: Machine, m: Machine, at: Time) returns (m': Machine)
    requires Reaches(cfg, m0, m) && m.cl == Resting && m.now <= at
    ensures var t := CleanPool(m.s, at, cfg.maxDuration);
            && Reaches(cfg, m0, m') && m'.ev == m.ev && m'.now == at && m'.s == t
            && m'.cl == Recounted(|m.s.pool|, |t.pool|, m.s.books, t.books)
  {
    hide Reaches;
    var s := m.s;
    var before := |s.pool|;
    var t := CleanPool(s, at, cfg.maxDuration);
    hide CleanPool, StoreGauge, CountExpired, CleanTracked;
    var m1 := CleanAdvance(cfg, m0, m, m.now, s, Counted(before, s.books));
    var m2 := CleanAdvance(cfg, m0, m1, at, t, Cleaned(before, s.books));
    m' := CleanAdvance(cfg, m0, m2, at, t, Recounted(before, |t.pool|, s.books, t.books));
  }

  lemma StoreTickReaches(cfg: Config, m0: Machine, m: Machine, at: Time) returns (m': Machine)
    requires Reaches(cfg, m0, m) && m.cl.Recounted? && m.now <= at
    ensures Reaches(cfg, m0, m') && m'.ev == m.ev && m'.now == at && m'.cl == Sweeping
    ensures m'.s == StoreGauge(CountExpired(m.s, m.cl.before, m.cl.after), m.cl.after)
  {
    hide Reaches;
    var s, after := CountExpired(m.s, m.cl.before, m.cl.after), m.cl.after;
    assert StoreGauge(s, after) == MirrorSize(StoreSize(s, after), after);
    hide CountExpired, StoreSize, MirrorSize, StoreGauge;
    var m1 := CleanAdvance(cfg, m0, m, at, StoreSize(s, after), Restating(after, m.cl.end));
    m' := CleanAdvance(cfg, m0, m1, at, MirrorSize(StoreSize(s, after), after), Sweeping);
  }

  lemma TickReaches(cfg: Config, m0: Machine, m: Machine, poolNow: Time, trackNow: Time) returns (m': Machine)
    requires Reaches(cfg, m0, m) && m.cl == Resting && m.now <= poolNow <= trackNow
    ensures Reaches(cfg, m0, m') && m'.ev == m.ev && m'.cl == Resting && m'.now == trackNow
    ensures m'.s == Step(cfg, m.s, Tick(poolNow, trackNow))
  {
    hide Reaches, CleanPool, StoreGauge, CountExpired, CleanTracked;
    var before := |m.s.pool|;
    var t := CleanPool(m.s, poolNow, cfg.maxDuration);
    var u := StoreGauge(CountExpired(t, before, |t.pool|), |t.pool|);
    var v := CleanTracked(u, trackNow, cfg.maxDuration);
    assert Step(cfg, m.s, Tick(poolNow, trackNow)) == Cleanup(cfg, m.s, poolNow, trackNow) == v by {
      hide HandleIncoming, Receive, Retire, RecordEcho, RecordArrival;
    }
    hide Step, Cleanup;
    var m1 := PoolTickReaches(cfg, m0, m, poolNow);
    var m2 := StoreTickReaches(cfg, m0, m1, poolNow);
    m' := CleanAdvance(cfg, m0, m2, trackNow, v, Resting);
  }

  lemma MeasureReaches(cfg: Config, m0: Machine, m: Machine, ms: real, echo: bool) returns (m': Machine)
    requires Reaches(cfg, m0, m)
    ensures Reaches(cfg, m0, m') && m'.ev == m.ev && m'.cl == m.cl && m'.now == m.now
    ensures m'.s == if echo then RecordEcho(m.s, ms) else RecordArrival(m.s, ms)
  {
    hide Reaches, EventMove;
    var a := if echo then EchoStep(ms, m.now) else ArrivalStep(ms, m.now);
    if Do(cfg, m, a).Some? {
      m' := Do(cfg, m, a).value;
      Advance(cfg, m0, m, a, m');
    } else {
      m' := m;
    }
  }

  /** The machine, at rest, can take any timely input in one uninterrupted go and ends in exactly
      the state the handlers compute. */
  lemma StepReaches(cfg: Config, m0: Machine, m: Machine, input: Input) returns (m': Machine)
    requires Reaches(cfg, m0, m) && m.ev == Idle && m.cl == Resting && Timely(m.now, input)
    ensures Reaches(cfg, m0, m') && m'.ev == Idle && m'.cl == Resting && m'.now <= Latest(m.now, input)
    ensures m'.s == Step(cfg, m.s, input)
  {
    hide Reaches, HandleIncoming, Retire, Cleanup, Receive;
    match input
    case InsertEvent(tx, originalRlp, env) => m' := InsertReaches(cfg, m0, m, tx, originalRlp, env);
    case RetireEvent(h, kind, at) => m' := RetireReaches(cfg, m0, m, h, kind, at);
    case Tick(poolNow, trackNow) => m' := TickReaches(cfg, m0, m, poolNow, trackNow);
    case RunEcho(ms) => m' := MeasureReaches(cfg, m0, m, ms, true);
    case RunArrival(ms) => m' := MeasureReaches(cfg, m0, m, ms, false);
  }

  /** The latest clock reading of the first n inputs. */
  function LatestOf(start: Time, inputs: seq<Input>, n: nat): Time
    requires n <= |inputs|
  {
    if n == 0 then start else Latest(LatestOf(start, inputs, n - 1), inputs[n - 1])
  }

  /** The inputs are read on a clock that never goes back. */
  ghost predicate TimelyRun(start: Time, inputs: seq<Input>) {
    forall n :: 0 <= n < |inputs| ==> Timely(LatestOf(start, inputs, n), inputs[n])
  }

  lemma TimelyEarlier(now: Time, later: Time, input: Input)
    requires Timely(later, input) && now <= later
    ensures Timely(now, input) && Latest(now, input) <= Latest(later, input)
  {
  }

  lemma StartReaches(cfg: Config, m: Machine)
    ensures Reaches(cfg, m, m)
  {
    hide Do;
    ReachedRefl(StepOf(cfg), m);
  }

  /** Every run of whole handlers on a non-decreasing clock is reachable in the machine. */
  lemma {:induction false} RunReaches(cfg: Config, start: Time, inputs: seq<Input>, n: nat) returns (m: Machine)
    requires TimelyRun(start, inputs) && n <= |inputs|
    ensures Reaches(cfg, Start(start), m)
    ensures m.s == Run(cfg, inputs, n) && m.ev == Idle && m.cl == Resting && m.now <= LatestOf(start, inputs, n)
  {
    hide Reaches, Step, Timely, Latest;
    if n == 0 {
      m := Start(start);
      StartReaches(cfg, m);
    } else {
      var m1 := RunReaches(cfg, start, inputs, n - 1);
      TimelyEarlier(m1.now, LatestOf(start, inputs, n - 1), inputs[n - 1]);
      m := StepReaches(cfg, Start(start), m1, inputs[n - 1]);
    }
  }

  /** From the start, at time 0: an Insert has arrived and is not pooled yet. */
  lemma ArrivesNew(cfg: Config, tx: Tx, originalRlp: Bytes) returns (m: Machine)
    requires tx.binary.Some?
    ensures Reaches(cfg, Start(0), m) && m.ev == Adding(tx, tx.binary.value, originalRlp)
    ensures m.cl == Resting && m.now == 0 && m.s.pool == map[] && m.s.tracked == map[]
  {
    var m0 := Start(0);
    StartReaches(cfg, m0);
    hide Reaches, EventMove;
    var s1 := Receive(m0.s, 0, 0);
    var begin := BeginInsert(tx, originalRlp, 0, 0);
    var m1 := m0.(s := s1, ev := Arrived(tx, originalRlp), inserts := m0.inserts + {(tx.hash, originalRlp)});
    assert Do(cfg, m0, begin) == Some(m1);
    Advance(cfg, m0, m0, begin, m1);
    hide Do;
    ArrivalMove(cfg, s1, tx, originalRlp);
    EventAdvance(cfg, m0, m1, false, 0, s1, Adding(tx, tx.binary.value, originalRlp));
    m := m1.(s := s1, ev := Adding(tx, tx.binary.value, originalRlp), now := 0);
  }

  lemma ArrivalMove(cfg: Config, s: State, tx: Tx, originalRlp: Bytes)
    requires tx.binary.Some? && tx.hash !in s.pool
    ensures EventMove(cfg, s, Arrived(tx, originalRlp), false, 0) == Some((s, Adding(tx, tx.binary.value, originalRlp)))
  {
  }

  /** With cleanups interrupted the expiry counter can count a transaction that did not expire: one
      retired between the two size readings of a tick in which nothing is old enough. */
  lemma RetiredDuringTickCountsAsExpired(cfg: Config, m0: Machine, m: Machine, h: Hash) returns (m': Machine)
    requires Reaches(cfg, m0, m) && m.ev == Idle && m.cl == Resting && h in m.s.pool
    requires forall g :: g in m.s.pool ==> m.now - m.s.pool[g].receivedAt <= cfg.maxDuration
    ensures Reaches(cfg, m0, m')
    ensures m'.s.books.expired == m.s.books.expired && m'.s.upkeep.txExpired == m.s.upkeep.txExpired + 1
  {
    hide Reaches;
    var s := m.s;
    var now := m.now;
    var before := |s.pool|;
    var m1 := CleanAdvance(cfg, m0, m, now, s, Counted(before, s.books));
    var m2 := RetireReaches(cfg, m0, m1, h, Evicted, now);
    var t := m2.s;
    RetireEffect(cfg, s, h, now);
    var u := CleanPool(t, now, cfg.maxDuration);
    NothingOld(t, now, cfg.maxDuration);
    hide CleanPool, Step;
    var m3 := CleanAdvance(cfg, m0, m2, now, u, Cleaned(before, s.books));
    var m4 := CleanAdvance(cfg, m0, m3, now, u, Recounted(before, |u.pool|, s.books, u.books));
    OneShort(u, before);
    hide CountExpired, StoreGauge, CleanMove;
    m' := StoreTickReaches(cfg, m0, m4, now);
  }

  lemma NothingOld(s: State, now: Time, maxDuration: Time)
    requires forall g :: g in s.pool ==> now - s.pool[g].receivedAt <= maxDuration
    ensures var u := CleanPool(s, now, maxDuration);
            u.pool == s.pool && u.upkeep.txExpired == s.upkeep.txExpired && u.books.expired == s.books.expired
  {
    assert Unexpired(s.pool, now, maxDuration) == s.pool;
    assert s.pool.Keys - s.pool.Keys == {};
  }

  lemma OneShort(s: State, before: nat)
    requires before == |s.pool| + 1
    ensures var v := StoreGauge(CountExpired(s, before, |s.pool|), |s.pool|);
            v.books == s.books && v.upkeep.txExpired == s.upkeep.txExpired + 1
  {
  }

  lemma RetireEffect(cfg: Config, s: State, h: Hash, at: Time)
    requires h in s.pool
    ensures var t := Step(cfg, s, RetireEvent(h, Evicted, at));
            && t.pool == s.pool - {h} && |t.pool| == |s.pool| - 1
            && t.upkeep == s.upkeep && t.books.expired == s.books.expired
  {
    assert (s.pool - {h}).Keys == s.pool.Keys - {h};
  }
}
