/** How the tracking map relates to the pool: an entry can outlive its pooled transaction, and
    exactly which steps let it. */
module SidecarTracking {
  import opened Prelude
  import opened Filter
  import opened Pool
  import opened SidecarModel
  import opened SidecarThreads
  import SidecarSafety
  import SidecarRefinement
  import P = Priorities

  /** Every tracked transaction is pooled. */
  ghost predicate TrackedArePooled(s: State) {
    forall h :: h in s.tracked ==> h in s.pool
  }

  /** A tick finds the transaction too old for the pool and its entry not too old for the tracking
      map: the pool counts from the reception, the map from the later send. */
  predicate Strands(cfg: Config, s: State, h: Hash, poolNow: Time, trackNow: Time) {
    && h in s.tracked && h in s.pool
    && poolNow - s.pool[h].receivedAt > cfg.maxDuration && trackNow - s.tracked[h] <= cfg.maxDuration
  }

  ghost predicate StrandsSome(cfg: Config, s: State, input: Input) {
    input.Tick? && exists h :: Strands(cfg, s, h, input.poolNow, input.trackNow)
  }

  // ----- whole handlers ------------------------------------------------------------------

  lemma StreamTracks(s: State, job: Job, env: SendEnv)
    requires TrackedArePooled(s)
    ensures TrackedArePooled(Stream(s, job, env))
  {
  }

  lemma StreamAcceptedTracks(cfg: Config, s: State, tx: Tx, env: InsertEnv)
    requires TrackedArePooled(s)
    ensures TrackedArePooled(StreamAccepted(cfg, s, tx, env))
  {
    hide Stream, TrackedArePooled;
    CountersTrack();
    forall t: State, job: Job, e: SendEnv | TrackedArePooled(t)
      ensures TrackedArePooled(Stream(t, job, e))
    {
      StreamTracks(t, job, e);
    }
  }

  lemma CountersTrack()
    ensures forall t :: TrackedArePooled(CountPair(t)) <==> TrackedArePooled(t)
    ensures forall t :: TrackedArePooled(CountProcessed(t)) <==> TrackedArePooled(t)
    ensures forall t :: TrackedArePooled(CountDecodeError(t)) <==> TrackedArePooled(t)
    ensures forall t, arrivedAt, at :: TrackedArePooled(Receive(t, arrivedAt, at)) <==> TrackedArePooled(t)
  {
  }

  lemma AcceptTracks(cfg: Config, s: State, tx: Tx, txBytes: Bytes, originalRlp: Bytes, at: Time)
    requires TrackedArePooled(s) && tx.hash !in s.pool
    ensures TrackedArePooled(Accept(cfg, s, tx, txBytes, originalRlp, at))
  {
    AcceptIs(cfg, s, tx, txBytes, originalRlp, at);
    hide Accept;
  }

  lemma IncomingTracks(cfg: Config, s: State, tx: Tx, originalRlp: Bytes, env: InsertEnv)
    requires TrackedArePooled(s)
    ensures TrackedArePooled(HandleIncoming(cfg, s, tx, originalRlp, env))
  {
    CountersTrack();
    if tx.binary.Some? && tx.hash !in s.pool {
      AcceptTracks(cfg, s, tx, tx.binary.value, originalRlp, env.pooledAt);
      hide Accept, StreamAccepted, TrackedArePooled;
      StreamAcceptedTracks(cfg, Accept(cfg, s, tx, tx.binary.value, originalRlp, env.pooledAt), tx, env);
    }
  }

  lemma CleanupMaps(cfg: Config, s: State, poolNow: Time, trackNow: Time)
    ensures var t := Cleanup(cfg, s, poolNow, trackNow);
            && t.pool == Unexpired(s.pool, poolNow, cfg.maxDuration)
            && t.tracked == Fresh(s.tracked, trackNow, cfg.maxDuration)
  {
    hide Unexpired, Fresh, CleanPool, CleanTracked, StoreGauge, CountExpired;
    var s1 := CleanPool(s, poolNow, cfg.maxDuration);
    var s2 := StoreGauge(CountExpired(s1, |s.pool|, |s1.pool|), |s1.pool|);
    SidecarSafety.CleanPoolMaps(s, poolNow, cfg.maxDuration);
    GaugeMaps(s1, |s.pool|, |s1.pool|);
    SidecarSafety.CleanTrackedMaps(s2, trackNow, cfg.maxDuration);
  }

  lemma GaugeMaps(s: State, before: nat, after: nat)
    ensures var t := StoreGauge(CountExpired(s, before, after), after); t.pool == s.pool && t.tracked == s.tracked
  {
  }

  lemma TickTracks(cfg: Config, s: State, poolNow: Time, trackNow: Time)
    requires TrackedArePooled(s)
    ensures TrackedArePooled(Cleanup(cfg, s, poolNow, trackNow)) <==> !exists h :: Strands(cfg, s, h, poolNow, trackNow)
  {
    var t := Cleanup(cfg, s, poolNow, trackNow);
    CleanupMaps(cfg, s, poolNow, trackNow);
    hide Cleanup;
    forall h
      ensures Strands(cfg, s, h, poolNow, trackNow) <==> h in t.tracked && h !in t.pool
    {
    }
  }

  /** An input leaves some tracked transaction unpooled exactly when it is a tick that expires a
      tracked transaction and keeps its entry. */
  lemma StepStrandsExactly(cfg: Config, s: State, input: Input)
    requires TrackedArePooled(s)
    ensures TrackedArePooled(Step(cfg, s, input)) <==> !StrandsSome(cfg, s, input)
  {
    hide HandleIncoming, Cleanup, Strands;
    match input
    case InsertEvent(tx, originalRlp, env) =>
      CountersTrack();
      IncomingTracks(cfg, Receive(s, env.arrivedAt, env.receivedAt), tx, originalRlp, env);
    case Tick(poolNow, trackNow) => TickTracks(cfg, s, poolNow, trackNow);
    case _ =>
  }

  lemma StartTracks(cfg: Config, inputs: seq<Input>)
    ensures TrackedArePooled(Run(cfg, inputs, 0))
  {
    assert Run(cfg, inputs, 0).tracked == map[];
  }

  /** Along a run every tracked transaction stays pooled exactly as long as no such tick comes. */
  lemma {:induction false} RunStrandsExactly(cfg: Config, inputs: seq<Input>, n: nat)
    requires n <= |inputs|
    ensures (forall k :: 0 <= k <= n ==> TrackedArePooled(Run(cfg, inputs, k)))
       <==> (forall k :: 0 <= k < n ==> !StrandsSome(cfg, Run(cfg, inputs, k), inputs[k]))
  {
    hide Step, StrandsSome, TrackedArePooled, Run;
    if n == 0 {
      StartTracks(cfg, inputs);
    } else {
      RunStrandsExactly(cfg, inputs, n - 1);
      if TrackedArePooled(Run(cfg, inputs, n - 1)) {
        RunStep(cfg, inputs, n);
        StepStrandsExactly(cfg, Run(cfg, inputs, n - 1), inputs[n - 1]);
      }
    }
  }

  lemma RunStep(cfg: Config, inputs: seq<Input>, n: nat)
    requires 0 < n <= |inputs|
    ensures Run(cfg, inputs, n) == Step(cfg, Run(cfg, inputs, n - 1), inputs[n - 1])
  {
    hide Step;
  }

  // ----- a run that strands an entry ---------------------------------------------------------

  /** A top-of-block bid received at 0 and sent at the maximum age, then a tick just after. */
  function LateSend(tx: Tx, originalRlp: Bytes, maxDuration: Time): seq<Input> {
    var send := SendEnv(true, maxDuration, maxDuration);
    [InsertEvent(tx, originalRlp, InsertEnv(0, 0, 0, send, send)), Tick(maxDuration + 1, maxDuration + 1)]
  }

  lemma TobBidIsTracked(cfg: Config, s: State, tx: Tx, amount: nat, originalRlp: Bytes, env: InsertEnv)
    requires cfg.classify(tx) == Classification(TobBid, Some(BidData(Some(amount), None))) && tx.binary.Some?
    requires tx.hash !in s.pool && originalRlp != [] && env.first.ok
    ensures var t := HandleIncoming(cfg, s, tx, originalRlp, env);
            && tx.hash in t.pool && t.pool[tx.hash].receivedAt == env.pooledAt
            && t.tracked == s.tracked[tx.hash := env.first.trackedAt]
  {
    AcceptIs(cfg, s, tx, tx.binary.value, originalRlp, env.pooledAt);
    hide Accept;
  }

  /** The entry of a bid sent long after it was received outlives the pooled transaction. */
  lemma LateSendStrands(cfg: Config, tx: Tx, amount: nat, originalRlp: Bytes)
    requires cfg.classify(tx) == Classification(TobBid, Some(BidData(Some(amount), None))) && tx.binary.Some?
    requires originalRlp != [] && cfg.maxDuration >= 1
    ensures var inputs := LateSend(tx, originalRlp, cfg.maxDuration);
            && SidecarRefinement.TimelyRun(0, inputs)
            && tx.hash in Run(cfg, inputs, 2).tracked && tx.hash !in Run(cfg, inputs, 2).pool
  {
    LateSendIsTimely(tx, originalRlp, cfg.maxDuration);
    AfterLateSend(cfg, tx, amount, originalRlp);
    TickAfterLateSend(cfg, tx, originalRlp);
    hide Run, SidecarRefinement.TimelyRun;
  }

  lemma TickAfterLateSend(cfg: Config, tx: Tx, originalRlp: Bytes)
    requires var s := Run(cfg, LateSend(tx, originalRlp, cfg.maxDuration), 1);
             && tx.hash in s.pool && s.pool[tx.hash].receivedAt == 0
             && tx.hash in s.tracked && s.tracked[tx.hash] == cfg.maxDuration
    requires cfg.maxDuration >= 1
    ensures var t := Run(cfg, LateSend(tx, originalRlp, cfg.maxDuration), 2); tx.hash in t.tracked && tx.hash !in t.pool
  {
    hide Run, Cleanup, HandleIncoming;
    var inputs := LateSend(tx, originalRlp, cfg.maxDuration);
    var s1 := Run(cfg, inputs, 1);
    RunStep(cfg, inputs, 2);
    var late := cfg.maxDuration + 1;
    assert inputs[1] == Tick(late, late) && Step(cfg, s1, Tick(late, late)) == Cleanup(cfg, s1, late, late);
    hide Step, LateSend;
    CleanupMaps(cfg, s1, late, late);
  }

  lemma LateSendIsTimely(tx: Tx, originalRlp: Bytes, maxDuration: Time)
    requires maxDuration >= 1
    ensures SidecarRefinement.TimelyRun(0, LateSend(tx, originalRlp, maxDuration))
  {
    assert SidecarRefinement.LatestOf(0, LateSend(tx, originalRlp, maxDuration), 1) == maxDuration;
  }

  lemma AfterLateSend(cfg: Config, tx: Tx, amount: nat, originalRlp: Bytes)
    requires cfg.classify(tx) == Classification(TobBid, Some(BidData(Some(amount), None))) && tx.binary.Some?
    requires originalRlp != []
    ensures var s := Run(cfg, LateSend(tx, originalRlp, cfg.maxDuration), 1);
            && tx.hash in s.pool && s.pool[tx.hash].receivedAt == 0
            && tx.hash in s.tracked && s.tracked[tx.hash] == cfg.maxDuration
  {
    var inputs := LateSend(tx, originalRlp, cfg.maxDuration);
    var s := Receive(Run(cfg, inputs, 0), 0, 0);
    assert s.pool == map[];
    RunStep(cfg, inputs, 1);
    hide Run, HandleIncoming, Receive;
    TobBidIsTracked(cfg, s, tx, amount, originalRlp, inputs[0].env);
  }

  /** The same with the sidecar's own filter: a bid of 5 that names the single zero hash. */
  lemma TrackedButNotPooled() returns (cfg: Config, inputs: seq<Input>)
    ensures SidecarRefinement.TimelyRun(0, inputs) && |inputs| == 2
    ensures !TrackedArePooled(Run(cfg, inputs, 2))
  {
    var unpack: Bytes -> Option<seq<AbiValue>> := _ => Some([AbiUint(5), AbiHashes([ZeroHash()])]);
    var auction: Address := seq(20, _ => 1);
    var f := FilterConfig(auction, [1, 2, 3, 4], unpack);
    var tx := Tx(ZeroHash(), Some(auction), [1, 2, 3, 4], Some([7]));
    cfg := ConfigOf(f, 100);
    assert CallsFlashBid(f, tx, 5, [ZeroHash()]);
    ClassificationExact(f, tx);
    hide Run;
    inputs := LateSend(tx, [7], 100);
    LateSendStrands(cfg, tx, 5, [7]);
  }

  // ----- interleaved sections ------------------------------------------------------------------

  /** A retirement that has deleted the tracking entry finds none when it removes the transaction, and
      a transaction about to be added is not pooled. */
  ghost predicate Forgotten(s: State, ev: EventPc) {
    && (ev.Removing? || ev.Untracked? ==> ev.hash !in s.tracked)
    && (ev.Adding? ==> ev.tx.hash !in s.pool)
  }

  lemma EventForgets(cfg: Config, s: State, ev: EventPc, ok: bool, at: Time, s': State, ev': EventPc)
    requires Forgotten(s, ev) && EventMove(cfg, s, ev, ok, at) == Some((s', ev'))
    ensures Forgotten(s', ev')
  {
  }

  lemma StepForgets(cfg: Config, m: Machine, a: Action)
    requires Forgotten(m.s, m.ev) && Do(cfg, m, a).Some?
    ensures Forgotten(Do(cfg, m, a).value.s, Do(cfg, m, a).value.ev)
  {
    var m' := Do(cfg, m, a).value;
    hide EventMove, CleanMove, Forgotten, Receive, NoteRetirement, RecordEcho, RecordArrival;
    match a
    case EventStep(ok, at) => EventForgets(cfg, m.s, m.ev, ok, at, m'.s, m'.ev);
    case CleanStep(at) => CleanForgets(cfg, m.s, m.ev, m.cl, at);
    case BeginInsert(_, _, _, _) | BeginRetire(_, _, _) => BeginForgets(m'.s, m'.ev);
    case EchoStep(ms, _) => RecordForgets(m.s, m.ev, ms);
    case ArrivalStep(ms, _) => RecordForgets(m.s, m.ev, ms);
  }

  lemma RecordForgets(s: State, ev: EventPc, ms: real)
    requires Forgotten(s, ev)
    ensures Forgotten(RecordEcho(s, ms), ev) && Forgotten(RecordArrival(s, ms), ev)
  {
  }

  lemma CleanForgets(cfg: Config, s: State, ev: EventPc, cl: CleanPc, at: Time)
    requires Forgotten(s, ev)
    ensures Forgotten(CleanMove(cfg, s, cl, at).0, ev)
  {
    SidecarSafety.CleanMaps(cfg, s, cl, at);
    hide CleanMove;
  }

  lemma BeginForgets(s: State, ev: EventPc)
    requires !ev.Removing? && !ev.Untracked? && !ev.Adding?
    ensures Forgotten(s, ev)
  {
  }

  /** The pool expires a tracked transaction before the tracking map is swept. */
  ghost predicate ExpiresTracked(cfg: Config, m: Machine, a: Action) {
    a.CleanStep? && m.cl.Counted?
    && exists h :: h in m.s.tracked && h in m.s.pool && a.at - m.s.pool[h].receivedAt > cfg.maxDuration
  }

  /** A transaction expired while it was being sent is tracked all the same. */
  predicate TracksUnpooled(m: Machine, a: Action) {
    a.EventStep? && m.ev.Tracking? && m.ev.hash !in m.s.pool
  }

  /** Every entry without a pooled transaction, if any, is that of h. */
  ghost predicate OnlyOf(s: State, h: Hash) {
    forall g :: g in s.tracked && g !in s.pool ==> g == h
  }

  /** The last such entry goes: its transaction is pooled again, its echo or retirement deletes it, or
      the sweep finds every one of them too old. */
  ghost predicate Rejoins(cfg: Config, m: Machine, a: Action) {
    || (a.EventStep? && m.ev.Adding? && OnlyOf(m.s, m.ev.tx.hash))
    || (a.EventStep? && (m.ev.EchoCheck? || m.ev.Untracking?) && OnlyOf(m.s, m.ev.hash))
    || (a.CleanStep? && m.cl.Sweeping?
        && forall g :: g in m.s.tracked && g !in m.s.pool ==> a.at - m.s.tracked[g] > cfg.maxDuration)
  }

  ghost function Stranding(cfg: Config): Flaw {
    Flaw((m: Machine) => !TrackedArePooled(m.s),
         (m: Machine, a: Action) => ExpiresTracked(cfg, m, a) || TracksUnpooled(m, a),
         (m: Machine, a: Action) => Rejoins(cfg, m, a))
  }

  ghost function TrackInv(): Machine -> bool {
    (m: Machine) => Forgotten(m.s, m.ev)
  }

  lemma EventStrands(cfg: Config, s: State, ev: EventPc, ok: bool, at: Time, s': State, ev': EventPc)
    requires EventMove(cfg, s, ev, ok, at) == Some((s', ev')) && Forgotten(s, ev)
    ensures TrackedArePooled(s) ==> (TrackedArePooled(s') <==> !(ev.Tracking? && ev.hash !in s.pool))
  {
    SidecarSafety.EventEffect(cfg, s, ev, ok, at, s', ev');
    SidecarSafety.TrackedEffect(cfg, s, ev, ok, at, s', ev');
    hide EventMove;
    assert ev.Tracking? ==> ev.hash in s'.tracked;
  }

  lemma EventRejoins(cfg: Config, s: State, ev: EventPc, ok: bool, at: Time, s': State, ev': EventPc)
    requires EventMove(cfg, s, ev, ok, at) == Some((s', ev'))
    requires !TrackedArePooled(s) && (ev.Adding? ==> ev.tx.hash !in s.pool)
    ensures TrackedArePooled(s')
       <==> (ev.Adding? && OnlyOf(s, ev.tx.hash)) || ((ev.EchoCheck? || ev.Untracking?) && OnlyOf(s, ev.hash))
  {
    SidecarSafety.EventEffect(cfg, s, ev, ok, at, s', ev');
    SidecarSafety.TrackedEffect(cfg, s, ev, ok, at, s', ev');
    hide EventMove;
    var g :| g in s.tracked && g !in s.pool;
    if (ev.Adding? && !OnlyOf(s, ev.tx.hash)) || ((ev.EchoCheck? || ev.Untracking?) && !OnlyOf(s, ev.hash)) {
      var h := if ev.Adding? then ev.tx.hash else ev.hash;
      var f :| f in s.tracked && f !in s.pool && f != h;
      assert f in s'.tracked && f !in s'.pool;
    } else if !ev.Adding? && !ev.EchoCheck? && !ev.Untracking? {
      assert g in s'.tracked && g !in s'.pool;
    }
  }

  lemma CleanStrands(cfg: Config, m: Machine, at: Time)
    ensures var s' := CleanMove(cfg, m.s, m.cl, at).0;
            TrackedArePooled(s')
            <==> if TrackedArePooled(m.s) then !ExpiresTracked(cfg, m, CleanStep(at))
                 else Rejoins(cfg, m, CleanStep(at))
  {
    SidecarSafety.CleanMaps(cfg, m.s, m.cl, at);
    hide CleanMove;
  }

  /** In every interleaving, a section leaves some tracked transaction unpooled exactly when it is
      the expiry of a tracked transaction, or the tracking of one that expired while being sent; and
      every tracked transaction is pooled again exactly when the last stray entry goes. */
  lemma StrandingIsExact(cfg: Config)
    ensures Exact(StepOf(cfg), Stranding(cfg), TrackInv())
  {
    forall m, a | TrackInv()(m) && StepOf(cfg)(m, a).Some?
      ensures Stranding(cfg).bad(StepOf(cfg)(m, a).value)
         <==> if Stranding(cfg).bad(m) then !Stranding(cfg).mends(m, a) else Stranding(cfg).breaks(m, a)
    {
      hide Do, Forgotten, TrackedArePooled, ExpiresTracked, Rejoins;
      SectionStrands(cfg, m, a);
    }
  }

  lemma SectionStrands(cfg: Config, m: Machine, a: Action)
    requires Forgotten(m.s, m.ev) && Do(cfg, m, a).Some?
    ensures TrackedArePooled(Do(cfg, m, a).value.s)
       <==> if TrackedArePooled(m.s) then !ExpiresTracked(cfg, m, a) && !TracksUnpooled(m, a) else Rejoins(cfg, m, a)
  {
    var m' := Do(cfg, m, a).value;
    hide EventMove, CleanMove;
    match a
    case EventStep(ok, at) =>
      hide TrackedArePooled, OnlyOf, Forgotten;
      if TrackedArePooled(m.s) {
        EventStrands(cfg, m.s, m.ev, ok, at, m'.s, m'.ev);
      } else {
        EventRejoins(cfg, m.s, m.ev, ok, at, m'.s, m'.ev);
      }
    case CleanStep(at) =>
      hide TrackedArePooled, Rejoins, ExpiresTracked;
      CleanStrands(cfg, m, at);
    case _ =>
  }

  lemma TrackInvKept(cfg: Config)
    ensures Keeps(StepOf(cfg), TrackInv())
  {
    forall m, a | TrackInv()(m) && StepOf(cfg)(m, a).Some?
      ensures TrackInv()(StepOf(cfg)(m, a).value)
    {
      hide Do, Forgotten;
      StepForgets(cfg, m, a);
    }
  }

  lemma TrackInvAtStart(start: Time)
    ensures TrackInv()(Start(start)) && TrackedArePooled(Start(start).s)
  {
    assert Start(start).s.tracked == map[];
  }

  /** The law of single sections, of reachable machines. */
  lemma SectionStrandsExactly(cfg: Config, start: Time, m: Machine, a: Action)
    requires Reaches(cfg, Start(start), m) && Do(cfg, m, a).Some?
    ensures TrackedArePooled(Do(cfg, m, a).value.s)
       <==> if TrackedArePooled(m.s) then !ExpiresTracked(cfg, m, a) && !TracksUnpooled(m, a) else Rejoins(cfg, m, a)
  {
    hide Do, Forgotten, TrackedArePooled, ExpiresTracked, Rejoins, Reaches;
    ForgottenHolds(cfg, start, m);
    SectionStrands(cfg, m, a);
  }

  lemma ForgottenHolds(cfg: Config, start: Time, m: Machine)
    requires Reaches(cfg, Start(start), m)
    ensures Forgotten(m.s, m.ev)
  {
    hide Forgotten, Do, Keeps;
    TrackInvAtStart(start);
    TrackInvKept(cfg);
    ReachedInvariance(StepOf(cfg), TrackInv(), Start(start), m);
  }

  /** After any schedule some tracked transaction is not pooled exactly when some section stranded an
      entry and the last stray entry has not gone since. */
  lemma SchedulesStrandExactly(cfg: Config, start: Time, acts: seq<Action>)
    requires ExecWith(StepOf(cfg), Start(start), acts).Some?
    ensures !TrackedArePooled(ExecWith(StepOf(cfg), Start(start), acts).value.s)
       <==> exists k :: 0 <= k < |acts| && FlawedSince(StepOf(cfg), Stranding(cfg), Start(start), acts, k)
  {
    hide TrackInv, Exact, Keeps, ExecWith, FlawedSince, TrackedArePooled;
    TrackInvAtStart(start);
    TrackInvKept(cfg);
    StrandingIsExact(cfg);
    FlawExactly(StepOf(cfg), Stranding(cfg), TrackInv(), Start(start), acts);
  }

  /** From the start, at time 0: a bid is pooled and about to be streamed. */
  lemma BidIsPooled(cfg: Config, tx: Tx, amount: nat, originalRlp: Bytes) returns (m: Machine)
    requires cfg.classify(tx) == Classification(TobBid, Some(BidData(Some(amount), None))) && tx.binary.Some?
    ensures Reaches(cfg, Start(0), m) && m.cl == Resting && m.now == 0
    ensures m.ev == Streaming([Job(tx.hash, P.TobBid(amount))], false)
    ensures m.s.tracked == map[] && m.s.pool.Keys == {tx.hash}
    ensures m.s.pool[tx.hash].receivedAt == 0 && m.s.pool[tx.hash].originalRlp == originalRlp
  {
    var m2 := SidecarRefinement.ArrivesNew(cfg, tx, originalRlp);
    hide Reaches;
    SidecarRefinement.AcceptReaches(cfg, Start(0), m2, tx, tx.binary.value, originalRlp, 0);
    AcceptIs(cfg, m2.s, tx, tx.binary.value, originalRlp, 0);
    hide Accept;
    var s := Accept(cfg, m2.s, tx, tx.binary.value, originalRlp, 0);
    m := m2.(s := s, ev := AfterCounting(cfg, tx), now := 0);
  }

  /** The client has taken the bid: it is pooled, and not tracked yet. */
  lemma BidIsSent(cfg: Config, tx: Tx, amount: nat, originalRlp: Bytes) returns (m: Machine)
    requires cfg.classify(tx) == Classification(TobBid, Some(BidData(Some(amount), None))) && tx.binary.Some?
    requires originalRlp != []
    ensures Reaches(cfg, Start(0), m) && m.ev == Tracking(tx.hash, [], false) && m.cl == Resting && m.now == 0
    ensures m.s.tracked == map[] && m.s.pool.Keys == {tx.hash} && m.s.pool[tx.hash].receivedAt == 0
  {
    var m3 := BidIsPooled(cfg, tx, amount, originalRlp);
    hide Reaches, Do;
    var job := m3.ev.jobs[0];
    assert m3.ev.jobs[1..] == [];
    var s := Send(m3.s, job, originalRlp, true, 0);
    SidecarRefinement.EventAdvance(cfg, Start(0), m3, true, 0, m3.s, Sending(job, originalRlp, [], false));
    var m4 := m3.(s := m3.s, ev := Sending(job, originalRlp, [], false), now := 0);
    SidecarRefinement.EventAdvance(cfg, Start(0), m4, true, 0, s, Tracking(tx.hash, [], false));
    m := m4.(s := s, ev := Tracking(tx.hash, [], false), now := 0);
  }

  /** A cleanup between the send of a bid and its tracking leaves an entry whose transaction
      is no longer pooled. */
  lemma ExpiredWhileSending(cfg: Config, tx: Tx, amount: nat, originalRlp: Bytes) returns (m: Machine)
    requires cfg.classify(tx) == Classification(TobBid, Some(BidData(Some(amount), None))) && tx.binary.Some?
    requires originalRlp != [] && cfg.maxDuration >= 0
    ensures Reaches(cfg, Start(0), m) && tx.hash in m.s.tracked && m.s.pool == map[]
  {
    var m1 := BidIsSent(cfg, tx, amount, originalRlp);
    hide Reaches;
    var late := cfg.maxDuration + 1;
    var m2 := SidecarRefinement.CleanAdvance(cfg, Start(0), m1, 0, m1.s, Counted(|m1.s.pool|, m1.s.books));
    var s3 := CleanPool(m1.s, late, cfg.maxDuration);
    assert s3.pool == map[] && s3.tracked == map[];
    var m3 := SidecarRefinement.CleanAdvance(cfg, Start(0), m2, late, s3, Cleaned(|m1.s.pool|, m1.s.books));
    hide Do;
    SidecarRefinement.EventAdvance(cfg, Start(0), m3, true, late, Track(s3, tx.hash, late), Streaming([], false));
    m := m3.(s := Track(s3, tx.hash, late), ev := Streaming([], false), now := late);
  }
}
