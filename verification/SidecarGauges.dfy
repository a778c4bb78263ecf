/** The two pool-size gauges of the interleaved sidecar: when they understate the pool, and when they
    disagree with each other. */
module SidecarGauges {
  import opened Prelude
  import opened Filter
  import opened Pool
  import opened SidecarModel
  import opened SidecarThreads
  import opened SidecarLaws
  import SidecarSafety
  import SidecarRefinement

  // ----- what is known when a size is stored ---------------------------------------------------

  /** The size the event thread is about to store covers the pool: only a cleanup can have run since
      it was read, and a cleanup removes. */
  ghost predicate SizeCovers(s: State, ev: EventPc) {
    ev.Storing? || ev.Mirroring? ==> |s.pool| <= ev.size
  }

  ghost function GaugeInv(): Machine -> bool {
    (m: Machine) => Laws(m.s, m.ev) && SidecarSafety.SizesTrue(m.cl, m.s.books.expired) && SizeCovers(m.s, m.ev)
  }

  lemma EventCovers(cfg: Config, s: State, ev: EventPc, ok: bool, at: Time, s': State, ev': EventPc)
    requires EventMove(cfg, s, ev, ok, at) == Some((s', ev')) && SizeCovers(s, ev)
    ensures SizeCovers(s', ev')
  {
  }

  lemma CleanCovers(cfg: Config, s: State, ev: EventPc, cl: CleanPc, at: Time)
    requires SizeCovers(s, ev)
    ensures SizeCovers(CleanMove(cfg, s, cl, at).0, ev)
  {
    CleanGauge(cfg, s, cl, at);
    hide CleanMove;
  }

  lemma StepCovers(cfg: Config, m: Machine, a: Action)
    requires SizeCovers(m.s, m.ev) && Do(cfg, m, a).Some?
    ensures SizeCovers(Do(cfg, m, a).value.s, Do(cfg, m, a).value.ev)
  {
    var m' := Do(cfg, m, a).value;
    hide EventMove, CleanMove;
    match a
    case EventStep(ok, at) => EventCovers(cfg, m.s, m.ev, ok, at, m'.s, m'.ev);
    case CleanStep(at) => CleanCovers(cfg, m.s, m.ev, m.cl, at);
    case _ =>
  }

  lemma GaugeInvKept(cfg: Config)
    requires Complete(cfg)
    ensures Keeps(StepOf(cfg), GaugeInv())
  {
    forall m, a | GaugeInv()(m) && StepOf(cfg)(m, a).Some?
      ensures GaugeInv()(StepOf(cfg)(m, a).value)
    {
      assert PoolLaw(m.s, m.ev);
      hide Laws, Do, SidecarSafety.SizesTrue, SizeCovers;
      SidecarSafety.StepKeepsSizes(cfg, m, a);
      StepKeepsLaws(cfg, m, a);
      StepCovers(cfg, m, a);
    }
  }

  lemma GaugeInvAtStart(start: Time)
    ensures GaugeInv()(Start(start))
  {
    hide Laws;
    InitLaws(Init(), Idle);
  }

  /** What a section of the event thread does to the pool's size and the gauges. */
  lemma EventGauge(cfg: Config, s: State, ev: EventPc, ok: bool, at: Time, s': State, ev': EventPc)
    requires EventMove(cfg, s, ev, ok, at) == Some((s', ev'))
    ensures s'.upkeep.poolSize == (if ev.Storing? then ev.size else s.upkeep.poolSize)
    ensures s'.upkeep.poolSizeMetric == (if ev.Mirroring? then ev.size else s.upkeep.poolSizeMetric)
  {
  }

  lemma EventPoolSize(cfg: Config, s: State, ev: EventPc, ok: bool, at: Time, s': State, ev': EventPc)
    requires EventMove(cfg, s, ev, ok, at) == Some((s', ev')) && PoolLaw(s, ev)
    ensures |s'.pool| == |s.pool| + One(ev.Adding?) - One(ev.Removing? && ev.hash in s.pool)
  {
    SidecarSafety.EventEffect(cfg, s, ev, ok, at, s', ev');
    hide EventMove;
    match ev
    case Adding(tx, txBytes, originalRlp) => KeysPlus(s.pool, tx.hash, NewRecord(tx, txBytes, originalRlp, at));
    case Typing(tx) =>
      if tx.hash in s.pool {
        KeysPlus(s.pool, tx.hash, s.pool[tx.hash].(txType := cfg.classify(tx).txType));
      }
    case Bidding(tx) =>
      if tx.hash in s.pool {
        KeysPlus(s.pool, tx.hash, s.pool[tx.hash].(bidData := cfg.classify(tx).bid));
      }
    case Removing(h) =>
      if h in s.pool {
        KeysMinus(s.pool, h);
      } else {
        assert s.pool - {h} == s.pool;
      }
    case _ =>
  }

  lemma CleanGauge(cfg: Config, s: State, cl: CleanPc, at: Time)
    ensures var s' := CleanMove(cfg, s, cl, at).0;
            && s'.upkeep.poolSize == (if cl.Recounted? then cl.after else s.upkeep.poolSize)
            && s'.upkeep.poolSizeMetric == (if cl.Restating? then cl.after else s.upkeep.poolSizeMetric)
            && s'.pool == (if cl.Counted? then Unexpired(s.pool, at, cfg.maxDuration) else s.pool)
            && |s'.pool| <= |s.pool|
  {
    if cl.Counted? {
      KeysLeft(s.pool, Unexpired(s.pool, at, cfg.maxDuration));
    }
    hide Unexpired, Fresh;
  }

  // ----- understating the pool ------------------------------------------------------------------

  ghost predicate Understates(s: State) {
    s.upkeep.poolSize < |s.pool|
  }

  /** A new transaction goes in while the gauge shows exactly the pool. */
  predicate AddsToExactGauge(m: Machine, a: Action) {
    a.EventStep? && m.ev.Adding? && m.s.upkeep.poolSize == |m.s.pool|
  }

  /** More transactions entered the pool than left it since the cleanup thread read its size. */
  predicate MoreEntered(s: State, end: Ledger) {
    s.books.accepted - end.accepted > s.books.removed - end.removed
  }

  /** The cleanup thread stores a size since which more transactions entered than left. */
  predicate StoresOldSize(m: Machine, a: Action) {
    a.CleanStep? && m.cl.Recounted? && MoreEntered(m.s, m.cl.end)
  }

  /** The event thread stores, the cleanup thread stores a size that is not too old, or the pool
      shrinks to what the gauge shows. */
  predicate CatchesUp(cfg: Config, m: Machine, a: Action) {
    || (a.EventStep? && m.ev.Storing?)
    || (a.CleanStep? && m.cl.Recounted? && !MoreEntered(m.s, m.cl.end))
    || (a.EventStep? && m.ev.Removing? && m.ev.hash in m.s.pool && |m.s.pool| == m.s.upkeep.poolSize + 1)
    || (a.CleanStep? && m.cl.Counted? && |Unexpired(m.s.pool, a.at, cfg.maxDuration)| <= m.s.upkeep.poolSize)
  }

  ghost function Understating(cfg: Config): Flaw {
    Flaw((m: Machine) => Understates(m.s),
         (m: Machine, a: Action) => AddsToExactGauge(m, a) || StoresOldSize(m, a),
         (m: Machine, a: Action) => CatchesUp(cfg, m, a))
  }

  lemma EventUnderstates(cfg: Config, m: Machine, a: Action)
    requires GaugeInv()(m) && a.EventStep? && Do(cfg, m, a).Some?
    ensures Understates(Do(cfg, m, a).value.s)
       <==> if Understates(m.s) then !CatchesUp(cfg, m, a) else AddsToExactGauge(m, a)
  {
    var m' := Do(cfg, m, a).value;
    assert PoolLaw(m.s, m.ev);
    EventGauge(cfg, m.s, m.ev, a.ok, a.at, m'.s, m'.ev);
    EventPoolSize(cfg, m.s, m.ev, a.ok, a.at, m'.s, m'.ev);
    hide EventMove, Laws, SidecarSafety.SizesTrue, PoolLaw;
  }

  lemma CleanUnderstates(cfg: Config, m: Machine, a: Action)
    requires GaugeInv()(m) && a.CleanStep? && Do(cfg, m, a).Some?
    ensures Understates(Do(cfg, m, a).value.s)
       <==> if Understates(m.s) then !CatchesUp(cfg, m, a) else StoresOldSize(m, a)
  {
    assert PoolLaw(m.s, m.ev);
    CleanGauge(cfg, m.s, m.cl, a.at);
    hide CleanMove, Laws, SizeCovers, Unexpired;
  }

  /** In every interleaving a gauge that does not understate the pool comes to by exactly two kinds of
      section: a transaction entering an exactly shown pool, until its own size is stored, and the
      cleanup thread storing a size since which more entered than left. One that does stops doing so
      by exactly four: either thread storing, the latter not too late, or the pool shrinking to it. */
  lemma UnderstatingIsExact(cfg: Config)
    ensures Exact(StepOf(cfg), Understating(cfg), GaugeInv())
  {
    hide GaugeInv;
    forall m, a | GaugeInv()(m) && StepOf(cfg)(m, a).Some?
      ensures Understating(cfg).bad(StepOf(cfg)(m, a).value)
         <==> if Understating(cfg).bad(m) then !Understating(cfg).mends(m, a) else Understating(cfg).breaks(m, a)
    {
      if a.EventStep? {
        EventUnderstates(cfg, m, a);
      } else if a.CleanStep? {
        CleanUnderstates(cfg, m, a);
      } else {
        OtherActions(cfg, m, a);
      }
    }
  }

  lemma OtherActions(cfg: Config, m: Machine, a: Action)
    requires !a.EventStep? && !a.CleanStep? && Do(cfg, m, a).Some?
    ensures var s := Do(cfg, m, a).value.s; s.pool == m.s.pool && s.upkeep == m.s.upkeep
  {
    hide EventMove, CleanMove;
  }

  /** After any schedule the gauge understates the pool exactly when some section brought that about
      and none has ended it since. */
  lemma UnderstatesExactly(cfg: Config, start: Time, acts: seq<Action>)
    requires Complete(cfg) && ExecWith(StepOf(cfg), Start(start), acts).Some?
    ensures Understates(ExecWith(StepOf(cfg), Start(start), acts).value.s)
       <==> exists k :: 0 <= k < |acts| && FlawedSince(StepOf(cfg), Understating(cfg), Start(start), acts, k)
  {
    hide GaugeInv, Exact, Keeps, ExecWith, FlawedSince;
    GaugeInvAtStart(start);
    GaugeInvKept(cfg);
    UnderstatingIsExact(cfg);
    FlawExactly(StepOf(cfg), Understating(cfg), GaugeInv(), Start(start), acts);
  }

  /** The same as a law of single sections of reachable machines. */
  lemma GaugeUnderstatesExactly(cfg: Config, start: Time, m: Machine, a: Action)
    requires Complete(cfg) && Reaches(cfg, Start(start), m) && Do(cfg, m, a).Some?
    ensures Understates(Do(cfg, m, a).value.s)
       <==> if Understates(m.s) then !CatchesUp(cfg, m, a) else AddsToExactGauge(m, a) || StoresOldSize(m, a)
  {
    hide GaugeInv, Do;
    GaugeInvHolds(cfg, start, m);
    UnderstatingIsExact(cfg);
    assert StepOf(cfg)(m, a) == Do(cfg, m, a);
  }

  lemma GaugeInvHolds(cfg: Config, start: Time, m: Machine)
    requires Complete(cfg) && Reaches(cfg, Start(start), m)
    ensures GaugeInv()(m)
  {
    hide GaugeInv, Keeps;
    GaugeInvAtStart(start);
    GaugeInvKept(cfg);
    ReachedInvariance(StepOf(cfg), GaugeInv(), Start(start), m);
  }

  /** What the event thread stores in either gauge never understates the pool, and what the cleanup
      thread stores differs from it by exactly what entered and left since its second reading. */
  lemma GaugeAfterStores(cfg: Config, start: Time, m: Machine, a: Action)
    requires Complete(cfg) && Reaches(cfg, Start(start), m) && Do(cfg, m, a).Some?
    ensures var s := Do(cfg, m, a).value.s;
            && (a.EventStep? && m.ev.Storing? ==> s.upkeep.poolSize >= |s.pool|)
            && (a.EventStep? && m.ev.Mirroring? ==> s.upkeep.poolSizeMetric >= |s.pool|)
            && (a.CleanStep? && m.cl.Recounted? ==> s.upkeep.poolSize - |s.pool| == LeftSince(s.books, m.cl.end))
            && (a.CleanStep? && m.cl.Restating? ==> s.upkeep.poolSizeMetric - |s.pool| == LeftSince(s.books, m.cl.end))
  {
    hide GaugeInv, Do, Reaches;
    GaugeInvHolds(cfg, start, m);
    if a.EventStep? {
      AfterEventStores(cfg, m, a);
    } else if a.CleanStep? {
      AfterCleanStores(cfg, m, a);
    }
  }

  lemma AfterEventStores(cfg: Config, m: Machine, a: Action)
    requires GaugeInv()(m) && a.EventStep? && Do(cfg, m, a).Some?
    ensures var s := Do(cfg, m, a).value.s;
            && (m.ev.Storing? ==> s.upkeep.poolSize >= |s.pool|)
            && (m.ev.Mirroring? ==> s.upkeep.poolSizeMetric >= |s.pool|)
  {
    var m' := Do(cfg, m, a).value;
    assert PoolLaw(m.s, m.ev);
    EventGauge(cfg, m.s, m.ev, a.ok, a.at, m'.s, m'.ev);
    EventPoolSize(cfg, m.s, m.ev, a.ok, a.at, m'.s, m'.ev);
    hide EventMove, Laws, SidecarSafety.SizesTrue, PoolLaw;
  }

  lemma AfterCleanStores(cfg: Config, m: Machine, a: Action)
    requires GaugeInv()(m) && a.CleanStep? && Do(cfg, m, a).Some?
    ensures var s := Do(cfg, m, a).value.s;
            && (m.cl.Recounted? ==> s.upkeep.poolSize - |s.pool| == LeftSince(s.books, m.cl.end))
            && (m.cl.Restating? ==> s.upkeep.poolSizeMetric - |s.pool| == LeftSince(s.books, m.cl.end))
  {
    assert PoolLaw(m.s, m.ev);
    CleanGauge(cfg, m.s, m.cl, a.at);
    if m.cl.Recounted? || m.cl.Restating? {
      CleanBooks(cfg, m.s, m.cl, a.at);
    }
    hide CleanMove, Laws, SizeCovers, Unexpired;
  }

  /** How many more transactions left the pool by events than entered it. */
  function LeftSince(books: Ledger, end: Ledger): int {
    (books.removed - end.removed) - (books.accepted - end.accepted)
  }

  lemma CleanBooks(cfg: Config, s: State, cl: CleanPc, at: Time)
    requires cl.Recounted? || cl.Restating?
    ensures CleanMove(cfg, s, cl, at).0.books == s.books
  {
  }

  // ----- disagreeing gauges ------------------------------------------------------------------------

  ghost predicate Disagree(s: State) {
    s.upkeep.poolSize != s.upkeep.poolSizeMetric
  }

  /** A section that stores a size in one gauge, with that size and what the other gauge shows. */
  function SizeStored(m: Machine, a: Action): Option<(nat, nat)> {
    if a.EventStep? && m.ev.Storing? then Some((m.ev.size, m.s.upkeep.poolSizeMetric))
    else if a.EventStep? && m.ev.Mirroring? then Some((m.ev.size, m.s.upkeep.poolSize))
    else if a.CleanStep? && m.cl.Recounted? then Some((m.cl.after, m.s.upkeep.poolSizeMetric))
    else if a.CleanStep? && m.cl.Restating? then Some((m.cl.after, m.s.upkeep.poolSize))
    else None
  }

  ghost function Disagreeing(): Flaw {
    Flaw((m: Machine) => Disagree(m.s),
         (m: Machine, a: Action) => SizeStored(m, a).Some? && SizeStored(m, a).value.0 != SizeStored(m, a).value.1,
         (m: Machine, a: Action) => SizeStored(m, a).Some? && SizeStored(m, a).value.0 == SizeStored(m, a).value.1)
  }

  lemma StepDisagrees(cfg: Config, m: Machine, a: Action)
    requires Do(cfg, m, a).Some?
    ensures var stored := SizeStored(m, a);
            Disagree(Do(cfg, m, a).value.s)
            <==> if stored.Some? then stored.value.0 != stored.value.1 else Disagree(m.s)
  {
    var m' := Do(cfg, m, a).value;
    if a.EventStep? {
      EventGauge(cfg, m.s, m.ev, a.ok, a.at, m'.s, m'.ev);
      hide EventMove;
    } else if a.CleanStep? {
      CleanGauge(cfg, m.s, m.cl, a.at);
      hide CleanMove;
    } else {
      OtherActions(cfg, m, a);
      hide Do;
    }
  }

  /** After any schedule the gauges disagree exactly when some section stored a size the other gauge
      did not show, and none has stored one it did show since. */
  lemma DisagreeExactly(cfg: Config, start: Time, acts: seq<Action>)
    requires ExecWith(StepOf(cfg), Start(start), acts).Some?
    ensures Disagree(ExecWith(StepOf(cfg), Start(start), acts).value.s)
       <==> exists k :: 0 <= k < |acts| && FlawedSince(StepOf(cfg), Disagreeing(), Start(start), acts, k)
  {
    var all := (m: Machine) => true;
    hide Do, ExecWith, FlawedSince;
    forall m, a | StepOf(cfg)(m, a).Some?
      ensures Disagreeing().bad(StepOf(cfg)(m, a).value)
         <==> if Disagreeing().bad(m) then !Disagreeing().mends(m, a) else Disagreeing().breaks(m, a)
    {
      StepDisagrees(cfg, m, a);
    }
    FlawExactly(StepOf(cfg), Disagreeing(), all, Start(start), acts);
  }

  /** One thread begins to store its size while the other is between its two stores. */
  predicate Overlaps(m: Machine, a: Action) {
    || (a.EventStep? && m.ev.Storing? && m.cl.Restating?)
    || (a.CleanStep? && m.cl.Recounted? && m.ev.Mirroring?)
  }

  /** The machine when the two pairs of stores never overlap. */
  function Apart(cfg: Config): Stepper {
    (m: Machine, a: Action) => if Overlaps(m, a) then None else Do(cfg, m, a)
  }

  /** At most one thread is between its stores, the first gauge shows what it stored there, and
      otherwise the gauges agree. */
  ghost predicate InStep(s: State, ev: EventPc, cl: CleanPc) {
    && !(ev.Mirroring? && cl.Restating?)
    && (ev.Mirroring? ==> s.upkeep.poolSize == ev.size)
    && (cl.Restating? ==> s.upkeep.poolSize == cl.after)
    && (!ev.Mirroring? && !cl.Restating? ==> !Disagree(s))
  }

  ghost function InStepInv(): Machine -> bool {
    (m: Machine) => InStep(m.s, m.ev, m.cl)
  }

  lemma EventPcs(cfg: Config, s: State, ev: EventPc, ok: bool, at: Time, s': State, ev': EventPc)
    requires EventMove(cfg, s, ev, ok, at) == Some((s', ev'))
    ensures if ev.Storing? then ev' == Mirroring(ev.tx, ev.size) else !ev'.Mirroring?
  {
  }

  lemma CleanPcs(cfg: Config, s: State, cl: CleanPc, at: Time)
    ensures var cl' := CleanMove(cfg, s, cl, at).1;
            if cl.Recounted? then cl' == Restating(cl.after, cl.end) else !cl'.Restating?
  {
  }

  lemma ApartKeepsStep(cfg: Config, m: Machine, a: Action)
    requires InStep(m.s, m.ev, m.cl) && !Overlaps(m, a) && Do(cfg, m, a).Some?
    ensures var m' := Do(cfg, m, a).value; InStep(m'.s, m'.ev, m'.cl)
  {
    var m' := Do(cfg, m, a).value;
    match a
    case EventStep(ok, at) =>
      EventGauge(cfg, m.s, m.ev, ok, at, m'.s, m'.ev);
      EventPcs(cfg, m.s, m.ev, ok, at, m'.s, m'.ev);
      hide EventMove;
    case CleanStep(at) =>
      CleanGauge(cfg, m.s, m.cl, at);
      CleanPcs(cfg, m.s, m.cl, at);
      hide CleanMove;
    case _ =>
      OtherActions(cfg, m, a);
      hide EventMove, CleanMove;
  }

  /** Gauges that disagree with neither thread between its stores are the work of overlapping stores:
      while the pairs of stores stay apart, at rest they agree. */
  lemma AgreeWhileApart(cfg: Config, start: Time, m: Machine)
    requires ReachedBy(Apart(cfg), Start(start), m) && !m.ev.Mirroring? && !m.cl.Restating?
    ensures !Disagree(m.s)
  {
    hide Do;
    forall m1, a | InStepInv()(m1) && Apart(cfg)(m1, a).Some?
      ensures InStepInv()(Apart(cfg)(m1, a).value)
    {
      ApartKeepsStep(cfg, m1, a);
    }
    ReachedInvariance(Apart(cfg), InStepInv(), Start(start), m);
  }

  /** Overlapping, they can disagree at rest: the event thread stores a size of 1 in the first gauge, a
      tick that expires the transaction stores 0 in both, and the event thread stores 1 in the second. */
  lemma DisagreeAtRest(cfg: Config, tx: Tx, originalRlp: Bytes) returns (m: Machine)
    requires cfg.classify(tx).txType == NormalTransaction && tx.binary.Some? && cfg.maxDuration >= 0
    ensures Reaches(cfg, Start(0), m) && m.ev.Idle? && m.cl.Resting?
    ensures m.s.upkeep.poolSize == 0 && m.s.upkeep.poolSizeMetric == 1 && m.s.pool == map[]
  {
    var late := cfg.maxDuration + 1;
    var m2 := TickBetweenStores(cfg, tx, originalRlp);
    hide Reaches;
    var s3 := CountKind(MirrorSize(m2.s, 1), NormalTransaction);
    LastStore(m2.s);
    var m3 := m2.(s := s3, ev := Streaming([], false), now := late);
    MirrorReaches(cfg, m2, tx, late);
    hide CountKind, MirrorSize, Do, CountProcessed;
    SidecarRefinement.FinishReaches(cfg, Start(0), m3, false, late);
    m := m3.(s := CountProcessed(s3), ev := Idle, now := late);
  }

  /** A tick that expires the transaction runs between the event thread's two stores. */
  lemma TickBetweenStores(cfg: Config, tx: Tx, originalRlp: Bytes) returns (m: Machine)
    requires tx.binary.Some? && cfg.maxDuration >= 0
    ensures Reaches(cfg, Start(0), m) && m.ev == Mirroring(tx, 1) && m.cl == Resting && m.now == cfg.maxDuration + 1
    ensures m.s.pool == map[] && m.s.upkeep.poolSize == 0
  {
    var late := cfg.maxDuration + 1;
    var m1 := FirstStored(cfg, tx, originalRlp);
    hide Reaches, Step;
    m := SidecarRefinement.TickReaches(cfg, Start(0), m1, late, late);
    TickEmpties(cfg, m1.s, late);
  }

  lemma MirrorReaches(cfg: Config, m: Machine, tx: Tx, at: Time)
    requires Reaches(cfg, Start(0), m) && m.now <= at && m.ev == Mirroring(tx, 1)
    requires cfg.classify(tx).txType == NormalTransaction
    ensures Reaches(cfg, Start(0), m.(s := CountKind(MirrorSize(m.s, 1), NormalTransaction),
                                      ev := Streaming([], false), now := at))
  {
    hide Reaches, CountKind, MirrorSize, Do;
    SidecarRefinement.EventAdvance(cfg, Start(0), m, false, at, CountKind(MirrorSize(m.s, 1), NormalTransaction),
                                   Streaming([], false));
  }

  lemma LastStore(s: State)
    ensures var t := CountProcessed(CountKind(MirrorSize(s, 1), NormalTransaction));
            t.upkeep.poolSize == s.upkeep.poolSize && t.upkeep.poolSizeMetric == 1 && t.pool == s.pool
  {
  }

  lemma TickEmpties(cfg: Config, s: State, at: Time)
    requires forall h :: h in s.pool ==> at - s.pool[h].receivedAt > cfg.maxDuration
    ensures var t := Step(cfg, s, Tick(at, at)); t.pool == map[] && t.upkeep.poolSize == 0
  {
    var t := CleanPool(s, at, cfg.maxDuration);
    assert t.pool == map[];
    hide CleanPool, HandleIncoming, Receive, Retire, RecordEcho, RecordArrival, Fresh;
  }

  lemma FirstAdded(cfg: Config, s: State, tx: Tx, txBytes: Bytes, originalRlp: Bytes)
    requires s.pool == map[]
    ensures var t := AddTyped(s, tx, txBytes, originalRlp, cfg.classify(tx), 0);
            |t.pool| == 1 && forall h :: h in t.pool ==> t.pool[h].receivedAt == 0
  {
    hide AddToPool, SetType, SetBid;
    AddTypedIs(s, tx, txBytes, originalRlp, cfg.classify(tx), 0);
    KeysPlus(s.pool, tx.hash, Pooled(tx, txBytes, originalRlp, 0, "txpool", tx.hash, cfg.classify(tx).txType,
                                     cfg.classify(tx).bid));
  }

  /** From the start: one transaction is pooled at time 0, and its size is in the first gauge only. */
  lemma FirstStored(cfg: Config, tx: Tx, originalRlp: Bytes) returns (m: Machine)
    requires tx.binary.Some?
    ensures Reaches(cfg, Start(0), m) && m.ev == Mirroring(tx, 1) && m.cl == Resting && m.now == 0
    ensures forall h :: h in m.s.pool ==> m.s.pool[h].receivedAt == 0
  {
    var m0 := Start(0);
    var txBytes := tx.binary.value;
    var m2 := SidecarRefinement.ArrivesNew(cfg, tx, originalRlp);
    hide Reaches;
    SidecarRefinement.AddReaches(cfg, m0, m2, tx, txBytes, originalRlp, 0);
    var t := AddTyped(m2.s, tx, txBytes, originalRlp, cfg.classify(tx), 0);
    hide AddToPool, SetType, SetBid, Do;
    FirstAdded(cfg, m2.s, tx, txBytes, originalRlp);
    var m3 := m2.(s := t, ev := Sizing(tx), now := 0);
    SidecarRefinement.EventAdvance(cfg, m0, m3, false, 0, t, Storing(tx, 1));
    var m4 := m3.(s := t, ev := Storing(tx, 1), now := 0);
    SidecarRefinement.EventAdvance(cfg, m0, m4, false, 0, StoreSize(t, 1), Mirroring(tx, 1));
    m := m4.(s := StoreSize(t, 1), ev := Mirroring(tx, 1), now := 0);
  }
}
