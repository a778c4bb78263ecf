/** Per-record safety of the interleaved sidecar: coherence, provenance, residency, and what the
    expiry counter measures. */
module SidecarSafety {
  import opened Prelude
  import opened Filter
  import opened Pool
  import opened SidecarModel
  import opened SidecarThreads
  import opened SidecarLaws

  // ----- coherence -----------------------------------------------------------------------

  /** The type, or the bid data, of the record in hand may still be the initial one. */
  predicate TypePending(ev: EventPc, h: Hash) {
    ev.Typing? && ev.tx.hash == h
  }

  predicate BidPending(ev: EventPc, h: Hash) {
    (ev.Typing? || ev.Bidding?) && ev.tx.hash == h
  }

  ghost predicate RecordCoherent(cfg: Config, h: Hash, r: Pooled, ev: EventPc) {
    && r.hash == h && r.tx.hash == h && r.tx.binary == Some(r.txBytes)
    && (TypePending(ev, h) || r.txType == cfg.classify(r.tx).txType)
    && (BidPending(ev, h) || r.bidData == cfg.classify(r.tx).bid)
  }

  ghost predicate Coherent(cfg: Config, pool: map<Hash, Pooled>, ev: EventPc) {
    && (forall h :: h in pool ==> RecordCoherent(cfg, h, pool[h], ev))
    && (ev.Adding? ==> ev.tx.binary == Some(ev.txBytes))
    && ((ev.Typing? || ev.Bidding?) && ev.tx.hash in pool ==> pool[ev.tx.hash].tx == ev.tx)
  }

  /** What a critical section of the event thread does to the pool. */
  function PoolNext(cfg: Config, pool: map<Hash, Pooled>, ev: EventPc, at: Time): map<Hash, Pooled> {
    match ev
    case Adding(tx, txBytes, originalRlp) =>
      if tx.hash in pool then pool else pool[tx.hash := NewRecord(tx, txBytes, originalRlp, at)]
    case Typing(tx) =>
      if tx.hash in pool then pool[tx.hash := pool[tx.hash].(txType := cfg.classify(tx).txType)] else pool
    case Bidding(tx) =>
      if tx.hash in pool then pool[tx.hash := pool[tx.hash].(bidData := cfg.classify(tx).bid)] else pool
    case Removing(h) => pool - {h}
    case _ => pool
  }

  /** Which critical sections follow while a record is being made. */
  predicate PcNext(ev: EventPc, ev': EventPc) {
    match ev
    case Arrived(tx, originalRlp) =>
      ev'.Adding? ==> ev'.tx == tx && tx.binary == Some(ev'.txBytes) && ev'.originalRlp == originalRlp
    case Adding(tx, _, _) => ev' == Typing(tx)
    case Typing(tx) => ev' == Bidding(tx)
    case _ => !ev'.Adding? && !ev'.Typing? && !ev'.Bidding?
  }

  function LogNext(log: seq<Attempt>, ev: EventPc, ok: bool): seq<Attempt> {
    match ev
    case Sending(job, originalRlp, _, _) => log + [Attempt(job.hash, originalRlp, job.source, ok)]
    case _ => log
  }

  function TrackedNext(tracked: map<Hash, Time>, ev: EventPc, at: Time): map<Hash, Time> {
    match ev
    case EchoCheck(h) => tracked - {h}
    case Tracking(h, _, _) => tracked[h := at]
    case Untracking(h, _) => tracked - {h}
    case _ => tracked
  }

  lemma PoolEffect(cfg: Config, s: State, ev: EventPc, ok: bool, at: Time)
    ensures RunSection(cfg, s, ev, ok, at).pool == PoolNext(cfg, s.pool, ev, at)
  {
  }

  lemma PcEffect(cfg: Config, s: State, ev: EventPc, ok: bool)
    ensures var ev' := NextPc(cfg, s, ev, ok);
            && PcNext(ev, ev') && (ev.Arrived? || (!ev'.Arrived? && !ev'.Adding?))
            && (ev'.Typing? ==> ev.Adding?) && (ev'.Bidding? ==> ev.Typing?)
  {
  }

  lemma EventEffect(cfg: Config, s: State, ev: EventPc, ok: bool, at: Time, s': State, ev': EventPc)
    requires EventMove(cfg, s, ev, ok, at) == Some((s', ev'))
    ensures s'.pool == PoolNext(cfg, s.pool, ev, at)
    ensures PcNext(ev, ev') && (ev.Arrived? || (!ev'.Arrived? && !ev'.Adding?))
    ensures ev'.Typing? ==> ev.Adding?
    ensures ev'.Bidding? ==> ev.Typing?
  {
    hide RunSection, NextPc;
    PoolEffect(cfg, s, ev, ok, at);
    PcEffect(cfg, s, ev, ok);
  }

  lemma TrackedOnEntering(cfg: Config, s: State, ev: EventPc, ok: bool, at: Time)
    requires Entering(ev)
    ensures RunSection(cfg, s, ev, ok, at).tracked == TrackedNext(s.tracked, ev, at)
  {
  }

  lemma TrackedOnLeaving(cfg: Config, s: State, ev: EventPc, ok: bool, at: Time)
    requires !Entering(ev)
    ensures RunSection(cfg, s, ev, ok, at).tracked == TrackedNext(s.tracked, ev, at)
  {
  }

  lemma TrackedEffect(cfg: Config, s: State, ev: EventPc, ok: bool, at: Time, s': State, ev': EventPc)
    requires EventMove(cfg, s, ev, ok, at) == Some((s', ev'))
    ensures s'.tracked == TrackedNext(s.tracked, ev, at)
  {
    hide NextPc, RunSection, TrackedNext, Entering;
    if Entering(ev) {
      TrackedOnEntering(cfg, s, ev, ok, at);
    } else {
      TrackedOnLeaving(cfg, s, ev, ok, at);
    }
  }

  lemma SendEffect(cfg: Config, s: State, ev: EventPc, ok: bool, at: Time, s': State, ev': EventPc)
    requires EventMove(cfg, s, ev, ok, at) == Some((s', ev'))
    ensures s'.log == LogNext(s.log, ev, ok)
    ensures ev'.Sending? ==>
              ev'.originalRlp != [] && ev'.job.hash in s.pool && s.pool[ev'.job.hash].originalRlp == ev'.originalRlp
  {
    LogEffect(cfg, s, ev, ok, at);
    hide RunSection;
  }

  lemma LogEffect(cfg: Config, s: State, ev: EventPc, ok: bool, at: Time)
    ensures RunSection(cfg, s, ev, ok, at).log == LogNext(s.log, ev, ok)
  {
  }

  // What the sections of the cleanup thread do to the two maps and to the log.

  lemma CleanPoolMaps(s: State, now: Time, maxDuration: Time)
    ensures var t := CleanPool(s, now, maxDuration);
            t.pool == Unexpired(s.pool, now, maxDuration) && t.tracked == s.tracked && t.log == s.log
  {
    hide Unexpired;
  }

  lemma CleanTrackedMaps(s: State, now: Time, maxDuration: Time)
    ensures var t := CleanTracked(s, now, maxDuration);
            t.pool == s.pool && t.tracked == Fresh(s.tracked, now, maxDuration) && t.log == s.log
  {
    hide Fresh;
  }

  lemma GaugeMaps(s: State, before: nat, after: nat)
    ensures forall t :: t == StoreSize(CountExpired(s, before, after), after) || t == MirrorSize(s, after)
              ==> t.pool == s.pool && t.tracked == s.tracked && t.log == s.log
  {
  }

  lemma CleanMaps(cfg: Config, s: State, cl: CleanPc, at: Time)
    ensures var s' := CleanMove(cfg, s, cl, at).0;
            && s'.pool == (if cl.Counted? then Unexpired(s.pool, at, cfg.maxDuration) else s.pool)
            && s'.tracked == (if cl.Sweeping? then Fresh(s.tracked, at, cfg.maxDuration) else s.tracked)
            && s'.log == s.log
  {
    hide Unexpired, Fresh, CleanPool, CleanTracked, StoreSize, MirrorSize, CountExpired;
    match cl
    case Counted(_, _) => CleanPoolMaps(s, at, cfg.maxDuration);
    case Recounted(before, after, _, _) => GaugeMaps(s, before, after);
    case Restating(after, _) => GaugeMaps(s, 0, after);
    case Sweeping => CleanTrackedMaps(s, at, cfg.maxDuration);
    case _ =>
  }

  lemma PoolKeepsCoherence(cfg: Config, pool: map<Hash, Pooled>, ev: EventPc, at: Time, ev': EventPc)
    requires Coherent(cfg, pool, ev) && PcNext(ev, ev')
    requires ev.Adding? ==> ev.tx.hash !in pool
    requires (ev'.Adding? ==> ev.Arrived?) && (ev'.Typing? ==> ev.Adding?) && (ev'.Bidding? ==> ev.Typing?)
    ensures Coherent(cfg, PoolNext(cfg, pool, ev, at), ev')
  {
    var pool' := PoolNext(cfg, pool, ev, at);
    forall h | h in pool'
      ensures RecordCoherent(cfg, h, pool'[h], ev')
    {
      if h in pool {
        assert RecordCoherent(cfg, h, pool[h], ev);
      }
      RecordNext(cfg, pool, ev, at, ev', h);
    }
    hide RecordCoherent;
  }

  lemma RecordNext(cfg: Config, pool: map<Hash, Pooled>, ev: EventPc, at: Time, ev': EventPc, h: Hash)
    requires h in PoolNext(cfg, pool, ev, at) && PcNext(ev, ev')
    requires h in pool ==> RecordCoherent(cfg, h, pool[h], ev)
    requires ev.Adding? ==> ev.tx.hash !in pool && ev.tx.binary == Some(ev.txBytes)
    requires (ev.Typing? || ev.Bidding?) && ev.tx.hash in pool ==> pool[ev.tx.hash].tx == ev.tx
    requires (ev'.Adding? ==> ev.Arrived?) && (ev'.Typing? ==> ev.Adding?) && (ev'.Bidding? ==> ev.Typing?)
    ensures RecordCoherent(cfg, h, PoolNext(cfg, pool, ev, at)[h], ev')
  {
  }

  lemma CleanKeepsCoherence(cfg: Config, pool: map<Hash, Pooled>, ev: EventPc, now: Time)
    requires Coherent(cfg, pool, ev)
    ensures Coherent(cfg, Unexpired(pool, now, cfg.maxDuration), ev)
  {
  }

  ghost function CoherentInv(cfg: Config): Machine -> bool {
    (m: Machine) => Laws(m.s, m.ev) && Coherent(cfg, m.s.pool, m.ev)
  }

  lemma StepKeepsCoherence(cfg: Config, m: Machine, a: Action)
    requires Coherent(cfg, m.s.pool, m.ev) && Do(cfg, m, a).Some?
    requires m.ev.Adding? ==> m.ev.tx.hash !in m.s.pool
    ensures Coherent(cfg, Do(cfg, m, a).value.s.pool, Do(cfg, m, a).value.ev)
  {
    hide EventMove, Coherent, Unexpired;
    var m' := Do(cfg, m, a).value;
    match a
    case BeginInsert(_, _, _, _) | BeginRetire(_, _, _) => BeginKeepsCoherence(cfg, m.s.pool, m.ev, m'.ev);
    case EventStep(ok, at) =>
      EventEffect(cfg, m.s, m.ev, ok, at, m'.s, m'.ev);
      PoolKeepsCoherence(cfg, m.s.pool, m.ev, at, m'.ev);
    case CleanStep(at) => CleanKeepsCoherence(cfg, m.s.pool, m.ev, at);
    case EchoStep(_, _) =>
    case ArrivalStep(_, _) =>
  }

  lemma BeginKeepsCoherence(cfg: Config, pool: map<Hash, Pooled>, ev: EventPc, ev': EventPc)
    requires Coherent(cfg, pool, ev) && ev.Idle?
    requires !ev'.Adding? && !ev'.Typing? && !ev'.Bidding?
    ensures Coherent(cfg, pool, ev')
  {
    forall h | h in pool
      ensures RecordCoherent(cfg, h, pool[h], ev')
    {
      assert RecordCoherent(cfg, h, pool[h], ev);
    }
  }

  lemma InitCoherent(cfg: Config, pool: map<Hash, Pooled>, ev: EventPc)
    requires pool == map[] && ev.Idle?
    ensures Coherent(cfg, pool, ev)
  {
  }

  lemma CoherenceKept(cfg: Config)
    requires Complete(cfg)
    ensures Keeps(StepOf(cfg), CoherentInv(cfg))
  {
    forall m, a | CoherentInv(cfg)(m) && StepOf(cfg)(m, a).Some?
      ensures CoherentInv(cfg)(StepOf(cfg)(m, a).value)
    {
      assert PoolLaw(m.s, m.ev);
      hide Laws, Do, Coherent;
      StepKeepsLaws(cfg, m, a);
      StepKeepsCoherence(cfg, m, a);
    }
  }

  /** Between events every key maps to the record of its own transaction, typed and with bid
      data exactly as the classifier says, whatever cleanups ran in between. */
  lemma PoolCoherence(cfg: Config, start: Time, m: Machine, h: Hash)
    requires Complete(cfg) && Reaches(cfg, Start(start), m)
    requires m.ev.Idle? && h in m.s.pool
    ensures var r := m.s.pool[h];
            && r.hash == r.tx.hash == h && r.tx.binary == Some(r.txBytes)
            && r.txType == cfg.classify(r.tx).txType && r.bidData == cfg.classify(r.tx).bid
            && CompleteBid(Classification(r.txType, r.bidData))
            && ((forall p :: p in m.inserts ==> p.1 != []) ==> r.originalRlp != [])
  {
    BytesComeFromInserts(cfg, start, m);
    CoherenceHolds(cfg, start, m);
    assert RecordCoherent(cfg, h, m.s.pool[h], m.ev);
    assert CompleteBid(cfg.classify(m.s.pool[h].tx));
  }

  lemma CoherenceHolds(cfg: Config, start: Time, m: Machine)
    requires Complete(cfg) && Reaches(cfg, Start(start), m)
    ensures Coherent(cfg, m.s.pool, m.ev)
  {
    hide Laws, Do, Coherent;
    CoherenceKept(cfg);
    InitLaws(Init(), Idle);
    InitCoherent(cfg, Init().pool, Idle);
    ReachedInvariance(StepOf(cfg), CoherentInv(cfg), Start(start), m);
  }

  // ----- provenance ---------------------------------------------------------------------------

  /** Raw bytes held anywhere are those of some Insert of that transaction. */
  ghost predicate FromInserts(s: State, ev: EventPc, inserts: set<(Hash, Bytes)>) {
    && (forall h :: h in s.pool ==> (h, s.pool[h].originalRlp) in inserts)
    && (forall a :: a in s.log ==> (a.hash, a.originalRlp) in inserts && a.originalRlp != [])
    && (ev.Arrived? || ev.Adding? ==> (ev.tx.hash, ev.originalRlp) in inserts)
    && (ev.Sending? ==> (ev.job.hash, ev.originalRlp) in inserts && ev.originalRlp != [])
  }

  lemma PoolKeepsProvenance(cfg: Config, pool: map<Hash, Pooled>, ev: EventPc, at: Time, inserts: set<(Hash, Bytes)>)
    requires forall h :: h in pool ==> (h, pool[h].originalRlp) in inserts
    requires ev.Adding? ==> (ev.tx.hash, ev.originalRlp) in inserts
    ensures var pool' := PoolNext(cfg, pool, ev, at);
            forall h :: h in pool' ==> (h, pool'[h].originalRlp) in inserts
  {
  }

  lemma EventKeepsProvenance(cfg: Config, s: State, ev: EventPc, ok: bool, at: Time, s': State, ev': EventPc,
                             inserts: set<(Hash, Bytes)>)
    requires FromInserts(s, ev, inserts) && EventMove(cfg, s, ev, ok, at) == Some((s', ev'))
    ensures FromInserts(s', ev', inserts)
  {
    EventEffect(cfg, s, ev, ok, at, s', ev');
    SendEffect(cfg, s, ev, ok, at, s', ev');
    PoolKeepsProvenance(cfg, s.pool, ev, at, inserts);
    hide EventMove, PoolNext;
  }

  ghost function ProvenanceInv(): Machine -> bool {
    (m: Machine) => FromInserts(m.s, m.ev, m.inserts)
  }

  lemma BeginKeepsProvenance(cfg: Config, m: Machine, a: Action)
    requires FromInserts(m.s, m.ev, m.inserts) && (a.BeginInsert? || a.BeginRetire?) && Do(cfg, m, a).Some?
    ensures var m' := Do(cfg, m, a).value; FromInserts(m'.s, m'.ev, m'.inserts)
  {
    hide EventMove, CleanMove;
  }

  lemma CleanKeepsProvenance(cfg: Config, s: State, ev: EventPc, cl: CleanPc, at: Time, inserts: set<(Hash, Bytes)>)
    requires FromInserts(s, ev, inserts)
    ensures FromInserts(CleanMove(cfg, s, cl, at).0, ev, inserts)
  {
    CleanMaps(cfg, s, cl, at);
    hide CleanMove;
  }

  lemma RecordKeepsProvenance(s: State, ev: EventPc, ms: real, inserts: set<(Hash, Bytes)>)
    requires FromInserts(s, ev, inserts)
    ensures FromInserts(RecordEcho(s, ms), ev, inserts) && FromInserts(RecordArrival(s, ms), ev, inserts)
  {
  }

  lemma StepKeepsProvenance(cfg: Config, m: Machine, a: Action)
    requires FromInserts(m.s, m.ev, m.inserts) && Do(cfg, m, a).Some?
    ensures var m' := Do(cfg, m, a).value; FromInserts(m'.s, m'.ev, m'.inserts)
  {
    hide EventMove, CleanMove, FromInserts, RecordEcho, RecordArrival, Receive, NoteRetirement;
    var m' := Do(cfg, m, a).value;
    match a
    case BeginInsert(_, _, _, _) | BeginRetire(_, _, _) => BeginKeepsProvenance(cfg, m, a);
    case EventStep(ok, at) => EventKeepsProvenance(cfg, m.s, m.ev, ok, at, m'.s, m'.ev, m.inserts);
    case CleanStep(at) => CleanKeepsProvenance(cfg, m.s, m.ev, m.cl, at, m.inserts);
    case EchoStep(ms, _) => RecordKeepsProvenance(m.s, m.ev, ms, m.inserts);
    case ArrivalStep(ms, _) => RecordKeepsProvenance(m.s, m.ev, ms, m.inserts);
  }

  lemma ProvenanceKept(cfg: Config)
    ensures Keeps(StepOf(cfg), ProvenanceInv())
  {
    forall m, a | ProvenanceInv()(m) && StepOf(cfg)(m, a).Some?
      ensures ProvenanceInv()(StepOf(cfg)(m, a).value)
    {
      hide Do, FromInserts;
      StepKeepsProvenance(cfg, m, a);
    }
  }

  lemma InitProvenance(s: State, ev: EventPc)
    requires s == Init() && ev.Idle?
    ensures FromInserts(s, ev, {})
  {
  }

  /** In every state of every interleaving the pool and every send hold, byte for byte, the raw
      bytes of an Insert of the same transaction, and no send is empty. */
  lemma BytesComeFromInserts(cfg: Config, start: Time, m: Machine)
    requires Reaches(cfg, Start(start), m)
    ensures forall h :: h in m.s.pool ==> (h, m.s.pool[h].originalRlp) in m.inserts
    ensures forall a :: a in m.s.log ==> (a.hash, a.originalRlp) in m.inserts && a.originalRlp != []
  {
    assert FromInserts(m.s, m.ev, m.inserts) by {
      hide Do, FromInserts;
      ProvenanceKept(cfg);
      InitProvenance(Init(), Idle);
      ReachedInvariance(StepOf(cfg), ProvenanceInv(), Start(start), m);
    }
  }

  // ----- residency ------------------------------------------------------------------------------

  /** Nothing held is from the future, or was already too old at the last cleanup. */
  ghost predicate Recent<T>(held: map<Hash, T>, since: T -> Time, cleanedAt: Time, now: Time, maxDuration: Time) {
    cleanedAt <= now && forall h :: h in held ==> cleanedAt - maxDuration <= since(held[h]) <= now
  }

  const RECEIVED: Pooled -> Time := (r: Pooled) => r.receivedAt
  const SENT: Time -> Time := (t: Time) => t

  ghost predicate AllRecent(m: Machine, maxDuration: Time) {
    && Recent(m.s.pool, RECEIVED, m.cleanedAt, m.now, maxDuration)
    && Recent(m.s.tracked, SENT, m.sweptAt, m.now, maxDuration)
  }

  ghost function RecentInv(cfg: Config): Machine -> bool {
    (m: Machine) => AllRecent(m, cfg.maxDuration)
  }

  lemma EventKeepsRecent(cfg: Config, pool: map<Hash, Pooled>, tracked: map<Hash, Time>, ev: EventPc, cleanedAt: Time,
                         sweptAt: Time, now: Time, at: Time)
    requires cfg.maxDuration >= 0 && now <= at
    requires Recent(pool, RECEIVED, cleanedAt, now, cfg.maxDuration)
    requires Recent(tracked, SENT, sweptAt, now, cfg.maxDuration)
    ensures Recent(PoolNext(cfg, pool, ev, at), RECEIVED, cleanedAt, at, cfg.maxDuration)
    ensures Recent(TrackedNext(tracked, ev, at), SENT, sweptAt, at, cfg.maxDuration)
  {
  }

  lemma CleanKeepsRecent(cfg: Config, m: Machine, at: Time)
    requires cfg.maxDuration >= 0 && AllRecent(m, cfg.maxDuration) && Do(cfg, m, CleanStep(at)).Some?
    ensures AllRecent(Do(cfg, m, CleanStep(at)).value, cfg.maxDuration)
  {
    hide EventMove, Unexpired, Fresh, Recent;
    RecentLater(m.s.pool, RECEIVED, m.cleanedAt, m.now, at, cfg.maxDuration);
    RecentLater(m.s.tracked, SENT, m.sweptAt, m.now, at, cfg.maxDuration);
    UnexpiredRecent(m.s.pool, m.cleanedAt, m.now, at, cfg.maxDuration);
    FreshRecent(m.s.tracked, m.sweptAt, m.now, at, cfg.maxDuration);
  }

  lemma RecentLater<T>(held: map<Hash, T>, since: T -> Time, cleanedAt: Time, now: Time, at: Time, maxDuration: Time)
    requires Recent(held, since, cleanedAt, now, maxDuration) && now <= at
    ensures Recent(held, since, cleanedAt, at, maxDuration)
  {
  }

  lemma UnexpiredRecent(pool: map<Hash, Pooled>, cleanedAt: Time, now: Time, at: Time, maxDuration: Time)
    requires Recent(pool, RECEIVED, cleanedAt, now, maxDuration) && now <= at
    ensures Recent(Unexpired(pool, at, maxDuration), RECEIVED, at, at, maxDuration)
  {
  }

  lemma FreshRecent(tracked: map<Hash, Time>, sweptAt: Time, now: Time, at: Time, maxDuration: Time)
    requires Recent(tracked, SENT, sweptAt, now, maxDuration) && now <= at
    ensures Recent(Fresh(tracked, at, maxDuration), SENT, at, at, maxDuration)
  {
  }

  lemma StepKeepsRecent(cfg: Config, m: Machine, a: Action)
    requires cfg.maxDuration >= 0 && AllRecent(m, cfg.maxDuration) && Do(cfg, m, a).Some?
    ensures AllRecent(Do(cfg, m, a).value, cfg.maxDuration)
  {
    var m' := Do(cfg, m, a).value;
    hide EventMove, CleanMove;
    match a
    case EventStep(ok, at) =>
      EventEffect(cfg, m.s, m.ev, ok, at, m'.s, m'.ev);
      TrackedEffect(cfg, m.s, m.ev, ok, at, m'.s, m'.ev);
      EventKeepsRecent(cfg, m.s.pool, m.s.tracked, m.ev, m.cleanedAt, m.sweptAt, m.now, at);
    case CleanStep(at) => CleanKeepsRecent(cfg, m, at);
    case _ =>
  }

  lemma RecentKept(cfg: Config)
    requires cfg.maxDuration >= 0
    ensures Keeps(StepOf(cfg), RecentInv(cfg))
  {
    forall m, a | RecentInv(cfg)(m) && StepOf(cfg)(m, a).Some?
      ensures RecentInv(cfg)(StepOf(cfg)(m, a).value)
    {
      hide Do, AllRecent;
      StepKeepsRecent(cfg, m, a);
    }
  }

  lemma InitRecent(m: Machine, maxDuration: Time)
    requires m.s == Init() && m.cleanedAt == m.sweptAt == m.now
    ensures AllRecent(m, maxDuration)
  {
  }

  /** Whatever events are lost, while cleanups are at most a quarter of the maximum age apart
      nothing pooled or tracked is older than the maximum age plus that quarter. */
  lemma BoundedResidency(cfg: Config, start: Time, m: Machine)
    requires cfg.maxDuration >= 0 && Reaches(cfg, Start(start), m)
    requires m.now - m.cleanedAt <= cfg.maxDuration / 4 && m.now - m.sweptAt <= cfg.maxDuration / 4
    ensures forall h :: h in m.s.pool ==> m.now - m.s.pool[h].receivedAt <= cfg.maxDuration + cfg.maxDuration / 4
    ensures forall h :: h in m.s.tracked ==> m.now - m.s.tracked[h] <= cfg.maxDuration + cfg.maxDuration / 4
  {
    assert AllRecent(m, cfg.maxDuration) by {
      hide Do, AllRecent;
      RecentKept(cfg);
      InitRecent(Start(start), cfg.maxDuration);
      ReachedInvariance(StepOf(cfg), RecentInv(cfg), Start(start), m);
    }
  }

  /** A cleanup step removes exactly the entries older than the maximum age and touches no other;
      the sizing and gauge steps remove nothing. */
  lemma CleanupIsExact(cfg: Config, m: Machine, at: Time)
    requires Do(cfg, m, CleanStep(at)).Some?
    ensures var m' := Do(cfg, m, CleanStep(at)).value;
            && (forall h :: h in m.s.pool ==>
                  (h !in m'.s.pool <==> m.cl.Counted? && at - m.s.pool[h].receivedAt > cfg.maxDuration))
            && (forall h :: h in m.s.tracked ==>
                  (h !in m'.s.tracked <==> m.cl.Sweeping? && at - m.s.tracked[h] > cfg.maxDuration))
            && (forall h :: h in m'.s.pool ==> h in m.s.pool && m'.s.pool[h] == m.s.pool[h])
            && (forall h :: h in m'.s.tracked ==> h in m.s.tracked && m'.s.tracked[h] == m.s.tracked[h])
  {
    CleanMaps(cfg, m.s, m.cl, at);
    hide CleanMove, EventMove;
  }

  // ----- the expiry counter ----------------------------------------------------------------------

  function InPool(books: Ledger): int {
    books.accepted - books.removed - books.expired
  }

  /** The sizes the cleanup thread holds are the pool sizes of the moments it took them, and the
      books only grew since. */
  ghost predicate SizesTrue(cl: CleanPc, expired: nat) {
    match cl
    case Counted(before, start) => before == InPool(start) && start.expired <= expired
    case Cleaned(before, start) => before == InPool(start) && start.expired <= expired
    case Recounted(before, after, start, end) =>
      before == InPool(start) && after == InPool(end) && start.expired <= end.expired == expired
    case Restating(after, end) => after == InPool(end) && end.expired == expired
    case _ => true
  }

  ghost function SizesInv(): Machine -> bool {
    (m: Machine) => Laws(m.s, m.ev) && SizesTrue(m.cl, m.s.books.expired)
  }

  lemma StepKeepsSizes(cfg: Config, m: Machine, a: Action)
    requires PoolLaw(m.s, m.ev) && SizesTrue(m.cl, m.s.books.expired) && Do(cfg, m, a).Some?
    ensures SizesTrue(Do(cfg, m, a).value.cl, Do(cfg, m, a).value.s.books.expired)
  {
    match a
    case EventStep(ok, at) =>
      var m' := Do(cfg, m, a).value;
      ExpiredUnmoved(cfg, m.s, m.ev, ok, at, m'.s, m'.ev);
      hide EventMove;
    case _ => hide EventMove;
  }

  lemma ExpiredUnmoved(cfg: Config, s: State, ev: EventPc, ok: bool, at: Time, s': State, ev': EventPc)
    requires EventMove(cfg, s, ev, ok, at) == Some((s', ev'))
    ensures s'.books.expired == s.books.expired
  {
  }

  lemma SizesKept(cfg: Config)
    requires Complete(cfg)
    ensures Keeps(StepOf(cfg), SizesInv())
  {
    forall m, a | SizesInv()(m) && StepOf(cfg)(m, a).Some?
      ensures SizesInv()(StepOf(cfg)(m, a).value)
    {
      assert PoolLaw(m.s, m.ev);
      hide Laws, Do, SizesTrue;
      StepKeepsSizes(cfg, m, a);
      StepKeepsLaws(cfg, m, a);
    }
  }

  lemma InitSizes(cl: CleanPc, expired: nat)
    requires cl.Resting?
    ensures SizesTrue(cl, expired)
  {
  }

  lemma SizesHold(cfg: Config, start: Time, m: Machine)
    requires Complete(cfg) && Reaches(cfg, Start(start), m)
    ensures SizesTrue(m.cl, m.s.books.expired)
  {
    hide Laws, Do, SizesTrue;
    SizesKept(cfg);
    InitLaws(Init(), Idle);
    InitSizes(Resting, 0);
    ReachedInvariance(StepOf(cfg), SizesInv(), Start(start), m);
  }

  /** What a tick adds to the expiry counter is the number of transactions that expired during
      it exactly when the same number of transactions entered and left the pool by events
      between its two size readings, or nothing expired and no more left than entered. */
  lemma ExpiryCounterExact(cfg: Config, start: Time, m: Machine, at: Time)
    requires Complete(cfg) && Reaches(cfg, Start(start), m)
    requires m.cl.Recounted? && Do(cfg, m, CleanStep(at)).Some?
    ensures var expired := m.cl.end.expired - m.cl.start.expired;
            var entered := m.cl.end.accepted - m.cl.start.accepted;
            var left := m.cl.end.removed - m.cl.start.removed;
            Do(cfg, m, CleanStep(at)).value.s.upkeep.txExpired - m.s.upkeep.txExpired == expired
            <==> entered == left || (expired == 0 && left <= entered)
  {
    SizesHold(cfg, start, m);
  }

  // ----- measurements ----------------------------------------------------------------------------

  /** No measurement, pending or recorded, is negative, and the last commit is not in the future. */
  ghost predicate MeasuresSane(measures: Measures, lastCommitTime: Time, now: Time) {
    && lastCommitTime <= now
    && (forall ms :: ms in measures.echoes ==> ms >= 0.0)
    && (forall ms :: ms in measures.roundTrips ==> ms >= 0.0)
    && (forall ms :: ms in measures.arrivals ==> ms >= 0.0)
    && (forall ms :: ms in measures.arrivalTimes ==> ms >= 0.0)
  }

  ghost function MeasuresInv(cfg: Config): Machine -> bool {
    (m: Machine) => AllRecent(m, cfg.maxDuration) && MeasuresSane(m.s.measures, m.s.retired.lastCommitTime, m.now)
  }

  lemma EventMeasures(cfg: Config, s: State, ev: EventPc, ok: bool, at: Time, s': State, ev': EventPc)
    requires EventMove(cfg, s, ev, ok, at) == Some((s', ev'))
    ensures s'.retired.lastCommitTime == s.retired.lastCommitTime
    ensures s'.measures == s.measures
         || (ev.EchoCheck? && ev.hash in s.tracked
             && s'.measures == s.measures.(echoes := s.measures.echoes + multiset{Millis(s.tracked[ev.hash], at)}))
  {
  }

  lemma CleanMeasures(cfg: Config, s: State, cl: CleanPc, at: Time)
    ensures var s' := CleanMove(cfg, s, cl, at).0; s'.measures == s.measures && s'.retired == s.retired
  {
  }

  lemma EchoSane(x: Measures, sentAt: Time, at: Time, lastCommitTime: Time, now: Time)
    requires MeasuresSane(x, lastCommitTime, now) && sentAt <= now <= at
    ensures MeasuresSane(x, lastCommitTime, at)
    ensures MeasuresSane(x.(echoes := x.echoes + multiset{Millis(sentAt, at)}), lastCommitTime, at)
  {
  }

  lemma ReceiveSane(s: State, arrivedAt: Time, at: Time, now: Time)
    requires MeasuresSane(s.measures, s.retired.lastCommitTime, now) && now <= arrivedAt <= at
    ensures var s' := Receive(s, arrivedAt, at); MeasuresSane(s'.measures, s'.retired.lastCommitTime, at)
  {
  }

  lemma EchoRecordSane(s: State, ms: real, now: Time, at: Time)
    requires MeasuresSane(s.measures, s.retired.lastCommitTime, now) && now <= at
    ensures MeasuresSane(RecordEcho(s, ms).measures, RecordEcho(s, ms).retired.lastCommitTime, at)
  {
  }

  lemma ArrivalRecordSane(s: State, ms: real, now: Time, at: Time)
    requires MeasuresSane(s.measures, s.retired.lastCommitTime, now) && now <= at
    ensures MeasuresSane(RecordArrival(s, ms).measures, RecordArrival(s, ms).retired.lastCommitTime, at)
  {
  }

  lemma NoteSane(s: State, kind: Retirement, now: Time, at: Time)
    requires MeasuresSane(s.measures, s.retired.lastCommitTime, now) && now <= at
    ensures var s' := NoteRetirement(s, kind, at); MeasuresSane(s'.measures, s'.retired.lastCommitTime, at)
  {
  }

  lemma StepKeepsMeasures(cfg: Config, m: Machine, a: Action)
    requires Recent(m.s.tracked, SENT, m.sweptAt, m.now, cfg.maxDuration) && Do(cfg, m, a).Some?
    requires MeasuresSane(m.s.measures, m.s.retired.lastCommitTime, m.now)
    ensures var m' := Do(cfg, m, a).value; MeasuresSane(m'.s.measures, m'.s.retired.lastCommitTime, m'.now)
  {
    var m' := Do(cfg, m, a).value;
    hide EventMove, CleanMove, MeasuresSane, Receive, NoteRetirement, RecordEcho, RecordArrival;
    match a
    case BeginInsert(_, _, arrivedAt, at) => ReceiveSane(m.s, arrivedAt, at, m.now);
    case BeginRetire(_, kind, at) => NoteSane(m.s, kind, m.now, at);
    case EventStep(ok, at) =>
      EventMeasures(cfg, m.s, m.ev, ok, at, m'.s, m'.ev);
      EchoSane(m.s.measures, m.now, at, m.s.retired.lastCommitTime, m.now);
      if m.ev.EchoCheck? && m.ev.hash in m.s.tracked {
        EchoSane(m.s.measures, m.s.tracked[m.ev.hash], at, m.s.retired.lastCommitTime, m.now);
      }
    case CleanStep(at) =>
      CleanMeasures(cfg, m.s, m.cl, at);
      EchoSane(m.s.measures, m.now, at, m.s.retired.lastCommitTime, m.now);
    case EchoStep(ms, at) => EchoRecordSane(m.s, ms, m.now, at);
    case ArrivalStep(ms, at) => ArrivalRecordSane(m.s, ms, m.now, at);
  }

  lemma MeasuresKept(cfg: Config)
    requires cfg.maxDuration >= 0
    ensures Keeps(StepOf(cfg), MeasuresInv(cfg))
  {
    forall m, a | MeasuresInv(cfg)(m) && StepOf(cfg)(m, a).Some?
      ensures MeasuresInv(cfg)(StepOf(cfg)(m, a).value)
    {
      assert Recent(m.s.tracked, SENT, m.sweptAt, m.now, cfg.maxDuration);
      hide Do, AllRecent, Recent, MeasuresSane;
      StepKeepsRecent(cfg, m, a);
      StepKeepsMeasures(cfg, m, a);
    }
  }

  lemma InitMeasures(measures: Measures, now: Time)
    requires measures == Init().measures && now >= 0
    ensures MeasuresSane(measures, 0, now)
  {
  }

  /** On a clock that never goes back every round trip and every arrival after a commit is
      measured as non-negative, so the conversion to unsigned microseconds never sees a negative. */
  lemma LatenciesNonNegative(cfg: Config, start: Time, m: Machine)
    requires cfg.maxDuration >= 0 && start >= 0 && Reaches(cfg, Start(start), m)
    ensures MeasuresSane(m.s.measures, m.s.retired.lastCommitTime, m.now)
  {
    hide Do, AllRecent, MeasuresSane;
    MeasuresKept(cfg);
    InitRecent(Start(start), cfg.maxDuration);
    InitMeasures(Init().measures, start);
    ReachedInvariance(StepOf(cfg), MeasuresInv(cfg), Start(start), m);
  }
}
