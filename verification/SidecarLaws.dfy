/** Conservation laws of the interleaved sidecar, with the transaction in hand accounted for. */
module SidecarLaws {
  import opened Prelude
  import opened Filter
  import opened Pool
  import opened SidecarModel
  import opened SidecarThreads

  /** Streams the event thread has still to attempt for the transaction in hand. */
  function Remaining(ev: EventPc): nat {
    match ev
    case Streaming(jobs, _) => |jobs|
    case Sending(_, _, jobs, _) => 1 + |jobs|
    case Tracking(_, jobs, _) => |jobs|
    case _ => 0
  }

  /** A matched pair in hand that is not yet counted. */
  predicate PairOpen(ev: EventPc) {
    (ev.Streaming? || ev.Sending? || ev.Tracking?) && ev.pair
  }

  /** A send counted and not yet tracked, or a tracking entry deleted and not yet counted. */
  predicate TrackingOpen(ev: EventPc) {
    ev.Tracking? || ev.Untracked?
  }

  /** An Insert received and not yet found a duplicate, unreadable or of some kind. */
  predicate Unclassed(ev: EventPc) {
    match ev
    case Arrived(_, _) | EchoCheck(_) | Adding(_, _, _) => true
    case Typing(_) | Bidding(_) | Sizing(_) | Storing(_, _) | Mirroring(_, _) => true
    case _ => false
  }

  /** A transaction put in the pool and not yet counted under its kind. */
  predicate Uncounted(ev: EventPc) {
    match ev
    case Typing(_) | Bidding(_) | Sizing(_) | Storing(_, _) | Mirroring(_, _) => true
    case _ => false
  }

  /** A transaction counted under its kind whose handling is not finished. */
  predicate Unfinished(ev: EventPc) {
    match ev
    case Looking(_) | Streaming(_, _) | Sending(_, _, _, _) | Tracking(_, _, _) => true
    case _ => false
  }

  function Classed(k: Kinds): nat {
    k.tob + k.backrun + k.normal
  }

  /** Sends to the node are tracked, echoed, retired before their echo, swept or overwritten. */
  ghost predicate TrackingLaw(s: State, inHand: nat) {
    s.sends.toNode == |s.tracked| + |s.measures.echoes| + |s.measures.roundTrips|
                      + s.retired.committedBeforeEcho + s.retired.droppedBeforeEcho + s.retired.evictedBeforeEcho
                      + s.books.stale + s.books.overwritten + inHand
  }

  /** Every top-of-block bid makes one attempt and every matched pair two. */
  ghost predicate SendLaw(s: State, ev: EventPc) {
    && s.sends.streamed == s.sends.toNode
    && s.sends.toNode + s.sends.errors + Remaining(ev) == s.kinds.tob + 2 * s.kinds.pairs + 2 * One(PairOpen(ev))
  }

  /** Inserts received are duplicates, unreadable or counted under a kind. */
  ghost predicate ReceiveLaw(s: State, ev: EventPc) {
    && s.received.txs == s.received.fromNode == s.received.messages
    && s.received.txs == s.books.duplicates + s.received.decodeErrors + Classed(s.kinds) + One(Unclassed(ev))
  }

  /** Transactions counted under a kind are the accepted ones and the fully processed ones. */
  ghost predicate KindLaw(k: Kinds, accepted: nat, ev: EventPc) {
    && accepted == Classed(k) + One(Uncounted(ev))
    && Classed(k) == k.processed + One(Unfinished(ev))
  }

  /** Accepted transactions are pooled, removed by an event or expired. */
  ghost predicate PoolLaw(s: State, ev: EventPc) {
    && s.books.accepted == |s.pool| + s.books.removed + s.books.expired
    && (ev.Adding? ==> ev.tx.hash !in s.pool)
  }

  ghost predicate Laws(s: State, ev: EventPc) {
    && TrackingLaw(s, One(TrackingOpen(ev))) && SendLaw(s, ev) && ReceiveLaw(s, ev)
    && KindLaw(s.kinds, s.books.accepted, ev) && PoolLaw(s, ev)
  }

  // ----- each critical section keeps the laws -------------------------------------------------

  lemma KeysMinus<K, V>(m: map<K, V>, k: K)
    requires k in m
    ensures |m - {k}| == |m| - 1
  {
    assert (m - {k}).Keys == m.Keys - {k};
  }

  lemma KeysPlus<K, V>(m: map<K, V>, k: K, v: V)
    ensures |m[k := v]| == |m| + One(k !in m)
  {
    assert m[k := v].Keys == m.Keys + {k};
  }

  lemma KeysLeft<K, V>(m: map<K, V>, left: map<K, V>)
    requires left.Keys <= m.Keys
    ensures |m| == |left| + |m.Keys - left.Keys|
  {
    assert m.Keys == left.Keys + (m.Keys - left.Keys);
  }

  lemma ArrivalLaws(s: State, tx: Tx, originalRlp: Bytes)
    requires Laws(s, Arrived(tx, originalRlp))
    ensures Laws(CountDecodeError(s), Idle) && Laws(s, EchoCheck(tx.hash))
    ensures forall txBytes :: tx.hash !in s.pool ==> Laws(s, Adding(tx, txBytes, originalRlp))
  {
  }

  lemma SizeLaws(s: State, tx: Tx)
    requires Laws(s, Sizing(tx))
    ensures forall size :: Laws(s, Storing(tx, size))
  {
  }

  lemma LookupLaws(cfg: Config, s: State, tx: Tx)
    requires Laws(s, Looking(tx))
    ensures Laws(s, AfterLookup(cfg, s, tx))
  {
  }

  lemma EchoLaws(s: State, h: Hash, at: Time)
    requires Laws(s, EchoCheck(h))
    ensures Laws(Echo(s, h, at), Idle)
  {
    if h in s.tracked {
      KeysMinus(s.tracked, h);
    }
  }

  lemma AddLaws(s: State, tx: Tx, txBytes: Bytes, originalRlp: Bytes, at: Time)
    requires Laws(s, Adding(tx, txBytes, originalRlp))
    ensures Laws(AddToPool(s, tx, txBytes, originalRlp, at), Typing(tx))
  {
    KeysPlus(s.pool, tx.hash, NewRecord(tx, txBytes, originalRlp, at));
  }

  /** Rewriting one pooled record in place. */
  lemma RewriteLaws(s: State, tx: Tx, r: Pooled)
    requires tx.hash in s.pool
    ensures Laws(s, Typing(tx)) ==> Laws(s.(pool := s.pool[tx.hash := r]), Bidding(tx))
    ensures Laws(s, Bidding(tx)) ==> Laws(s.(pool := s.pool[tx.hash := r]), Sizing(tx))
  {
    KeysPlus(s.pool, tx.hash, r);
  }

  lemma GoneLaws(s: State, tx: Tx)
    ensures Laws(s, Typing(tx)) ==> Laws(s, Bidding(tx))
    ensures Laws(s, Bidding(tx)) ==> Laws(s, Sizing(tx))
  {
  }

  lemma SetLaws(s: State, tx: Tx, classification: Classification)
    ensures Laws(s, Typing(tx)) ==> Laws(SetType(s, tx.hash, classification.txType), Bidding(tx))
    ensures Laws(s, Bidding(tx)) ==> Laws(SetBid(s, tx.hash, classification.bid), Sizing(tx))
  {
    hide Laws;
    if tx.hash in s.pool {
      RewriteLaws(s, tx, s.pool[tx.hash].(txType := classification.txType));
      RewriteLaws(s, tx, s.pool[tx.hash].(bidData := classification.bid));
    } else {
      GoneLaws(s, tx);
    }
  }

  lemma CountLaws(cfg: Config, s: State, tx: Tx, size: nat)
    requires Complete(cfg) && Laws(s, Mirroring(tx, size))
    ensures Laws(CountKind(MirrorSize(s, size), cfg.classify(tx).txType), AfterCounting(cfg, tx))
  {
    hide Laws, MirrorSize, CountKind;
    MirrorLaws(s, Mirroring(tx, size), size);
    KindLaws(cfg, MirrorSize(s, size), tx, size);
  }

  /** Counting a transaction under its kind, law by law. */
  lemma KindLaws(cfg: Config, s: State, tx: Tx, size: nat)
    requires Complete(cfg) && Laws(s, Mirroring(tx, size))
    ensures Laws(CountKind(s, cfg.classify(tx).txType), AfterCounting(cfg, tx))
  {
    assert CompleteBid(cfg.classify(tx));
    var ev := AfterCounting(cfg, tx);
    assert ev.Looking? || ev == Streaming([], false) || (ev.Streaming? && |ev.jobs| == 1 && !ev.pair);
    assert (ev.Streaming? && |ev.jobs| == 1) <==> cfg.classify(tx).txType == TobBid;
    hide AfterCounting, Complete, TrackingLaw, SendLaw, ReceiveLaw, KindLaw, PoolLaw;
    KindMaps(s, tx, size, ev, cfg.classify(tx).txType);
    KindCounts(s, tx, size, ev, cfg.classify(tx).txType);
    KindSends(s, tx, size, ev, cfg.classify(tx).txType);
  }

  lemma KindSends(s: State, tx: Tx, size: nat, ev: EventPc, txType: TxType)
    requires SendLaw(s, Mirroring(tx, size))
    requires ev.Looking? || ev == Streaming([], false) || (ev.Streaming? && |ev.jobs| == 1 && !ev.pair)
    requires (ev.Streaming? && |ev.jobs| == 1) <==> txType == TobBid
    ensures SendLaw(CountKind(s, txType), ev)
  {
  }

  lemma KindMaps(s: State, tx: Tx, size: nat, ev: EventPc, txType: TxType)
    requires TrackingLaw(s, One(TrackingOpen(Mirroring(tx, size)))) && PoolLaw(s, Mirroring(tx, size))
    requires ev.Streaming? || ev.Looking?
    ensures TrackingLaw(CountKind(s, txType), One(TrackingOpen(ev))) && PoolLaw(CountKind(s, txType), ev)
  {
  }

  lemma KindCounts(s: State, tx: Tx, size: nat, ev: EventPc, txType: TxType)
    requires ReceiveLaw(s, Mirroring(tx, size)) && KindLaw(s.kinds, s.books.accepted, Mirroring(tx, size))
    requires ev.Streaming? || ev.Looking?
    ensures var t := CountKind(s, txType); ReceiveLaw(t, ev) && KindLaw(t.kinds, t.books.accepted, ev)
  {
  }

  lemma MirrorLaws(s: State, ev: EventPc, size: nat)
    requires Laws(s, ev)
    ensures Laws(MirrorSize(s, size), ev)
  {
    hide Laws;
    UpkeepLaws(s, ev, MirrorSize(s, size).upkeep);
  }

  lemma StoreLaws(s: State, tx: Tx, size: nat)
    requires Laws(s, Storing(tx, size))
    ensures Laws(StoreSize(s, size), Mirroring(tx, size))
  {
  }

  lemma FinishLaws(s: State, pair: bool)
    requires Laws(s, Streaming([], pair))
    ensures Laws(CountProcessed(if pair then CountPair(s) else s), Idle)
  {
  }

  lemma LookupFailLaws(s: State, jobs: seq<Job>, pair: bool)
    requires jobs != [] && Laws(s, Streaming(jobs, pair))
    ensures Laws(FailSend(s), Streaming(jobs[1..], pair))
  {
  }

  lemma LookupHitLaws(s: State, jobs: seq<Job>, pair: bool, originalRlp: Bytes)
    requires jobs != [] && Laws(s, Streaming(jobs, pair))
    ensures Laws(s, Sending(jobs[0], originalRlp, jobs[1..], pair))
  {
  }

  lemma SendLaws(s: State, job: Job, originalRlp: Bytes, jobs: seq<Job>, pair: bool, ok: bool, at: Time)
    requires Laws(s, Sending(job, originalRlp, jobs, pair))
    ensures Laws(Send(s, job, originalRlp, ok, at),
                 if ok then Tracking(job.hash, jobs, pair) else Streaming(jobs, pair))
  {
  }

  lemma TrackLaws(s: State, h: Hash, jobs: seq<Job>, pair: bool, at: Time)
    requires Laws(s, Tracking(h, jobs, pair))
    ensures Laws(Track(s, h, at), Streaming(jobs, pair))
  {
    KeysPlus(s.tracked, h, at);
  }

  lemma NoteLaws(s: State, h: Hash, kind: Retirement, at: Time)
    requires Laws(s, Idle)
    ensures Laws(NoteRetirement(s, kind, at), Untracking(h, kind))
  {
  }

  lemma UntrackLaws(s: State, h: Hash, kind: Retirement)
    requires Laws(s, Untracking(h, kind))
    ensures if h in s.tracked then Laws(Forget(s, h), Untracked(h, kind)) else Laws(s, Removing(h))
  {
    if h in s.tracked {
      KeysMinus(s.tracked, h);
    }
  }

  lemma ForgottenLaws(s: State, h: Hash, kind: Retirement)
    requires Laws(s, Untracked(h, kind))
    ensures Laws(CountForgotten(s, kind), Removing(h))
  {
  }

  lemma RemoveLaws(s: State, h: Hash)
    requires Laws(s, Removing(h))
    ensures Laws(RemoveFromPool(s, h), Idle)
  {
    if h in s.pool {
      KeysMinus(s.pool, h);
    }
  }

  /** Sections up to the counting of a transaction's kind. */
  predicate Entering(ev: EventPc) {
    match ev
    case Arrived(_, _) | EchoCheck(_) | Adding(_, _, _) | Typing(_) | Bidding(_) => true
    case Sizing(_) | Storing(_, _) | Mirroring(_, _) => true
    case _ => false
  }

  lemma EnteringKeepsLaws(cfg: Config, s: State, ev: EventPc, ok: bool, at: Time, s': State, ev': EventPc)
    requires Complete(cfg) && Laws(s, ev) && EventMove(cfg, s, ev, ok, at) == Some((s', ev')) && Entering(ev)
    ensures Laws(s', ev')
  {
    hide Laws, AddToPool, SetType, SetBid, StoreSize, MirrorSize, CountKind, Echo, AfterCounting;
    match ev
    case Arrived(tx, originalRlp) => ArrivalLaws(s, tx, originalRlp);
    case EchoCheck(h) => EchoLaws(s, h, at);
    case Adding(tx, txBytes, originalRlp) => AddLaws(s, tx, txBytes, originalRlp, at);
    case Typing(tx) => SetLaws(s, tx, cfg.classify(tx));
    case Bidding(tx) => SetLaws(s, tx, cfg.classify(tx));
    case Sizing(tx) => SizeLaws(s, tx);
    case Storing(tx, size) => StoreLaws(s, tx, size);
    case Mirroring(tx, size) => CountLaws(cfg, s, tx, size);
  }

  lemma EventKeepsLaws(cfg: Config, s: State, ev: EventPc, ok: bool, at: Time, s': State, ev': EventPc)
    requires Complete(cfg) && Laws(s, ev) && EventMove(cfg, s, ev, ok, at) == Some((s', ev'))
    ensures Laws(s', ev')
  {
    hide Laws, Send, Track, FailSend, Forget, CountForgotten, RemoveFromPool, CountPair, CountProcessed, Complete;
    match ev
    case Looking(tx) => LookupLaws(cfg, s, tx);
    case Streaming(jobs, pair) =>
      if jobs == [] {
        FinishLaws(s, pair);
      } else if Sendable(s, jobs[0].hash) {
        LookupHitLaws(s, jobs, pair, s.pool[jobs[0].hash].originalRlp);
      } else {
        LookupFailLaws(s, jobs, pair);
      }
    case Sending(job, originalRlp, jobs, pair) => SendLaws(s, job, originalRlp, jobs, pair, ok, at);
    case Tracking(h, jobs, pair) => TrackLaws(s, h, jobs, pair, at);
    case Untracking(h, kind) => UntrackLaws(s, h, kind);
    case Untracked(h, kind) => ForgottenLaws(s, h, kind);
    case Removing(h) => RemoveLaws(s, h);
    case _ =>
      hide EventMove;
      EnteringKeepsLaws(cfg, s, ev, ok, at, s', ev');
  }

  lemma CleanPoolLaws(s: State, ev: EventPc, now: Time, maxDuration: Time)
    requires Laws(s, ev)
    ensures Laws(CleanPool(s, now, maxDuration), ev)
  {
    KeysLeft(s.pool, Unexpired(s.pool, now, maxDuration));
  }

  lemma SweepLaws(s: State, ev: EventPc, now: Time, maxDuration: Time)
    requires Laws(s, ev)
    ensures Laws(CleanTracked(s, now, maxDuration), ev)
  {
    KeysLeft(s.tracked, Fresh(s.tracked, now, maxDuration));
  }

  /** No law speaks of the gauges, the expiry counter or the cleanup count. */
  lemma UpkeepLaws(s: State, ev: EventPc, upkeep: Upkeep)
    requires Laws(s, ev)
    ensures Laws(s.(upkeep := upkeep), ev)
  {
  }

  lemma CleanKeepsLaws(cfg: Config, s: State, ev: EventPc, cl: CleanPc, at: Time)
    requires Laws(s, ev)
    ensures Laws(CleanMove(cfg, s, cl, at).0, ev)
  {
    hide Laws;
    match cl
    case Counted(_, _) => CleanPoolLaws(s, ev, at, cfg.maxDuration);
    case Recounted(_, _, _, _) | Restating(_, _) => UpkeepLaws(s, ev, CleanMove(cfg, s, cl, at).0.upkeep);
    case Sweeping => SweepLaws(s, ev, at, cfg.maxDuration);
    case _ =>
  }

  lemma MeasureLaws(s: State, ev: EventPc, ms: real)
    requires Laws(s, ev)
    ensures Laws(RecordEcho(s, ms), ev) && Laws(RecordArrival(s, ms), ev)
  {
  }

  lemma ReceivedLaws(s: State, received: Received, tx: Tx, originalRlp: Bytes)
    requires Laws(s, Idle) && received.decodeErrors == s.received.decodeErrors
    requires received.txs == received.fromNode == received.messages == s.received.txs + 1
    ensures Laws(s.(received := received), Arrived(tx, originalRlp))
  {
  }

  /** No law speaks of the arrivals not yet recorded. */
  lemma ArrivalsLaws(s: State, ev: EventPc, arrivals: multiset<real>)
    requires Laws(s, ev)
    ensures Laws(s.(measures := s.measures.(arrivals := arrivals)), ev)
  {
  }

  lemma BeginLaws(s: State, tx: Tx, originalRlp: Bytes, arrivedAt: Time, at: Time)
    requires Laws(s, Idle)
    ensures Laws(Receive(s, arrivedAt, at), Arrived(tx, originalRlp))
  {
    assert s.received.txs == s.received.fromNode == s.received.messages by {
      hide TrackingLaw, SendLaw, KindLaw, PoolLaw;
    }
    hide Laws;
    var r := s.received;
    var t := s.(received := Received(r.txs + 1, r.fromNode + 1, r.messages + 1, r.decodeErrors, at));
    ReceivedLaws(s, t.received, tx, originalRlp);
    ArrivalsLaws(t, Arrived(tx, originalRlp),
                 s.measures.arrivals + multiset{Millis(s.retired.lastCommitTime, arrivedAt)});
  }

  lemma StepKeepsLaws(cfg: Config, m: Machine, a: Action)
    requires Complete(cfg) && Laws(m.s, m.ev) && Do(cfg, m, a).Some?
    ensures var m' := Do(cfg, m, a).value; Laws(m'.s, m'.ev)
  {
    hide Laws, EventMove, CleanMove;
    match a
    case BeginInsert(tx, originalRlp, arrivedAt, at) => BeginLaws(m.s, tx, originalRlp, arrivedAt, at);
    case BeginRetire(h, kind, at) => NoteLaws(m.s, h, kind, at);
    case EventStep(ok, at) =>
      var m' := Do(cfg, m, a).value;
      EventKeepsLaws(cfg, m.s, m.ev, ok, at, m'.s, m'.ev);
    case CleanStep(at) => CleanKeepsLaws(cfg, m.s, m.ev, m.cl, at);
    case EchoStep(ms, _) => MeasureLaws(m.s, m.ev, ms);
    case ArrivalStep(ms, _) => MeasureLaws(m.s, m.ev, ms);
  }

  ghost function LawsInv(): Machine -> bool {
    (m: Machine) => Laws(m.s, m.ev)
  }

  lemma LawsKept(cfg: Config)
    requires Complete(cfg)
    ensures Keeps(StepOf(cfg), LawsInv())
  {
    hide Laws, Do;
    forall m, a | LawsInv()(m) && StepOf(cfg)(m, a).Some?
      ensures LawsInv()(StepOf(cfg)(m, a).value)
    {
      StepKeepsLaws(cfg, m, a);
    }
  }

  // Each law at rest, from the numbers it speaks of.

  lemma TrackingAtRest(s: State, ev: EventPc)
    requires ev.Idle? && s.sends.toNode == 0 && s.tracked == map[] && s.books.stale == s.books.overwritten == 0
    requires s.measures.echoes == multiset{} && s.measures.roundTrips == []
    requires s.retired.committedBeforeEcho == s.retired.droppedBeforeEcho == s.retired.evictedBeforeEcho == 0
    ensures TrackingLaw(s, One(TrackingOpen(ev)))
  {
  }

  lemma SendAtRest(s: State, ev: EventPc)
    requires ev.Idle? && s.sends.streamed == s.sends.toNode == s.sends.errors == s.kinds.tob == s.kinds.pairs == 0
    ensures SendLaw(s, ev)
  {
  }

  lemma ReceiveAtRest(s: State, ev: EventPc)
    requires s.received.txs == s.received.fromNode == s.received.messages == s.received.decodeErrors == 0
    requires s.books.duplicates == Classed(s.kinds) == 0 && ev.Idle?
    ensures ReceiveLaw(s, ev)
  {
  }

  lemma KindAtRest(k: Kinds, accepted: nat, ev: EventPc)
    requires k.tob == k.backrun == k.normal == k.processed == accepted == 0 && ev.Idle?
    ensures KindLaw(k, accepted, ev)
  {
  }

  lemma PoolAtRest(s: State, ev: EventPc)
    requires s.pool == map[] && s.books.accepted == s.books.removed == s.books.expired == 0 && ev.Idle?
    ensures PoolLaw(s, ev)
  {
  }

  /** Nothing held, nothing counted. */
  predicate Blank(s: State) {
    && s.pool == map[] && s.tracked == map[]
    && s.received.txs == s.received.fromNode == s.received.messages == s.received.decodeErrors == 0
    && s.kinds == Kinds(0, 0, 0, 0, 0) && s.sends.streamed == s.sends.toNode == s.sends.errors == 0
    && s.retired.committedBeforeEcho == s.retired.droppedBeforeEcho == s.retired.evictedBeforeEcho == 0
    && s.measures.echoes == multiset{} && s.measures.roundTrips == [] && s.books == Ledger(0, 0, 0, 0, 0, 0)
  }

  lemma InitBlank(s: State)
    requires s == Init()
    ensures Blank(s)
  {
  }

  lemma BlankLaws(s: State, ev: EventPc)
    requires Blank(s) && ev.Idle?
    ensures Laws(s, ev)
  {
    hide TrackingLaw, SendLaw, ReceiveLaw, KindLaw, PoolLaw;
    TrackingAtRest(s, ev);
    SendAtRest(s, ev);
    ReceiveAtRest(s, ev);
    KindAtRest(s.kinds, s.books.accepted, ev);
    PoolAtRest(s, ev);
  }

  lemma InitLaws(s: State, ev: EventPc)
    requires s == Init() && ev.Idle?
    ensures Laws(s, ev)
  {
    hide Init, Blank, Laws;
    InitBlank(s);
    BlankLaws(s, ev);
  }

  /** The laws hold in every reachable state of every interleaving. */
  lemma LawsHold(cfg: Config, start: Time, m: Machine)
    requires Complete(cfg) && Reaches(cfg, Start(start), m)
    ensures Laws(m.s, m.ev)
  {
    hide Laws, Do;
    LawsKept(cfg);
    InitLaws(Init(), Idle);
    ReachedInvariance(StepOf(cfg), LawsInv(), Start(start), m);
  }

  /** Between events, every top-of-block bid and both halves of every matched pair were either
      sent or counted as a send error, whatever cleanups ran in between. */
  lemma SendEquation(cfg: Config, start: Time, m: Machine)
    requires Complete(cfg) && Reaches(cfg, Start(start), m) && m.ev.Idle?
    ensures m.s.kinds.tob + 2 * m.s.kinds.pairs == m.s.sends.toNode + m.s.sends.errors
    ensures m.s.sends.streamed == m.s.sends.toNode
  {
    LawsHold(cfg, start, m);
  }

  /** In every state, sends to the node = tracked + echoed + retired before their echo + swept
      + overwritten, plus the one send not yet entered in the tracking map, or the one entry
      deleted whose before-echo counter has not advanced yet. */
  lemma TrackingConservation(cfg: Config, start: Time, m: Machine)
    requires Complete(cfg) && Reaches(cfg, Start(start), m)
    ensures TrackingLaw(m.s, One(TrackingOpen(m.ev)))
  {
    LawsHold(cfg, start, m);
  }

  /** Between events, Inserts received = duplicates + unreadable + top-of-block + backrun +
      normal, and the last three together = processed = pooled + removed + expired. */
  lemma ReceiveConservation(cfg: Config, start: Time, m: Machine)
    requires Complete(cfg) && Reaches(cfg, Start(start), m) && m.ev.Idle?
    ensures m.s.received.txs == m.s.books.duplicates + m.s.received.decodeErrors + Classed(m.s.kinds)
    ensures Classed(m.s.kinds) == m.s.kinds.processed == |m.s.pool| + m.s.books.removed + m.s.books.expired
  {
    LawsHold(cfg, start, m);
  }
}
