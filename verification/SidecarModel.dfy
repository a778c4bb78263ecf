/** The sidecar's state and the effect of each critical section and of each whole handler, as
    functions on values. */
module SidecarModel {
  import opened Prelude
  import opened Filter
  import opened Pool
  import P = Priorities

  /** What the sidecar is built with: a classifier and the pool's maximum age. */
  datatype Config = Config(classify: Tx -> Classification, maxDuration: Time)

  /** The classifier only returns complete bids. */
  ghost predicate Complete(cfg: Config) {
    forall tx :: CompleteBid(cfg.classify(tx))
  }

  /** The sidecar's own configuration, with the filter as its classifier. */
  function ConfigOf(f: FilterConfig, maxDuration: Time): Config {
    Config((tx: Tx) => ClassifyTransaction(f, tx), maxDuration)
  }

  lemma FilterIsComplete(f: FilterConfig, maxDuration: Time)
    requires ValidFilter(f)
    ensures Complete(ConfigOf(f, maxDuration))
  {
    forall tx
      ensures CompleteBid(ConfigOf(f, maxDuration).classify(tx))
    {
      ClassificationExact(f, tx);
    }
  }

  // The counters the sidecar exposes, grouped by the handler that advances them.

  datatype Received = Received(txs: nat, fromNode: nat, messages: nat, decodeErrors: nat, lastReceivedAt: Time)

  datatype Kinds = Kinds(tob: nat, backrun: nat, normal: nat, pairs: nat, processed: nat)

  datatype Sends = Sends(streamed: nat, toNode: nat, errors: nat, lastSentAt: Time)

  datatype Retired = Retired(
    dropped: nat,
    committedBeforeEcho: nat,
    droppedBeforeEcho: nat,
    evictedBeforeEcho: nat,
    lastCommitTime: Time)

  datatype Upkeep = Upkeep(cleanupOps: nat, txExpired: nat, poolSize: nat, poolSizeMetric: nat)

  /** Measurements taken (`echoes`, `arrivals`: the goroutine has not run yet) and recorded. */
  datatype Measures = Measures(
    echoes: multiset<real>,
    roundTrips: seq<real>,
    arrivals: multiset<real>,
    arrivalTimes: seq<real>)

  /** Book-keeping the sidecar does not do, needed to state what its counters miss. */
  datatype Ledger = Ledger(
    accepted: nat,      // transactions put in the pool
    duplicates: nat,    // inserts of a pooled transaction
    removed: nat,       // pooled transactions removed by a commit, drop or evict
    expired: nat,       // pooled transactions removed by a cleanup
    stale: nat,         // tracking entries removed by a cleanup
    overwritten: nat)   // tracking entries replaced by a later send of the same transaction

  /** One call of the client: the raw bytes and priority handed over, and whether it succeeded. */
  datatype Attempt = Attempt(hash: Hash, originalRlp: Bytes, source: P.Source, ok: bool)

  datatype State = State(
    pool: map<Hash, Pooled>,
    tracked: map<Hash, Time>,
    received: Received,
    kinds: Kinds,
    sends: Sends,
    retired: Retired,
    upkeep: Upkeep,
    measures: Measures,
    log: seq<Attempt>,
    books: Ledger)

  function Init(): State {
    State(map[], map[], Received(0, 0, 0, 0, 0), Kinds(0, 0, 0, 0, 0), Sends(0, 0, 0, 0), Retired(0, 0, 0, 0, 0),
          Upkeep(0, 0, 0, 0), Measures(multiset{}, [], multiset{}, []), [], Ledger(0, 0, 0, 0, 0, 0))
  }

  /** Milliseconds between two clock readings. */
  function Millis(from: Time, to: Time): real {
    (to - from) as real / 1000000.0
  }

  // ----- critical sections -------------------------------------------------------------

  /** An Insert arrives: the arrival measurement is handed to a goroutine, counters advance. */
  function Receive(s: State, arrivedAt: Time, receivedAt: Time): State {
    var r := s.received;
    var t := s.(received := Received(r.txs + 1, r.fromNode + 1, r.messages + 1, r.decodeErrors, receivedAt));
    if s.retired.lastCommitTime > 0 then
      var delta := Millis(s.retired.lastCommitTime, arrivedAt);
      t.(measures := s.measures.(arrivals := s.measures.arrivals + multiset{delta}))
    else t
  }

  function CountDecodeError(s: State): State {
    s.(received := s.received.(decodeErrors := s.received.decodeErrors + 1))
  }

  /** An Insert of a pooled transaction: if its tracking entry is still there this is the echo. */
  function Echo(s: State, h: Hash, at: Time): State {
    var t := s.(books := s.books.(duplicates := s.books.duplicates + 1));
    if h in s.tracked then
      t.(tracked := s.tracked - {h},
         measures := s.measures.(echoes := s.measures.echoes + multiset{Millis(s.tracked[h], at)}))
    else t
  }

  /** The record a newly accepted transaction gets. */
  function NewRecord(tx: Tx, txBytes: Bytes, originalRlp: Bytes, at: Time): Pooled {
    Pooled(tx, txBytes, originalRlp, at, "txpool", tx.hash, NormalTransaction, None)
  }

  function AddToPool(s: State, tx: Tx, txBytes: Bytes, originalRlp: Bytes, at: Time): State {
    if tx.hash in s.pool then s
    else s.(pool := s.pool[tx.hash := NewRecord(tx, txBytes, originalRlp, at)],
            books := s.books.(accepted := s.books.accepted + 1))
  }

  function SetType(s: State, h: Hash, txType: TxType): State {
    if h in s.pool then s.(pool := s.pool[h := s.pool[h].(txType := txType)]) else s
  }

  function SetBid(s: State, h: Hash, bid: Option<BidData>): State {
    if h in s.pool then s.(pool := s.pool[h := s.pool[h].(bidData := bid)]) else s
  }

  /** The pool size is shown twice: in the sidecar's own gauge, then in that of the metrics. */
  function StoreSize(s: State, size: nat): State {
    s.(upkeep := s.upkeep.(poolSize := size))
  }

  function MirrorSize(s: State, size: nat): State {
    s.(upkeep := s.upkeep.(poolSizeMetric := size))
  }

  function StoreGauge(s: State, size: nat): State {
    MirrorSize(StoreSize(s, size), size)
  }

  function CountKind(s: State, txType: TxType): State {
    match txType
    case TobBid => s.(kinds := s.kinds.(tob := s.kinds.tob + 1))
    case BackrunBid => s.(kinds := s.kinds.(backrun := s.kinds.backrun + 1))
    case NormalTransaction => s.(kinds := s.kinds.(normal := s.kinds.normal + 1))
  }

  /** A transaction to stream, and what its priority is computed from. */
  datatype Job = Job(hash: Hash, source: P.Source)

  /** The bytes a stream needs are found only while the transaction is pooled. */
  function Sendable(s: State, h: Hash): bool {
    h in s.pool && s.pool[h].originalRlp != []
  }

  function FailSend(s: State): State {
    s.(sends := s.sends.(errors := s.sends.errors + 1))
  }

  /** The client call, successful or not. */
  function Send(s: State, job: Job, originalRlp: Bytes, ok: bool, at: Time): State {
    var t := s.(log := s.log + [Attempt(job.hash, originalRlp, job.source, ok)]);
    if ok then t.(sends := Sends(s.sends.streamed + 1, s.sends.toNode + 1, s.sends.errors, at))
    else FailSend(t)
  }

  function Track(s: State, h: Hash, at: Time): State {
    s.(tracked := s.tracked[h := at],
       books := if h in s.tracked then s.books.(overwritten := s.books.overwritten + 1) else s.books)
  }

  function CountPair(s: State): State {
    s.(kinds := s.kinds.(pairs := s.kinds.pairs + 1))
  }

  function CountProcessed(s: State): State {
    s.(kinds := s.kinds.(processed := s.kinds.processed + 1))
  }

  /** The three events that retire a transaction. */
  datatype Retirement = Committed | Dropped | Evicted

  function NoteRetirement(s: State, kind: Retirement, at: Time): State {
    match kind
    case Committed => s.(retired := s.retired.(lastCommitTime := at))
    case Dropped => s.(retired := s.retired.(dropped := s.retired.dropped + 1))
    case Evicted => s
  }

  function CountBeforeEcho(r: Retired, kind: Retirement): Retired {
    match kind
    case Committed => r.(committedBeforeEcho := r.committedBeforeEcho + 1)
    case Dropped => r.(droppedBeforeEcho := r.droppedBeforeEcho + 1)
    case Evicted => r.(evictedBeforeEcho := r.evictedBeforeEcho + 1)
  }

  /** Deleting the tracking entry; the deletion reports whether there was one. */
  function Forget(s: State, h: Hash): State {
    s.(tracked := s.tracked - {h})
  }

  function CountForgotten(s: State, kind: Retirement): State {
    s.(retired := CountBeforeEcho(s.retired, kind))
  }

  function Untrack(s: State, h: Hash, kind: Retirement): State {
    if h !in s.tracked then s else CountForgotten(Forget(s, h), kind)
  }

  function RemoveFromPool(s: State, h: Hash): State {
    if h !in s.pool then s
    else s.(pool := s.pool - {h}, books := s.books.(removed := s.books.removed + 1))
  }

  function CleanPool(s: State, now: Time, maxDuration: Time): State {
    var left := Unexpired(s.pool, now, maxDuration);
    s.(pool := left,
       upkeep := s.upkeep.(cleanupOps := s.upkeep.cleanupOps + 1),
       books := s.books.(expired := s.books.expired + |s.pool.Keys - left.Keys|))
  }

  function CountExpired(s: State, before: nat, after: nat): State {
    if after < before then s.(upkeep := s.upkeep.(txExpired := s.upkeep.txExpired + (before - after))) else s
  }

  function Fresh(tracked: map<Hash, Time>, now: Time, maxDuration: Time): map<Hash, Time> {
    map h | h in tracked && !(now - tracked[h] > maxDuration) :: tracked[h]
  }

  function CleanTracked(s: State, now: Time, maxDuration: Time): State {
    var left := Fresh(s.tracked, now, maxDuration);
    s.(tracked := left, books := s.books.(stale := s.books.stale + |s.tracked.Keys - left.Keys|))
  }

  // ----- whole handlers, each run without interruption ------------------------------------

  /** The outcome of one send and the clock readings around it. */
  datatype SendEnv = SendEnv(ok: bool, sentAt: Time, trackedAt: Time)

  /** Everything an Insert handler reads from its surroundings, in the order it is read. */
  datatype InsertEnv = InsertEnv(arrivedAt: Time, receivedAt: Time, pooledAt: Time, first: SendEnv, second: SendEnv)

  function Stream(s: State, job: Job, env: SendEnv): State {
    if !Sendable(s, job.hash) then FailSend(s)
    else
      var t := Send(s, job, s.pool[job.hash].originalRlp, env.ok, env.sentAt);
      if env.ok then Track(t, job.hash, env.trackedAt) else t
  }

  function HandleTobBid(s: State, tx: Tx, bid: Option<BidData>, env: SendEnv): State {
    if bid.None? || bid.value.amount.None? then s
    else Stream(s, Job(tx.hash, P.TobBid(bid.value.amount.value)), env)
  }

  function HandleBackrunBid(s: State, tx: Tx, bid: Option<BidData>, first: SendEnv, second: SendEnv): State {
    if bid.None? || bid.value.amount.None? || bid.value.target.None? then s
    else
      var target := bid.value.target.value;
      if target !in s.pool then s
      else
        var t := Stream(s, Job(s.pool[target].tx.hash, P.Opportunity(target)), first);
        var u := Stream(t, Job(tx.hash, P.BackrunBid(bid.value.amount.value, target)), second);
        CountPair(u)
  }

  /** Adding a transaction, then typing its record and setting its bid data. */
  function AddTyped(s: State, tx: Tx, txBytes: Bytes, originalRlp: Bytes, c: Classification, at: Time): State {
    SetBid(SetType(AddToPool(s, tx, txBytes, originalRlp, at), tx.hash, c.txType), tx.hash, c.bid)
  }

  /** Putting a transaction that is not pooled into the pool, typed and counted. */
  function Accept(cfg: Config, s: State, tx: Tx, txBytes: Bytes, originalRlp: Bytes, at: Time): State {
    var classification := cfg.classify(tx);
    var t := AddTyped(s, tx, txBytes, originalRlp, classification, at);
    CountKind(StoreGauge(t, |t.pool|), classification.txType)
  }

  /** Adding, typing and setting the bid data leave the finished record. */
  lemma AddTypedIs(s: State, tx: Tx, txBytes: Bytes, originalRlp: Bytes, classification: Classification, at: Time)
    requires tx.hash !in s.pool
    ensures AddTyped(s, tx, txBytes, originalRlp, classification, at)
         == s.(pool := s.pool[tx.hash := Pooled(tx, txBytes, originalRlp, at, "txpool", tx.hash,
                                                classification.txType, classification.bid)],
               books := s.books.(accepted := s.books.accepted + 1))
  {
  }

  /** Accepting in one stroke: the finished record, the gauges at the new size, the kind counted. */
  lemma AcceptIs(cfg: Config, s: State, tx: Tx, txBytes: Bytes, originalRlp: Bytes, at: Time)
    requires tx.hash !in s.pool
    ensures var c := cfg.classify(tx);
            var pool := s.pool[tx.hash := Pooled(tx, txBytes, originalRlp, at, "txpool", tx.hash, c.txType, c.bid)];
            var t := s.(pool := pool, books := s.books.(accepted := s.books.accepted + 1));
            Accept(cfg, s, tx, txBytes, originalRlp, at) == CountKind(StoreGauge(t, |pool|), c.txType)
  {
    hide AddToPool, SetType, SetBid, CountKind, StoreGauge;
    AddTypedIs(s, tx, txBytes, originalRlp, cfg.classify(tx), at);
  }

  function StreamAccepted(cfg: Config, s: State, tx: Tx, env: InsertEnv): State {
    var classification := cfg.classify(tx);
    match classification.txType
    case TobBid => HandleTobBid(s, tx, classification.bid, env.first)
    case BackrunBid => HandleBackrunBid(s, tx, classification.bid, env.first, env.second)
    case NormalTransaction => s
  }

  function HandleIncoming(cfg: Config, s: State, tx: Tx, originalRlp: Bytes, env: InsertEnv): State {
    match tx.binary
    case None => CountDecodeError(s)
    case Some(txBytes) =>
      if tx.hash in s.pool then Echo(s, tx.hash, env.pooledAt)
      else CountProcessed(StreamAccepted(cfg, Accept(cfg, s, tx, txBytes, originalRlp, env.pooledAt), tx, env))
  }

  function Retire(s: State, h: Hash, kind: Retirement, at: Time): State {
    RemoveFromPool(Untrack(NoteRetirement(s, kind, at), h, kind), h)
  }

  function Cleanup(cfg: Config, s: State, poolNow: Time, trackNow: Time): State {
    var t := CleanPool(s, poolNow, cfg.maxDuration);
    var u := StoreGauge(CountExpired(t, |s.pool|, |t.pool|), |t.pool|);
    CleanTracked(u, trackNow, cfg.maxDuration)
  }

  datatype Input =
    | InsertEvent(tx: Tx, originalRlp: Bytes, env: InsertEnv)
    | RetireEvent(hash: Hash, kind: Retirement, at: Time)
    | Tick(poolNow: Time, trackNow: Time)
    | RunEcho(ms: real)
    | RunArrival(ms: real)

  function RecordEcho(s: State, ms: real): State {
    if ms !in s.measures.echoes then s
    else s.(measures := s.measures.(echoes := s.measures.echoes - multiset{ms},
                                    roundTrips := s.measures.roundTrips + [ms]))
  }

  function RecordArrival(s: State, ms: real): State {
    if ms !in s.measures.arrivals then s
    else s.(measures := s.measures.(arrivals := s.measures.arrivals - multiset{ms},
                                    arrivalTimes := s.measures.arrivalTimes + [ms]))
  }

  function Step(cfg: Config, s: State, input: Input): State {
    match input
    case InsertEvent(tx, originalRlp, env) =>
      HandleIncoming(cfg, Receive(s, env.arrivedAt, env.receivedAt), tx, originalRlp, env)
    case RetireEvent(h, kind, at) => Retire(s, h, kind, at)
    case Tick(poolNow, trackNow) => Cleanup(cfg, s, poolNow, trackNow)
    case RunEcho(ms) => RecordEcho(s, ms)
    case RunArrival(ms) => RecordArrival(s, ms)
  }

  /** The state after the first n inputs, each handled without interruption. */
  function Run(cfg: Config, inputs: seq<Input>, n: nat): State
    requires n <= |inputs|
  {
    if n == 0 then Init() else Step(cfg, Run(cfg, inputs, n - 1), inputs[n - 1])
  }
}
