/** The sidecar as an object: handlers that update the pool, the tracking map and the counters in
    place, each proved to have exactly the effect of its function on states. */
module Sidecar {
  import opened Prelude
  import opened Filter
  import opened Pool
  import Bincode
  import P = Priorities
  import M = SidecarModel

  /** The input a decoded event is, with what the handler reads from its surroundings. */
  function InputOf(event: Bincode.Event, env: M.InsertEnv): M.Input {
    match event.action
    case Insert(_, _, tx, originalRlp) => M.InsertEvent(tx, originalRlp, env)
    case Commit => M.RetireEvent(event.txHash, M.Committed, env.arrivedAt)
    case Drop(_) => M.RetireEvent(event.txHash, M.Dropped, env.arrivedAt)
    case Evict(_) => M.RetireEvent(event.txHash, M.Evicted, env.arrivedAt)
  }

  class Sidecar {
    const cfg: M.Config
    const txPool: TransactionPool
    var prioritizedTxs: map<Hash, Time>
    var received: M.Received
    var kinds: M.Kinds
    var sends: M.Sends
    var retired: M.Retired
    var upkeep: M.Upkeep

    // the measurement goroutines, the client calls made, and the books
    ghost var measures: M.Measures
    ghost var log: seq<M.Attempt>
    ghost var books: M.Ledger

    ghost predicate Valid()
      reads this, txPool, txPool.allTxs.Values
    {
      txPool.Valid() && txPool.maxDuration == cfg.maxDuration
    }

    ghost function View(): M.State
      reads this, txPool
    {
      M.State(txPool.view, prioritizedTxs, received, kinds, sends, retired, upkeep, measures, log, books)
    }

    constructor (cfg: M.Config)
      ensures Valid() && View() == M.Init() && this.cfg == cfg
    {
      this.cfg := cfg;
      txPool := new TransactionPool(cfg.maxDuration);
      prioritizedTxs := map[];
      received, kinds := M.Received(0, 0, 0, 0, 0), M.Kinds(0, 0, 0, 0, 0);
      sends, retired := M.Sends(0, 0, 0, 0), M.Retired(0, 0, 0, 0, 0);
      upkeep, measures := M.Upkeep(0, 0, 0, 0), M.Measures(multiset{}, [], multiset{}, []);
      log, books := [], M.Ledger(0, 0, 0, 0, 0, 0);
    }

    /** The client call: the bytes and the priority handed over are logged, then it succeeds or not. */
    method SendTxWithPriorityRlp(txRlp: Bytes, priority: nat, ghost hash: Hash, ghost source: P.Source, ok: bool)
      returns (sent: bool)
      requires priority == P.Value(source)
      modifies this`log
      ensures sent == ok && log == old(log) + [M.Attempt(hash, txRlp, source, ok)]
    {
      log := log + [M.Attempt(hash, txRlp, source, ok)];
      sent := ok;
    }

    /** Sends a pooled transaction with a priority and enters it in the tracking map. */
    method StreamTransaction(tx: Tx, priority: nat, ghost source: P.Source, env: M.SendEnv)
      requires Valid() && priority == P.Value(source)
      modifies this`sends, this`log, this`prioritizedTxs, this`books
      ensures View() == M.Stream(old(View()), M.Job(tx.hash, source), env)
    {
      hide P.Value, TransactionPool.Valid;
      var pooledTx := txPool.GetTransaction(tx.hash);
      if pooledTx == null || |pooledTx.originalRlp| == 0 {
        sends := sends.(errors := sends.errors + 1);
        return;
      }
      var sent := SendTxWithPriorityRlp(pooledTx.originalRlp, priority, tx.hash, source, env.ok);
      if !sent {
        sends := sends.(errors := sends.errors + 1);
        return;
      }
      sends := M.Sends(sends.streamed + 1, sends.toNode + 1, sends.errors, env.sentAt);
      if tx.hash in prioritizedTxs {
        books := books.(overwritten := books.overwritten + 1);
      }
      prioritizedTxs := prioritizedTxs[tx.hash := env.trackedAt];
    }

    method HandleTobBid(tx: Tx, bidData: Option<BidData>, env: M.SendEnv)
      requires Valid()
      modifies this`sends, this`log, this`prioritizedTxs, this`books
      ensures View() == M.HandleTobBid(old(View()), tx, bidData, env)
    {
      hide P.Value, TransactionPool.Valid, M.Stream;
      if bidData.None? || bidData.value.amount.None? {
        return;
      }
      var priority := P.CalculateTobPriority(bidData.value.amount.value);
      StreamTransaction(tx, priority, P.TobBid(bidData.value.amount.value), env);
    }

    /** Streams the target, then the bid, when the target is still pooled. */
    method HandleBackrunBid(tx: Tx, bidData: Option<BidData>, first: M.SendEnv, second: M.SendEnv)
      requires Valid()
      modifies this`sends, this`log, this`prioritizedTxs, this`books, this`kinds
      ensures View() == M.HandleBackrunBid(old(View()), tx, bidData, first, second)
    {
      hide P.Value, TransactionPool.Valid, M.Stream;
      if bidData.None? || bidData.value.amount.None? || bidData.value.target.None? {
        return;
      }
      var targetTxHash := bidData.value.target.value;
      var targetTx := txPool.GetTransaction(targetTxHash);
      if targetTx == null {
        return;
      }
      var oppPriority := P.CalculateOpportunityPriority(targetTxHash);
      StreamTransaction(targetTx.tx, oppPriority, P.Opportunity(targetTxHash), first);
      var backrunPriority := P.CalculateBackrunPriority(bidData.value.amount.value, targetTxHash);
      StreamTransaction(tx, backrunPriority, P.BackrunBid(bidData.value.amount.value, targetTxHash), second);
      kinds := kinds.(pairs := kinds.pairs + 1);
    }

    /** Removes a tracking entry; true when it was there. */
    method RemovePrioritizedTx(hash: Hash) returns (existed: bool)
      modifies this`prioritizedTxs
      ensures existed == (hash in old(prioritizedTxs)) && prioritizedTxs == old(prioritizedTxs) - {hash}
    {
      existed := hash in prioritizedTxs;
      prioritizedTxs := prioritizedTxs - {hash};
    }

    /** Writes the bid data of a record in place, while it is pooled. */
    static method WriteBidData(pool: TransactionPool, hash: Hash, bidData: Option<BidData>)
      requires pool.Valid()
      modifies pool`view, if hash in pool.allTxs then {pool.allTxs[hash]} else {}
      ensures pool.Valid()
      ensures pool.view == if hash in old(pool.view)
                           then old(pool.view)[hash := old(pool.view)[hash].(bidData := bidData)]
                           else old(pool.view)
    {
      var pooledTx := pool.GetTransaction(hash);
      if pooledTx != null {
        pool.RecordsApart(hash);
        pool.RecordIs(hash);
        hide TransactionPool.Valid;
        pooledTx.bidData := bidData;
        pool.view := pool.view[hash := pool.view[hash].(bidData := bidData)];
        pool.Rewritten(hash);
      }
    }

    /** Adds a transaction and completes its record in place. */
    method AddTyped(tx: Tx, txBytes: Bytes, originalRlp: Bytes, classification: Classification, now: Time)
      requires Valid() && tx.hash !in txPool.view
      modifies txPool, txPool.allTxs.Values
      ensures Valid() && fresh(txPool.allTxs.Values - old(txPool.allTxs.Values))
      ensures txPool.view == old(txPool.view)[tx.hash := Pooled(tx, txBytes, originalRlp, now, "txpool", tx.hash,
                                                                classification.txType, classification.bid)]
    {
      hide TransactionPool.Valid;
      txPool.AddTransactionWithRlp(tx, txBytes, originalRlp, "txpool", now);
      txPool.SameKeys();
      txPool.UpdateTransactionType(tx.hash, classification.txType);
      WriteBidData(txPool, tx.hash, classification.bid);
    }

    /** Stores a transaction that is not pooled, refreshes the gauges and counts its kind. */
    method Accept(tx: Tx, txBytes: Bytes, originalRlp: Bytes, classification: Classification, now: Time)
      requires Valid() && tx.hash !in txPool.view && classification == cfg.classify(tx)
      modifies this`books, this`upkeep, this`kinds, txPool, txPool.allTxs.Values
      ensures Valid() && fresh(txPool.allTxs.Values - old(txPool.allTxs.Values))
      ensures View() == M.Accept(cfg, old(View()), tx, txBytes, originalRlp, now)
    {
      hide TransactionPool.Valid, M.Accept, M.CountKind, M.StoreGauge;
      M.AcceptIs(cfg, View(), tx, txBytes, originalRlp, now);
      AddTyped(tx, txBytes, originalRlp, classification, now);
      CountAccepted(classification.txType);
    }

    /** Counts an accepted transaction and refreshes both gauges with the pool's size. */
    method CountAccepted(txType: TxType)
      requires Valid()
      modifies this`books, this`upkeep, this`kinds
      ensures var s := old(View());
              var t := s.(books := s.books.(accepted := s.books.accepted + 1));
              View() == M.CountKind(M.StoreGauge(t, |s.pool|), txType)
    {
      hide TransactionPool.Valid, M.CountKind;
      var poolSize := txPool.Size();
      books := books.(accepted := books.accepted + 1);
      upkeep := upkeep.(poolSize := poolSize, poolSizeMetric := poolSize);
      CountKind(txType);
    }

    method CountKind(txType: TxType)
      modifies this`kinds
      ensures View() == M.CountKind(old(View()), txType)
    {
      match txType {
        case TobBid => kinds := kinds.(tob := kinds.tob + 1);
        case BackrunBid => kinds := kinds.(backrun := kinds.backrun + 1);
        case NormalTransaction => kinds := kinds.(normal := kinds.normal + 1);
      }
    }

    /** An Insert of a pooled transaction; the echo of a tracked one is measured and untracked. */
    method NoteEcho(hash: Hash, at: Time)
      modifies this`books, this`prioritizedTxs, this`measures
      ensures View() == M.Echo(old(View()), hash, at)
    {
      books := books.(duplicates := books.duplicates + 1);
      if hash in prioritizedTxs {
        var deltaMs := M.Millis(prioritizedTxs[hash], at);
        prioritizedTxs := prioritizedTxs - {hash};
        measures := measures.(echoes := measures.echoes + multiset{deltaMs});
      }
    }

    method HandleIncomingTransactionFromEvent(tx: Tx, originalRlp: Bytes, env: M.InsertEnv)
      requires Valid()
      modifies this, txPool, txPool.allTxs.Values
      ensures Valid() && fresh(txPool.allTxs.Values - old(txPool.allTxs.Values))
      ensures View() == M.HandleIncoming(cfg, old(View()), tx, originalRlp, env)
    {
      hide TransactionPool.Valid, M.Accept, M.HandleTobBid, M.HandleBackrunBid, M.Echo;
      if tx.binary.None? {
        received := received.(decodeErrors := received.decodeErrors + 1);
        return;
      }
      var found := txPool.Exists(tx.hash);
      if found {
        NoteEcho(tx.hash, env.pooledAt);
        return;
      }
      var classification := cfg.classify(tx);
      Accept(tx, tx.binary.value, originalRlp, classification, env.pooledAt);
      match classification.txType {
        case TobBid => HandleTobBid(tx, classification.bid, env.first);
        case BackrunBid => HandleBackrunBid(tx, classification.bid, env.first, env.second);
        case NormalTransaction =>
      }
      kinds := kinds.(processed := kinds.processed + 1);
    }

    method NoteRetirement(kind: M.Retirement, at: Time)
      modifies this`retired
      ensures View() == M.NoteRetirement(old(View()), kind, at)
    {
      match kind {
        case Committed => retired := retired.(lastCommitTime := at);
        case Dropped => retired := retired.(dropped := retired.dropped + 1);
        case Evicted =>
      }
    }

    /** Untracks a retired transaction and counts it when its echo had not arrived. */
    method Untrack(hash: Hash, kind: M.Retirement)
      modifies this`retired, this`prioritizedTxs
      ensures View() == M.Untrack(old(View()), hash, kind)
    {
      var existed := RemovePrioritizedTx(hash);
      if existed {
        match kind {
          case Committed => retired := retired.(committedBeforeEcho := retired.committedBeforeEcho + 1);
          case Dropped => retired := retired.(droppedBeforeEcho := retired.droppedBeforeEcho + 1);
          case Evicted => retired := retired.(evictedBeforeEcho := retired.evictedBeforeEcho + 1);
        }
      }
      assert old(prioritizedTxs) - {hash} == if existed then old(prioritizedTxs) - {hash} else old(prioritizedTxs);
    }

    method RemoveFromPool(hash: Hash)
      requires Valid()
      modifies this`books, txPool
      ensures Valid() && txPool.allTxs.Values <= old(txPool.allTxs.Values)
      ensures View() == M.RemoveFromPool(old(View()), hash)
    {
      hide TransactionPool.Valid;
      var removed := txPool.RemoveTransaction(hash);
      if removed != null {
        books := books.(removed := books.removed + 1);
      } else {
        assert txPool.view == old(txPool.view);
      }
    }

    /** A Commit, Drop or Evict retires a transaction: note it, untrack it, remove it. */
    method Retire(hash: Hash, kind: M.Retirement, at: Time)
      requires Valid()
      modifies this`retired, this`prioritizedTxs, this`books, txPool
      ensures Valid() && txPool.allTxs.Values <= old(txPool.allTxs.Values)
      ensures View() == M.Retire(old(View()), hash, kind, at)
    {
      hide TransactionPool.Valid, View, M.NoteRetirement, M.Untrack, M.RemoveFromPool;
      NoteRetirement(kind, at);
      Untrack(hash, kind);
      RemoveFromPool(hash);
    }

    /** The whole event handler, for every action the decoder produces. */
    method HandleTxPoolEvent(event: Bincode.Event, env: M.InsertEnv)
      requires Valid()
      modifies this, txPool, txPool.allTxs.Values
      ensures Valid() && fresh(txPool.allTxs.Values - old(txPool.allTxs.Values))
      ensures View() == M.Step(cfg, old(View()), InputOf(event, env))
    {
      hide TransactionPool.Valid, M.HandleIncoming, M.Retire;
      match event.action {
        case Insert(_, _, tx, originalRlp) =>
          if retired.lastCommitTime > 0 {
            var deltaMs := M.Millis(retired.lastCommitTime, env.arrivedAt);
            measures := measures.(arrivals := measures.arrivals + multiset{deltaMs});
          }
          received := M.Received(received.txs + 1, received.fromNode + 1, received.messages + 1,
                                 received.decodeErrors, env.receivedAt);
          HandleIncomingTransactionFromEvent(tx, originalRlp, env);
        case Commit => Retire(event.txHash, M.Committed, env.arrivedAt);
        case Drop(_) => Retire(event.txHash, M.Dropped, env.arrivedAt);
        case Evict(_) => Retire(event.txHash, M.Evicted, env.arrivedAt);
      }
    }

    /** Drops the tracking entries older than the maximum age. */
    method SweepTracked(now: Time)
      modifies this`prioritizedTxs
      ensures prioritizedTxs == M.Fresh(old(prioritizedTxs), now, cfg.maxDuration)
    {
      var remaining := prioritizedTxs.Keys;
      while remaining != {}
        invariant remaining <= prioritizedTxs.Keys <= old(prioritizedTxs).Keys
        invariant forall h :: h in prioritizedTxs ==> prioritizedTxs[h] == old(prioritizedTxs)[h]
        invariant forall h :: h in old(prioritizedTxs) && h !in remaining ==>
          (h in prioritizedTxs <==> !(now - old(prioritizedTxs)[h] > cfg.maxDuration))
        decreases |remaining|
      {
        var hash :| hash in remaining;
        remaining := remaining - {hash};
        if now - prioritizedTxs[hash] > cfg.maxDuration {
          prioritizedTxs := prioritizedTxs - {hash};
        }
      }
    }

    method CleanTracked(now: Time)
      modifies this`prioritizedTxs, this`books
      ensures View() == M.CleanTracked(old(View()), now, cfg.maxDuration)
    {
      hide M.Fresh;
      SweepTracked(now);
      books := books.(stale := books.stale + |old(prioritizedTxs).Keys - prioritizedTxs.Keys|);
    }

    method CleanPool(now: Time)
      requires Valid()
      modifies this`books, this`upkeep, txPool
      ensures Valid() && txPool.allTxs.Values <= old(txPool.allTxs.Values)
      ensures View() == M.CleanPool(old(View()), now, cfg.maxDuration)
    {
      hide TransactionPool.Valid, Unexpired;
      txPool.CleanupOldTransactions(now);
      books := books.(expired := books.expired + |old(txPool.view).Keys - txPool.view.Keys|);
      upkeep := upkeep.(cleanupOps := upkeep.cleanupOps + 1);
    }

    method RefreshGauges(sizeBefore: nat, sizeAfter: nat)
      modifies this`upkeep
      ensures View() == M.StoreGauge(M.CountExpired(old(View()), sizeBefore, sizeAfter), sizeAfter)
    {
      if sizeAfter < sizeBefore {
        upkeep := upkeep.(txExpired := upkeep.txExpired + (sizeBefore - sizeAfter));
      }
      upkeep := upkeep.(poolSize := sizeAfter, poolSizeMetric := sizeAfter);
    }

    /** One tick of the cleanup loop. */
    method CleanupTick(poolNow: Time, trackNow: Time)
      requires Valid()
      modifies this`books, this`upkeep, this`prioritizedTxs, txPool
      ensures Valid() && txPool.allTxs.Values <= old(txPool.allTxs.Values)
      ensures View() == M.Step(cfg, old(View()), M.Tick(poolNow, trackNow))
    {
      hide TransactionPool.Valid, M.CleanPool, M.StoreGauge, M.CountExpired, M.CleanTracked;
      var sizeBefore := txPool.Size();
      CleanPool(poolNow);
      var sizeAfter := txPool.Size();
      RefreshGauges(sizeBefore, sizeAfter);
      CleanTracked(trackNow);
    }
  }
}
