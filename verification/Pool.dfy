/** The transaction pool: heap records in a map, updated in place, expired by age. */
module Pool {
  import opened Prelude
  import opened Filter

  /** The value of a pooled record. */
  datatype Pooled = Pooled(
    tx: Tx,
    txBytes: Bytes,
    originalRlp: Bytes,
    receivedAt: Time,
    source: string,
    hash: Hash,
    txType: TxType,
    bidData: Option<BidData>)

  /** What a cleanup at `now` leaves: everything not received before the cutoff. */
  function Unexpired(pool: map<Hash, Pooled>, now: Time, maxDuration: Time): map<Hash, Pooled> {
    map h | h in pool && !(pool[h].receivedAt < now - maxDuration) :: pool[h]
  }

  class PooledTransaction {
    const tx: Tx
    const txBytes: Bytes
    const originalRlp: Bytes
    const receivedAt: Time
    const source: string
    const hash: Hash
    var txType: TxType
    var bidData: Option<BidData>

    constructor (tx: Tx, txBytes: Bytes, originalRlp: Bytes, receivedAt: Time, source: string)
      ensures Record() == Pooled(tx, txBytes, originalRlp, receivedAt, source, tx.hash, NormalTransaction, None)
    {
      this.tx, this.txBytes, this.originalRlp := tx, txBytes, originalRlp;
      this.receivedAt, this.source, this.hash := receivedAt, source, tx.hash;
      txType, bidData := NormalTransaction, None;
    }

    ghost function Record(): Pooled
      reads this
    {
      Pooled(tx, txBytes, originalRlp, receivedAt, source, hash, txType, bidData)
    }
  }

  /** The records left while the keys in `remaining` have still to be looked at. */
  function Swept(pool: map<Hash, Pooled>, remaining: set<Hash>, cutoff: Time): map<Hash, Pooled> {
    map h | h in pool && (h in remaining || !(pool[h].receivedAt < cutoff)) :: pool[h]
  }

  lemma SweptEnds(pool: map<Hash, Pooled>, cutoff: Time)
    ensures Swept(pool, pool.Keys, cutoff) == pool
  {
  }

  lemma SweptIsUnexpired(pool: map<Hash, Pooled>, now: Time, maxDuration: Time)
    ensures Swept(pool, {}, now - maxDuration) == Unexpired(pool, now, maxDuration)
  {
  }

  lemma SweptStep(pool: map<Hash, Pooled>, remaining: set<Hash>, hash: Hash, cutoff: Time)
    requires hash in remaining && hash in Swept(pool, remaining, cutoff)
    ensures Swept(pool, remaining, cutoff)[hash] == pool[hash]
    ensures Swept(pool, remaining - {hash}, cutoff)
         == if pool[hash].receivedAt < cutoff then Swept(pool, remaining, cutoff) - {hash}
            else Swept(pool, remaining, cutoff)
  {
  }

  class TransactionPool {
    var allTxs: map<Hash, PooledTransaction>
    const maxDuration: Time
    ghost var view: map<Hash, Pooled>  // the values of the records

    /** Every key maps to the record of the transaction with that hash; in particular no record
        is reachable under two keys. */
    ghost predicate Valid()
      reads this, allTxs.Values
    {
      && view.Keys == allTxs.Keys
      && forall h :: h in allTxs ==>
           allTxs[h].hash == h && allTxs[h].tx.hash == h && view[h] == allTxs[h].Record()
    }

    constructor (maxDuration: Time)
      ensures Valid() && view == map[] && this.maxDuration == maxDuration
      ensures allTxs.Values == {}
    {
      allTxs, view := map[], map[];
      this.maxDuration := maxDuration;
    }

    method Exists(hash: Hash) returns (found: bool)
      requires Valid()
      ensures found == (hash in view)
    {
      found := hash in allTxs;
    }

    /** The first record of a hash stays; a duplicate is ignored. */
    method AddTransactionWithRlp(tx: Tx, txBytes: Bytes, originalRlp: Bytes, source: string, now: Time)
      requires Valid()
      modifies this
      ensures Valid() && fresh(allTxs.Values - old(allTxs.Values))
      ensures view == if tx.hash in old(view) then old(view)
                      else old(view)[tx.hash := Pooled(tx, txBytes, originalRlp, now, source, tx.hash,
                                                       NormalTransaction, None)]
    {
      if tx.hash in allTxs {
        return;
      }
      var pooledTx := new PooledTransaction(tx, txBytes, originalRlp, now, source);
      allTxs := allTxs[tx.hash := pooledTx];
      view := view[tx.hash := pooledTx.Record()];
    }

    method GetTransaction(hash: Hash) returns (r: PooledTransaction?)
      requires Valid()
      ensures r == null <==> hash !in view
      ensures r != null ==> hash in allTxs && r == allTxs[hash]
      ensures r != null ==> r.tx == view[hash].tx && r.originalRlp == view[hash].originalRlp
    {
      r := if hash in allTxs then allTxs[hash] else null;
    }

    method UpdateTransactionType(hash: Hash, txType: TxType)
      requires Valid()
      modifies this`view, if hash in allTxs then {allTxs[hash]} else {}
      ensures Valid()
      ensures view == if hash in old(view) then old(view)[hash := old(view)[hash].(txType := txType)] else old(view)
    {
      if hash in allTxs {
        var tx := allTxs[hash];
        RecordsApart(hash);
        RecordIs(hash);
        hide TransactionPool.Valid;
        tx.txType := txType;
        view := view[hash := view[hash].(txType := txType)];
        Rewritten(hash);
      }
    }

    /** Deletes a key and the record under it. */
    method Delete(hash: Hash)
      requires Valid() && hash in allTxs
      modifies this
      ensures Valid() && allTxs == old(allTxs) - {hash} && view == old(view) - {hash}
    {
      allTxs := allTxs - {hash};
      view := view - {hash};
    }

    method RemoveTransaction(hash: Hash) returns (removed: PooledTransaction?)
      requires Valid()
      modifies this
      ensures Valid() && allTxs.Values <= old(allTxs.Values)
      ensures view == old(view) - {hash}
      ensures removed == null <==> hash !in old(view)
      ensures removed != null ==> removed == old(allTxs)[hash]
    {
      if hash !in allTxs {
        return null;
      }
      removed := allTxs[hash];
      Delete(hash);
    }

    lemma RecordsApart(hash: Hash)
      requires Valid() && hash in allTxs
      ensures forall h :: h in allTxs && h != hash ==> allTxs[h] != allTxs[hash]
    {
    }

    lemma RecordIs(hash: Hash)
      requires Valid() && hash in allTxs
      ensures hash in view && view[hash] == allTxs[hash].Record() && view[hash].hash == view[hash].tx.hash == hash
    {
    }

    /** One record was rewritten, and its value with it; the pool stays coherent. */
    twostate lemma Rewritten(hash: Hash)
      requires old(Valid()) && allTxs == old(allTxs) && hash in allTxs
      requires forall h :: h in allTxs && h != hash ==> unchanged(allTxs[h])
      requires view == old(view)[hash := allTxs[hash].Record()] && allTxs[hash].hash == allTxs[hash].tx.hash == hash
      ensures Valid()
    {
    }

    lemma SameKeys()
      requires Valid()
      ensures view.Keys == allTxs.Keys
    {
    }

    lemma SameAge(hash: Hash)
      requires Valid() && hash in allTxs && hash in view
      ensures view[hash].receivedAt == allTxs[hash].receivedAt
    {
    }

    method CleanupOldTransactions(now: Time)
      requires Valid()
      modifies this
      ensures Valid() && allTxs.Values <= old(allTxs.Values)
      ensures view == Unexpired(old(view), now, maxDuration)
    {
      hide TransactionPool.Valid, Swept, Unexpired;
      var cutoff := now - maxDuration;
      var remaining := allTxs.Keys;
      SameKeys();
      SweptEnds(view, cutoff);
      while remaining != {}
        invariant Valid() && view.Keys == allTxs.Keys
        invariant remaining <= view.Keys && view == Swept(old(view), remaining, cutoff)
        invariant allTxs.Values <= old(allTxs.Values)
        decreases |remaining|
      {
        var hash :| hash in remaining;
        SweptStep(old(view), remaining, hash, cutoff);
        remaining := remaining - {hash};
        DeleteOld(hash, cutoff);
      }
      SweptIsUnexpired(old(view), now, maxDuration);
    }

    method DeleteOld(hash: Hash, cutoff: Time)
      requires Valid() && hash in view && hash in allTxs
      modifies this
      ensures Valid() && view.Keys == allTxs.Keys
      ensures view == if old(view)[hash].receivedAt < cutoff then old(view) - {hash} else old(view)
      ensures allTxs == if old(view)[hash].receivedAt < cutoff then old(allTxs) - {hash} else old(allTxs)
      ensures allTxs.Values <= old(allTxs.Values)
    {
      hide TransactionPool.Valid;
      SameKeys();
      SameAge(hash);
      if allTxs[hash].receivedAt < cutoff {
        Delete(hash);
      }
    }

    method Size() returns (n: nat)
      requires Valid()
      ensures n == |view|
    {
      n := |allTxs|;
    }
  }
}
