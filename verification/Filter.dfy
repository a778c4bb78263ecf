/** Classification of transactions into top-of-block bids, backrun bids and the rest. */
module Filter {
  import opened Prelude

  datatype TxType = NormalTransaction | TobBid | BackrunBid

  /** Bid data; both parts are optional pointers in the pooled record. */
  datatype BidData = BidData(amount: Option<nat>, target: Option<Hash>)

  datatype Classification = Classification(txType: TxType, bid: Option<BidData>)

  /** An unpacked ABI argument: the two kinds the filter looks at, and the others. */
  datatype AbiValue = AbiUint(n: nat) | AbiHashes(hashes: seq<Hash>) | AbiOther

  /** The filter's fixed fields; `unpack` is the ABI library on the calldata after the selector. */
  datatype FilterConfig = FilterConfig(
    fastlaneContract: Address,
    flashBidMethodSig: Bytes,
    unpack: Bytes -> Option<seq<AbiValue>>)

  predicate ValidFilter(f: FilterConfig) {
    |f.flashBidMethodSig| == 4
  }

  const NORMAL := Classification(NormalTransaction, None)

  function ClassifyTransaction(f: FilterConfig, tx: Tx): Classification {
    if tx.to == Some(f.fastlaneContract) && |tx.data| >= 4 && tx.data[..4] == f.flashBidMethodSig
    then ClassifyFlashExecutionBid(f, tx.data)
    else NORMAL
  }

  function ClassifyFlashExecutionBid(f: FilterConfig, data: Bytes): Classification {
    if |data| < 4 then NORMAL
    else
      match f.unpack(data[4..])
      case None => NORMAL
      case Some(args) =>
        if |args| < 2 || !args[0].AbiUint? || !args[1].AbiHashes? then NORMAL
        else ClassifyBid(args[0].n, args[1].hashes)
  }

  function ClassifyBid(bidAmount: nat, txHashes: seq<Hash>): Classification {
    if |txHashes| == 0 || txHashes[|txHashes| - 1] != ZeroHash() then NORMAL
    else if |txHashes| == 1 then Classification(TobBid, Some(BidData(Some(bidAmount), None)))
    else if |txHashes| == 2 then Classification(BackrunBid, Some(BidData(Some(bidAmount), Some(txHashes[0]))))
    else NORMAL
  }

  /** Calldata of a call to the auction contract whose first two arguments are these. */
  predicate CallsFlashBid(f: FilterConfig, tx: Tx, amount: nat, hashes: seq<Hash>) {
    && tx.to == Some(f.fastlaneContract)
    && f.flashBidMethodSig <= tx.data
    && f.unpack(tx.data[|f.flashBidMethodSig|..]).Some?
    && NamesBid(f.unpack(tx.data[|f.flashBidMethodSig|..]).value, amount, hashes)
  }

  predicate NamesBid(args: seq<AbiValue>, amount: nat, hashes: seq<Hash>) {
    && |args| >= 2
    && args[0].AbiUint? && args[0].n == amount
    && args[1].AbiHashes? && args[1].hashes == hashes
  }

  /** A transaction is a top-of-block bid exactly when it calls the auction with the single zero
      hash, a backrun bid exactly when it does so with a target followed by the zero hash, and
      the bid data is always complete for its type. */
  lemma ClassificationExact(f: FilterConfig, tx: Tx)
    requires ValidFilter(f)
    ensures forall n: nat :: ClassifyTransaction(f, tx) == Classification(TobBid, Some(BidData(Some(n), None)))
                        <==> CallsFlashBid(f, tx, n, [ZeroHash()])
    ensures forall n: nat, h: Hash ::
              ClassifyTransaction(f, tx) == Classification(BackrunBid, Some(BidData(Some(n), Some(h))))
              <==> CallsFlashBid(f, tx, n, [h, ZeroHash()])
    ensures CompleteBid(ClassifyTransaction(f, tx))
  {
    if |tx.data| >= 4 {
      match f.unpack(tx.data[4..])
      case None =>
      case Some(args) =>
        if |args| >= 2 && args[1].AbiHashes? {
          var hs := args[1].hashes;
          assert |hs| == 1 && hs[0] == ZeroHash() ==> hs == [ZeroHash()];
          assert |hs| == 2 && hs[1] == ZeroHash() ==> hs == [hs[0], ZeroHash()];
        }
    }
  }

  predicate AllZero(h: Hash) {
    forall i :: 0 <= i < 32 ==> h[i] == 0
  }

  lemma ZeroHashIs(h: Hash)
    ensures h == ZeroHash() <==> AllZero(h)
  {
    if AllZero(h) {
      assert forall i :: 0 <= i < 32 ==> h[i] == ZeroHash()[i];
    }
  }

  /** The same by the bytes of the hashes: of the calls that name these, a bid of either kind exactly
      when the last hash is 32 zero bytes and it comes alone or after one target. */
  lemma ClassificationByBytes(f: FilterConfig, tx: Tx, n: nat, hashes: seq<Hash>)
    requires ValidFilter(f) && CallsFlashBid(f, tx, n, hashes)
    ensures var c := ClassifyTransaction(f, tx);
            && (c.txType == TobBid <==> |hashes| == 1 && AllZero(hashes[0]))
            && (c.txType == BackrunBid <==> |hashes| == 2 && AllZero(hashes[1]))
            && (c.txType == TobBid ==> c.bid == Some(BidData(Some(n), None)))
            && (c.txType == BackrunBid ==> c.bid == Some(BidData(Some(n), Some(hashes[0]))))
            && (c.txType == NormalTransaction ==> c.bid == None)
  {
    if hashes != [] {
      ZeroHashIs(hashes[|hashes| - 1]);
    }
    hide ZeroHash, AllZero;
  }

  /** Only transactions that make such a call are bids. */
  lemma BidsAreCalls(f: FilterConfig, tx: Tx) returns (n: nat, hashes: seq<Hash>)
    requires ValidFilter(f) && ClassifyTransaction(f, tx) != NORMAL
    ensures CallsFlashBid(f, tx, n, hashes)
  {
    var args := f.unpack(tx.data[4..]).value;
    n, hashes := args[0].n, args[1].hashes;
  }

  /** The only shapes the rest of the sidecar sees. */
  predicate CompleteBid(c: Classification) {
    match c.txType
    case NormalTransaction => c.bid == None
    case TobBid => c.bid.Some? && c.bid.value.amount.Some? && c.bid.value.target.None?
    case BackrunBid => c.bid.Some? && c.bid.value.amount.Some? && c.bid.value.target.Some?
  }
}
