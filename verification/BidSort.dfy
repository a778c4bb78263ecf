/** Sorting backrun bids by amount, highest first, bids without data last. */
module BidSort {
  import opened Prelude
  import opened Filter
  import opened Pool
  import P = Priorities

  /** The amount a bid is sorted by; missing when there is no bid data or no amount. */
  function Amount(bidData: map<Hash, Option<BidData>>, h: Hash): Option<nat> {
    if h in bidData && bidData[h].Some? then bidData[h].value.amount else None
  }

  /** The comparator handed to the library sort. */
  predicate Less(a: Option<nat>, b: Option<nat>) {
    if a.None? then false else if b.None? then true else a.value > b.value
  }

  /** The comparator is a strict weak order, so the sort is well defined. */
  lemma LessIsStrictWeakOrder(a: Option<nat>, b: Option<nat>, c: Option<nat>)
    ensures !Less(a, a)
    ensures Less(a, b) ==> !Less(b, a)
    ensures Less(a, b) && Less(b, c) ==> Less(a, c)
    ensures Less(a, c) ==> Less(a, b) || Less(b, c)
    ensures !Less(a, b) && !Less(b, a) <==> a == b
  {
  }

  /** Nothing later in a slice is to be sorted before something earlier. */
  ghost predicate Ordered(amounts: seq<Option<nat>>) {
    forall i, j :: 0 <= i < j < |amounts| ==> !Less(amounts[j], amounts[i])
  }

  function Amounts(bidData: map<Hash, Option<BidData>>, bids: seq<PooledTransaction>): (amounts: seq<Option<nat>>)
    ensures |amounts| == |bids| && forall i :: 0 <= i < |bids| ==> amounts[i] == Amount(bidData, bids[i].hash)
  {
    if bids == [] then [] else [Amount(bidData, bids[0].hash)] + Amounts(bidData, bids[1..])
  }

  /** Insertion sort in place, as the library does on short slices. */
  method SortBackrunBidsByPriority(bids: array<PooledTransaction>, bidData: map<Hash, Option<BidData>>)
    modifies bids
    ensures Ordered(Amounts(bidData, bids[..]))
    ensures multiset(bids[..]) == multiset(old(bids[..]))
  {
    for i := 0 to bids.Length
      invariant Ordered(Amounts(bidData, bids[..])[..i])
      invariant multiset(bids[..]) == multiset(old(bids[..]))
    {
      Insert(bids, bidData, i);
    }
    ghost var amounts := Amounts(bidData, bids[..]);
    assert amounts[..bids.Length] == amounts;
  }

  /** Exchanges neighbours. */
  method Swap(bids: array<PooledTransaction>, j: nat)
    requires 0 < j < bids.Length
    modifies bids
    ensures bids[..] == Swapped(old(bids[..]), j)
    ensures multiset(bids[..]) == multiset(old(bids[..]))
  {
    bids[j], bids[j - 1] := bids[j - 1], bids[j];
  }

  function Swapped<T>(s: seq<T>, j: nat): seq<T>
    requires 0 < j < |s|
  {
    s[j := s[j - 1]][j - 1 := s[j]]
  }

  /** Ordered up to i but for the element at j, which may belong further down. */
  ghost predicate OrderedBut(amounts: seq<Option<nat>>, i: nat, j: nat)
    requires i < |amounts|
  {
    forall k, l :: 0 <= k < l <= i && l != j ==> !Less(amounts[l], amounts[k])
  }

  lemma UnsettledIsOrderedBut(amounts: seq<Option<nat>>, i: nat)
    requires i < |amounts| && Ordered(amounts[..i])
    ensures OrderedBut(amounts, i, i)
  {
    assert forall k, l :: 0 <= k < l < i ==> amounts[k] == amounts[..i][k] && amounts[l] == amounts[..i][l];
  }

  lemma SwapKeeps(amounts: seq<Option<nat>>, i: nat, j: nat)
    requires 0 < j <= i < |amounts| && OrderedBut(amounts, i, j) && Less(amounts[j], amounts[j - 1])
    ensures OrderedBut(Swapped(amounts, j), i, j - 1)
  {
  }

  lemma SettledIsOrdered(amounts: seq<Option<nat>>, i: nat, j: nat)
    requires j <= i < |amounts| && OrderedBut(amounts, i, j)
    requires j == 0 || !Less(amounts[j], amounts[j - 1])
    ensures Ordered(amounts[..i + 1])
  {
    forall k | 0 <= k < j
      ensures !Less(amounts[j], amounts[k])
    {
      if k < j - 1 {
        assert !Less(amounts[j - 1], amounts[k]);
      }
    }
  }

  lemma AmountsOfSwapped(bidData: map<Hash, Option<BidData>>, bids: seq<PooledTransaction>, j: nat)
    requires 0 < j < |bids|
    ensures Amounts(bidData, Swapped(bids, j)) == Swapped(Amounts(bidData, bids), j)
  {
  }

  /** Moves element i down to its place in the sorted prefix by adjacent swaps. */
  method Insert(bids: array<PooledTransaction>, bidData: map<Hash, Option<BidData>>, i: nat)
    requires i < bids.Length && Ordered(Amounts(bidData, bids[..])[..i])
    modifies bids
    ensures Ordered(Amounts(bidData, bids[..])[..i + 1])
    ensures multiset(bids[..]) == multiset(old(bids[..]))
  {
    hide Ordered, OrderedBut, Swapped;
    var j := i;
    ghost var amounts := Amounts(bidData, bids[..]);
    UnsettledIsOrderedBut(amounts, i);
    while j > 0 && Less(Amount(bidData, bids[j].hash), Amount(bidData, bids[j - 1].hash))
      invariant 0 <= j <= i && amounts == Amounts(bidData, bids[..]) && OrderedBut(amounts, i, j)
      invariant multiset(bids[..]) == multiset(old(bids[..]))
    {
      assert amounts[j] == Amount(bidData, bids[j].hash) && amounts[j - 1] == Amount(bidData, bids[j - 1].hash);
      SwapKeeps(amounts, i, j);
      AmountsOfSwapped(bidData, bids[..], j);
      Swap(bids, j);
      amounts := Swapped(amounts, j);
      j := j - 1;
    }
    SettledIsOrdered(amounts, i, j);
  }

  /** In an ordered slice the amounts descend and missing amounts come last. */
  lemma OrderedMeansDescending(amounts: seq<Option<nat>>, i: nat, j: nat)
    requires Ordered(amounts) && i < j < |amounts|
    ensures amounts[i].None? ==> amounts[j].None?
    ensures amounts[j].Some? ==> amounts[i].Some? && amounts[i].value >= amounts[j].value
  {
    assert !Less(amounts[j], amounts[i]);
  }

  /** Along an ordered slice of bids below 2^128 for one target, the priorities never rise. */
  lemma OrderedMeansFallingPriority(amounts: seq<Option<nat>>, target: Hash, i: nat, j: nat)
    requires Ordered(amounts) && i < j < |amounts|
    requires amounts[i].Some? && amounts[j].Some? && amounts[i].value < P.BID_UNIT
    ensures P.ComparePriorities(P.Value(P.BackrunBid(amounts[i].value, target)),
                                P.Value(P.BackrunBid(amounts[j].value, target))) >= 0
  {
    OrderedMeansDescending(amounts, i, j);
    P.OrderIsLexicographic(P.BackrunBid(amounts[i].value, target), P.BackrunBid(amounts[j].value, target));
  }

  /** In general, from one place of an ordered slice to a later one the priority rises exactly when
      the low 128 bits of the amount do. */
  lemma PriorityRisesExactly(amounts: seq<Option<nat>>, target: Hash, i: nat, j: nat)
    requires Ordered(amounts) && i < j < |amounts| && amounts[j].Some?
    ensures amounts[i].Some?
    ensures P.Value(P.BackrunBid(amounts[j].value, target)) > P.Value(P.BackrunBid(amounts[i].value, target))
       <==> amounts[j].value % P.BID_UNIT > amounts[i].value % P.BID_UNIT
  {
    OrderedMeansDescending(amounts, i, j);
    P.OrderIsLexicographic(P.BackrunBid(amounts[j].value, target), P.BackrunBid(amounts[i].value, target));
  }

  /** The sort compares whole amounts and the priority keeps 128 bits: a bid of 2^128 is sorted before
      a bid of 1 and gets the lower priority. */
  lemma HugeBidSortsFirstRanksLast(target: Hash)
    ensures Ordered([Some(P.BID_UNIT), Some(1)])
    ensures P.Value(P.BackrunBid(1, target)) > P.Value(P.BackrunBid(P.BID_UNIT, target))
  {
    hide P.Value;
    PriorityRisesExactly([Some(P.BID_UNIT), Some(1)], target, 0, 1);
  }

  /** What the order means for the bids themselves: if a later one has an amount, so has every earlier
      one, and it is no smaller. */
  lemma SortedBids(bids: seq<PooledTransaction>, bidData: map<Hash, Option<BidData>>, i: nat, j: nat, amount: nat)
    requires Ordered(Amounts(bidData, bids)) && i < j < |bids|
    requires bids[j].hash in bidData && bidData[bids[j].hash].Some?
    requires bidData[bids[j].hash].value.amount == Some(amount)
    ensures bids[i].hash in bidData && bidData[bids[i].hash].Some? && bidData[bids[i].hash].value.amount.Some?
    ensures bidData[bids[i].hash].value.amount.value >= amount
  {
    OrderedMeansDescending(Amounts(bidData, bids), i, j);
  }
}
