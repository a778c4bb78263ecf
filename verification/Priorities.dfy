/** The 256-bit priority layout: the calculators and the order of what they compute. */
module Priorities {
  import opened Prelude
  import opened Endian
  import opened Bits

  // Weights of the fields: a bid takes 128 bits, a backrun id 126 bits of a 256-bit hash.
  const BID_UNIT: nat := 0x1_00000000_00000000_00000000_00000000
  const GROUP_UNIT: nat := 0x2_00000000_00000000_00000000_00000000
  const HASH_TAIL: nat := 0x4_00000000_00000000_00000000_00000000
  const GROUP_LIMIT: nat := 0x40000000_00000000_00000000_00000000
  const TOB_UNIT: nat := 0x80000000_00000000_00000000_00000000_00000000_00000000_00000000_00000000
  const PRIORITY_LIMIT: nat := 0x1_00000000_00000000_00000000_00000000_00000000_00000000_00000000_00000000

  // ----- calculators ---------------------------------------------------------------

  /** The backrun id: the top 126 bits of the hash read as a big-endian integer. */
  function ExtractBackrunId(txHash: Hash): nat {
    Rsh(FromBE(txHash), 256 - 126)
  }

  /** Top-of-block bid: marker bit 255, bid in the low 128 bits. */
  method CalculateTobPriority(bidAmount: nat) returns (priority: nat)
    ensures priority == Value(TobBid(bidAmount))
  {
    priority := 0;
    priority := SetBit(priority, 255);
    var mask := 0;
    mask := SetBit(mask, 128);
    TobLayout(bidAmount);
    mask := mask - 1;
    var maskedBid := And(bidAmount, mask);
    priority := Or(priority, maskedBid);
  }

  /** Opportunity: backrun id in bits 254-129, marker bit 128. */
  method CalculateOpportunityPriority(txHash: Hash) returns (priority: nat)
    ensures priority == Value(Opportunity(txHash))
  {
    priority := 0;
    var backrunId := ExtractBackrunId(txHash);
    var shiftedId := Lsh(backrunId, 129);
    priority := Or(priority, shiftedId);
    priority := SetBit(priority, 128);
    OpportunityLayout(txHash);
  }

  /** Backrun bid: the target's backrun id in bits 254-129, bid in the low 128 bits. */
  method CalculateBackrunPriority(bidAmount: nat, oppTxHash: Hash) returns (priority: nat)
    ensures priority == Value(BackrunBid(bidAmount, oppTxHash))
  {
    priority := 0;
    var backrunId := ExtractBackrunId(oppTxHash);
    var shiftedId := Lsh(backrunId, 129);
    priority := Or(priority, shiftedId);
    var mask := 0;
    mask := SetBit(mask, 128);
    BackrunLayout(bidAmount, oppTxHash);
    mask := mask - 1;
    var maskedBid := And(bidAmount, mask);
    priority := Or(priority, maskedBid);
  }

  function ComparePriorities(a: nat, b: nat): int {
    if a > b then 1 else if a < b then -1 else 0
  }

  // ----- the intended order ----------------------------------------------------------

  /** What a computed priority was computed from. */
  datatype Source = TobBid(bid: nat) | Opportunity(tx: Hash) | BackrunBid(bid: nat, target: Hash)

  /** The intended significance: marker, group, opportunity marker, bid. */
  datatype Key = Key(tob: nat, group: nat, opportunity: nat, bid: nat)

  /** The key a priority stands for, read off its source without any bit operation. */
  function KeyOf(p: Source): Key {
    match p
    case TobBid(bid) => Key(1, 0, 0, bid % BID_UNIT)
    case Opportunity(tx) => Key(0, Group(tx), 1, 0)
    case BackrunBid(bid, target) => Key(0, Group(target), 0, bid % BID_UNIT)
  }

  /** The first 126 of the 256 bits of a hash. */
  function Group(h: Hash): nat {
    FromBE(h) / HASH_TAIL
  }

  /** The number a key is laid out as. */
  function Pack(k: Key): nat {
    k.tob * TOB_UNIT + k.group * GROUP_UNIT + k.opportunity * BID_UNIT + k.bid
  }

  function Value(p: Source): nat {
    Pack(KeyOf(p))
  }

  /** Comparison component by component, most significant first. */
  function CompareKeys(a: Key, b: Key): int {
    if a.tob != b.tob then ComparePriorities(a.tob, b.tob)
    else if a.group != b.group then ComparePriorities(a.group, b.group)
    else if a.opportunity != b.opportunity then ComparePriorities(a.opportunity, b.opportunity)
    else ComparePriorities(a.bid, b.bid)
  }

  ghost predicate InRange(k: Key) {
    k.tob <= 1 && k.opportunity <= 1 && k.group < GROUP_LIMIT && k.bid < BID_UNIT
  }

  // ----- layout ------------------------------------------------------------------------

  lemma Weights()
    ensures Pow2(128) == BID_UNIT && Pow2(129) == GROUP_UNIT && Pow2(130) == HASH_TAIL
    ensures Pow2(126) == GROUP_LIMIT && Pow2(255) == TOB_UNIT && Pow2(256) == PRIORITY_LIMIT
  {
    assert Pow2(8) == 0x100;
    Squared(8, 0x100, 0x1_0000);
    Squared(16, 0x1_0000, 0x1_0000_0000);
    Squared(32, 0x1_0000_0000, 0x1_0000_0000_0000_0000);
    Squared(64, 0x1_0000_0000_0000_0000, BID_UNIT);
    Squared(128, BID_UNIT, PRIORITY_LIMIT);
    Doubled(126);
    Doubled(127);
    Doubled(128);
    Doubled(129);
    Doubled(255);
  }

  lemma Squared(k: nat, p: nat, square: nat)
    requires Pow2(k) == p && p * p == square
    ensures Pow2(2 * k) == square
  {
    Pow2Add(k, k);
  }

  lemma Doubled(k: nat)
    ensures Pow2(k + 1) == 2 * Pow2(k)
  {
  }

  lemma {:induction false} Pow256IsPow2(k: nat)
    ensures Pow256(k) == Pow2(8 * k)
  {
    if k > 0 {
      Pow256IsPow2(k - 1);
      Pow2Add(8, 8 * (k - 1));
      assert Pow2(8) == 256;
    }
  }

  /** A backrun id takes at most 126 bits. */
  lemma GroupBound(h: Hash)
    ensures ExtractBackrunId(h) == Group(h) < GROUP_LIMIT
  {
    Weights();
    RshBy(FromBE(h), 130, HASH_TAIL);
    FromBEBound(h);
    Pow256IsPow2(32);
  }

  lemma MaskedBid(bid: nat)
    ensures SetBit(0, 128) == BID_UNIT
    ensures And(bid, BID_UNIT - 1) == bid % BID_UNIT
  {
    Weights();
    MaskLow(bid, 128, BID_UNIT);
  }

  lemma TobMarker()
    ensures SetBit(0, 255) == TOB_UNIT
  {
    Weights();
    MaskLow(0, 255, TOB_UNIT);
  }

  lemma OrBid(hi: nat, bid: nat)
    ensures Or(hi * BID_UNIT, bid % BID_UNIT) == hi * BID_UNIT + bid % BID_UNIT
  {
    Weights();
    OrLow(hi, 128, BID_UNIT, bid % BID_UNIT);
  }

  lemma TobLayout(bid: nat)
    ensures SetBit(0, 128) == BID_UNIT
    ensures Or(SetBit(0, 255), And(bid, BID_UNIT - 1)) == Value(TobBid(bid))
  {
    MaskedBid(bid);
    TobMarker();
    OrBid(0x80000000_00000000_00000000_00000000, bid);
  }

  lemma OpportunityLayout(h: Hash)
    ensures SetBit(Or(0, Lsh(ExtractBackrunId(h), 129)), 128) == Value(Opportunity(h))
  {
    GroupBound(h);
    Weights();
    LshBy(Group(h), 129, GROUP_UNIT);
    BitAt(Group(h) * GROUP_UNIT, 128, BID_UNIT);
    SetBitAdds(Group(h) * GROUP_UNIT, 128);
  }

  lemma BackrunLayout(bid: nat, h: Hash)
    ensures SetBit(0, 128) == BID_UNIT
    ensures Or(Or(0, Lsh(ExtractBackrunId(h), 129)), And(bid, BID_UNIT - 1)) == Value(BackrunBid(bid, h))
  {
    GroupBound(h);
    MaskedBid(bid);
    Weights();
    LshBy(Group(h), 129, GROUP_UNIT);
    OrLow(Group(h), 129, GROUP_UNIT, bid % BID_UNIT);
  }

  lemma KeyInRange(p: Source)
    ensures InRange(KeyOf(p))
  {
    match p
    case TobBid(bid) =>
    case Opportunity(tx) => GroupBound(tx);
    case BackrunBid(bid, target) => GroupBound(target);
  }

  // ----- numeric order is lexicographic order --------------------------------------------

  lemma PackOrder(a: Key, b: Key)
    requires InRange(a) && InRange(b)
    ensures CompareKeys(a, b) == 1 ==> Pack(a) > Pack(b)
    ensures Pack(a) < PRIORITY_LIMIT
  {
  }

  /** Comparing two computed priorities as 256-bit numbers is comparing their keys. */
  lemma OrderIsLexicographic(p: Source, q: Source)
    ensures ComparePriorities(Value(p), Value(q)) == CompareKeys(KeyOf(p), KeyOf(q))
    ensures Value(p) < PRIORITY_LIMIT
  {
    KeyInRange(p);
    KeyInRange(q);
    PackOrder(KeyOf(p), KeyOf(q));
    PackOrder(KeyOf(q), KeyOf(p));
  }

  /** Every top-of-block bid outranks every opportunity and every backrun bid. */
  lemma TobOutranksBackruns(bid: nat, p: Source)
    requires !p.TobBid?
    ensures Value(TobBid(bid)) > Value(p)
  {
    OrderIsLexicographic(TobBid(bid), p);
  }

  /** Groups are contiguous: nothing of another group, and no top-of-block bid, lies between
      two members of a group. */
  lemma GroupsDoNotInterleave(p: Source, r: Source, q: Source)
    requires !p.TobBid? && !q.TobBid? && KeyOf(p).group == KeyOf(q).group
    requires Value(p) <= Value(r) <= Value(q)
    ensures !r.TobBid? && KeyOf(r).group == KeyOf(p).group
  {
    OrderIsLexicographic(p, r);
    OrderIsLexicographic(r, q);
  }

  /** The opportunity outranks every bid of its group, so it is placed before all of them. */
  lemma OpportunityLeadsGroup(tx: Hash, bid: nat, target: Hash)
    requires Group(tx) == Group(target)
    ensures Value(Opportunity(tx)) > Value(BackrunBid(bid, target))
  {
    OrderIsLexicographic(Opportunity(tx), BackrunBid(bid, target));
  }

  /** Equal priorities come from equal keys. */
  lemma ValueDeterminesKey(p: Source, q: Source)
    ensures Value(p) == Value(q) <==> KeyOf(p) == KeyOf(q)
  {
    OrderIsLexicographic(p, q);
  }

  /** The three priorities as numbers: a top-of-block bid is 2^255 plus the low 128 bits of the bid;
      an opportunity is the top 126 bits of the hash above bit 129, plus 2^128; a backrun bid is those
      bits of its target plus the low 128 bits of the bid. */
  lemma PriorityNumbers(bid: nat, h: Hash)
    ensures Value(TobBid(bid)) == Pow2(255) + bid % Pow2(128)
    ensures Value(Opportunity(h)) == FromBE(h) / Pow2(130) * Pow2(129) + Pow2(128)
    ensures Value(BackrunBid(bid, h)) == FromBE(h) / Pow2(130) * Pow2(129) + bid % Pow2(128)
  {
    Weights();
    hide Pow2, FromBE;
  }
}
