/** The printed form of a priority and the parser that recovers what was printed. */
module PriorityText {
  import opened Prelude
  import opened Bits
  import opened Priorities
  import Decimal

  const TOB_HEAD := "TopOfBlock(bid="
  const OPPORTUNITY_HEAD := "Backrun(opportunity, backrun_id="
  const BID_HEAD := "Backrun(bid="
  const BID_MIDDLE := ", backrun_id="
  const TAIL := ")"

  /** The fields a printed priority names. */
  datatype Printed = TopOfBlock(bid: nat) | OpportunityOf(id: nat) | BidOf(bid: nat, id: nat)

  /** The three string forms. */
  function Write(f: Printed): string {
    match f
    case TopOfBlock(bid) => TOB_HEAD + (Decimal.Print(bid) + TAIL)
    case OpportunityOf(id) => OPPORTUNITY_HEAD + (Decimal.Print(id) + TAIL)
    case BidOf(bid, id) => BID_HEAD + (Decimal.Print(bid) + (BID_MIDDLE + (Decimal.Print(id) + TAIL)))
  }

  /** Bit tests, masks and shifts choose the form and its numbers. */
  function ReadFields(p: nat): Printed {
    if Bit(p, 255) == 1 then TopOfBlock(And(p, SetBit(0, 128) - 1))
    else if Bit(p, 128) == 1 then OpportunityOf(Rsh(p, 129))
    else BidOf(And(p, SetBit(0, 128) - 1), Rsh(p, 129))
  }

  function FormatPriority(priority: Option<nat>): string {
    match priority
    case None => "Invalid(nil)"
    case Some(p) => Write(ReadFields(p))
  }

  /** The bit fields of any natural number, by plain arithmetic. */
  function Fields(p: nat): Printed {
    if (p / TOB_UNIT) % 2 == 1 then TopOfBlock(p % BID_UNIT)
    else if (p / BID_UNIT) % 2 == 1 then OpportunityOf(p / GROUP_UNIT)
    else BidOf(p % BID_UNIT, p / GROUP_UNIT)
  }

  /** A decimal number at the front of a string, and what follows it. */
  function ParseNumber(s: string): Option<(nat, string)> {
    var k := Decimal.DigitRun(s);
    if k == 0 then None else Some((Decimal.Value(s[..k]), s[k..]))
  }

  function ParsePriority(s: string): Option<Printed> {
    if TOB_HEAD <= s then
      var bid := ParseNumber(s[|TOB_HEAD|..]);
      if bid.Some? && bid.value.1 == TAIL then Some(TopOfBlock(bid.value.0)) else None
    else if OPPORTUNITY_HEAD <= s then
      var id := ParseNumber(s[|OPPORTUNITY_HEAD|..]);
      if id.Some? && id.value.1 == TAIL then Some(OpportunityOf(id.value.0)) else None
    else if BID_HEAD <= s then
      var bid := ParseNumber(s[|BID_HEAD|..]);
      if bid.Some? && BID_MIDDLE <= bid.value.1 then
        var id := ParseNumber(bid.value.1[|BID_MIDDLE|..]);
        if id.Some? && id.value.1 == TAIL then Some(BidOf(bid.value.0, id.value.0)) else None
      else None
    else None
  }

  /** The bit tests, the shift and the mask read the arithmetic fields. */
  lemma FieldsRead(p: nat)
    ensures ReadFields(p) == Fields(p)
  {
    MaskedBid(p);
    Weights();
    BitAt(p, 255, TOB_UNIT);
    BitAt(p, 128, BID_UNIT);
    RshBy(p, 129, GROUP_UNIT);
  }

  lemma ParseNumberOfPrint(n: nat, rest: string)
    requires rest != [] && !Decimal.IsDigit(rest[0])
    ensures ParseNumber(Decimal.Print(n) + rest) == Some((n, rest))
  {
    Decimal.DigitRunOfPrint(n, rest);
    Decimal.PrintRoundTrip(n);
  }

  lemma HeadsDiffer(rest: string)
    ensures !(TOB_HEAD <= OPPORTUNITY_HEAD + rest)
    ensures !(TOB_HEAD <= BID_HEAD + rest)
    ensures !(OPPORTUNITY_HEAD <= BID_HEAD + rest)
  {
    assert TOB_HEAD[0] == 'T' && (OPPORTUNITY_HEAD + rest)[0] == 'B' && (BID_HEAD + rest)[0] == 'B';
    assert OPPORTUNITY_HEAD[8] == 'o' && (BID_HEAD + rest)[8] == 'b';
  }

  lemma Behind(head: string, rest: string)
    ensures head <= head + rest && (head + rest)[|head|..] == rest
  {
  }

  lemma TopOfBlockParses(bid: nat)
    ensures ParsePriority(Write(TopOfBlock(bid))) == Some(TopOfBlock(bid))
  {
    hide Decimal.Print, ParseNumber;
    ParseNumberOfPrint(bid, TAIL);
    Behind(TOB_HEAD, Decimal.Print(bid) + TAIL);
  }

  lemma OpportunityParses(id: nat)
    ensures ParsePriority(Write(OpportunityOf(id))) == Some(OpportunityOf(id))
  {
    hide Decimal.Print, ParseNumber;
    HeadsDiffer(Decimal.Print(id) + TAIL);
    ParseNumberOfPrint(id, TAIL);
    Behind(OPPORTUNITY_HEAD, Decimal.Print(id) + TAIL);
  }

  lemma BidParses(bid: nat, id: nat)
    ensures ParsePriority(Write(BidOf(bid, id))) == Some(BidOf(bid, id))
  {
    hide Decimal.Print, ParseNumber;
    var end := Decimal.Print(id) + TAIL;
    var mid := BID_MIDDLE + end;
    HeadsDiffer(Decimal.Print(bid) + mid);
    ParseNumberOfPrint(id, TAIL);
    ParseNumberOfPrint(bid, mid);
    Behind(BID_HEAD, Decimal.Print(bid) + mid);
    Behind(BID_MIDDLE, end);
  }

  lemma WriteParses(f: Printed)
    ensures ParsePriority(Write(f)) == Some(f)
  {
    hide ParsePriority, Write;
    match f
    case TopOfBlock(bid) => TopOfBlockParses(bid);
    case OpportunityOf(id) => OpportunityParses(id);
    case BidOf(bid, id) => BidParses(bid, id);
  }

  /** Parsing a printed priority recovers its marker, id and masked bid, for every number. */
  lemma FormatParses(p: nat)
    ensures ParsePriority(FormatPriority(Some(p))) == Some(Fields(p))
  {
    FieldsRead(p);
    WriteParses(Fields(p));
  }

  /** Two numbers print alike exactly when their printed fields agree, and nil prints apart. */
  lemma FormatAmbiguity(p: nat, q: nat)
    ensures FormatPriority(Some(p)) == FormatPriority(Some(q)) <==> Fields(p) == Fields(q)
    ensures FormatPriority(Some(p)) != FormatPriority(None)
  {
    FormatParses(p);
    FormatParses(q);
    FieldsRead(p);
    FieldsRead(q);
    assert FormatPriority(None)[0] == 'I';
    assert Write(Fields(p))[0] != 'I';
  }

  /** The fields of a computed priority, from its key. */
  function PrintedOf(k: Key): Printed {
    if k.tob == 1 then TopOfBlock(k.bid)
    else if k.opportunity == 1 then OpportunityOf(k.group)
    else BidOf(k.bid, k.group)
  }

  lemma ComputedFields(p: Source)
    ensures Fields(Value(p)) == PrintedOf(KeyOf(p))
  {
    KeyInRange(p);
    FieldsOfPack(KeyOf(p));
  }

  lemma FieldsOfPack(k: Key)
    requires InRange(k) && (k.tob == 1 ==> k.group == 0 && k.opportunity == 0)
    ensures Fields(Pack(k)) == PrintedOf(k)
  {
    TopBit(k);
    if k.tob == 0 {
      LowFields(k);
    }
    var p := Pack(k);
    hide Pack;
    assert k.tob == 1 ==> p % BID_UNIT == k.bid;
  }

  lemma TopBit(k: Key)
    requires InRange(k) && (k.tob == 1 ==> k.group == 0 && k.opportunity == 0)
    ensures (Pack(k) / TOB_UNIT) % 2 == k.tob
    ensures k.tob == 1 ==> Pack(k) % BID_UNIT == k.bid
  {
  }

  lemma LowFields(k: Key)
    requires InRange(k) && k.tob == 0
    ensures Pack(k) / GROUP_UNIT == k.group && (Pack(k) / BID_UNIT) % 2 == k.opportunity && Pack(k) % BID_UNIT == k.bid
  {
    assert Pack(k) / BID_UNIT == 2 * k.group + k.opportunity;
  }

  /** On computed priorities the printed form is unambiguous: different priorities print
      differently, and the printed form names the key. */
  lemma ComputedPrioritiesPrintApart(p: Source, q: Source)
    ensures FormatPriority(Some(Value(p))) == FormatPriority(Some(Value(q))) <==> Value(p) == Value(q)
    ensures ParsePriority(FormatPriority(Some(Value(p)))) == Some(PrintedOf(KeyOf(p)))
  {
    ComputedFields(p);
    ComputedFields(q);
    FormatParses(Value(p));
    FormatAmbiguity(Value(p), Value(q));
    ValueDeterminesKey(p, q);
  }

  /** The printed forms, word for word, around whatever numbers they name. */
  lemma PrintedForms(p: nat)
    ensures FormatPriority(None) == "Invalid(nil)"
    ensures var id, bid := Decimal.Print(p / GROUP_UNIT), Decimal.Print(p % BID_UNIT);
            FormatPriority(Some(p))
            == if Bit(p, 255) == 1 then "TopOfBlock(bid=" + bid + ")"
               else if Bit(p, 128) == 1 then "Backrun(opportunity, backrun_id=" + id + ")"
               else "Backrun(bid=" + bid + ", backrun_id=" + id + ")"
  {
    ReadsAs(p);
    hide Bit, And, Rsh, SetBit, ReadFields, Decimal.Print;
    var bid, id := Decimal.Print(p % BID_UNIT), Decimal.Print(p / GROUP_UNIT);
    WrittenForms(bid, id);
  }

  lemma ReadsAs(p: nat)
    ensures ReadFields(p)
         == if Bit(p, 255) == 1 then TopOfBlock(p % BID_UNIT)
            else if Bit(p, 128) == 1 then OpportunityOf(p / GROUP_UNIT)
            else BidOf(p % BID_UNIT, p / GROUP_UNIT)
  {
    MaskedBid(p);
    Weights();
    RshBy(p, 129, GROUP_UNIT);
    hide Pow2, Bit, And, Rsh, SetBit;
  }

  lemma WrittenForms(bid: string, id: string)
    ensures TOB_HEAD + (bid + TAIL) == "TopOfBlock(bid=" + bid + ")"
    ensures OPPORTUNITY_HEAD + (id + TAIL) == "Backrun(opportunity, backrun_id=" + id + ")"
    ensures BID_HEAD + (bid + (BID_MIDDLE + (id + TAIL))) == "Backrun(bid=" + bid + ", backrun_id=" + id + ")"
  {
  }
}
