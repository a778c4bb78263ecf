/** The bincode event stream: a reference encoder and parser, what each makes of the other's
    output, and prefix-freeness. */
module Bincode {
  import opened Prelude
  import opened Endian
  import Decimal

  // ----- decoded values --------------------------------------------------------------

  datatype Action =
    | Insert(address: Address, owned: bool, tx: Tx, originalRlp: Bytes)
    | Commit
    | Drop(reason: string)
    | Evict(reason: string)

  datatype Event = Event(txHash: Hash, action: Action)

  /** Why a decode did not succeed. A panic is an index out of range, or an allocation the
      runtime refuses. */
  datatype Failure = Short | BadLength(length: nat) | BadTransaction | UnknownVariant(variant: nat) | Panic

  datatype Outcome<+T> = Ok(value: T) | Fail(error: Failure) {
    predicate IsFailure() {
      Fail?
    }

    function PropagateFailure<U>(): Outcome<U>
      requires Fail?
    {
      Fail(error)
    }

    function Extract(): T
      requires Ok?
    {
      value
    }
  }

  /** The runtime the decoders run on: the two transaction readers of the library, tried in
      order, and the largest slices of events and of hashes it allocates. */
  datatype Runtime = Runtime(
    unmarshalBinary: Bytes -> Option<Tx>,
    decodeRlp: Bytes -> Option<Tx>,
    maxEvents: nat,
    maxHashes: nat)
  {
    function ReadTx(b: Bytes): Option<Tx> {
      match unmarshalBinary(b)
      case Some(tx) => Some(tx)
      case None => decodeRlp(b)
    }
  }

  // ----- wire values -------------------------------------------------------------------

  datatype DropReason =
    | NotWellFormed(detail: nat)
    | InvalidSignature
    | NonceTooLow
    | FeeTooLow
    | InsufficientBalance
    | ExistingHigherPriority
    | ReplacedByHigherPriority(replacement: Hash)
    | PoolFull
    | PoolNotReady
    | Internal(detail: nat)
    | OtherReason(variant: nat)

  datatype WireAction =
    | WireInsert(address: Address, owned: bool, txBytes: Bytes)
    | WireCommit
    | WireDrop(reason: DropReason)
    | WireEvict(variant: nat)

  datatype WireEvent = WireEvent(txHash: Hash, action: WireAction)

  const U32_LIMIT: nat := 0x1_0000_0000
  const U64_LIMIT: nat := 0x1_0000_0000_0000_0000
  const INT_LIMIT: nat := 0x8000_0000_0000_0000

  function U32(n: nat): Bytes {
    ToLE(n, 4)
  }

  function U64(n: nat): Bytes {
    ToLE(n, 8)
  }

  function EncodeReason(r: DropReason): Bytes {
    match r
    case NotWellFormed(detail) => U32(0) + U32(detail)
    case InvalidSignature => U32(1)
    case NonceTooLow => U32(2)
    case FeeTooLow => U32(3)
    case InsufficientBalance => U32(4)
    case ExistingHigherPriority => U32(5)
    case ReplacedByHigherPriority(replacement) => U32(6) + (U64(32) + replacement)
    case PoolFull => U32(7)
    case PoolNotReady => U32(8)
    case Internal(detail) => U32(9) + U32(detail)
    case OtherReason(variant) => U32(variant)
  }

  /** The body of an Insert as it lies on the wire, with any byte in the place of the owned flag. */
  function InsertBody(address: Address, flag: Byte, txBytes: Bytes): Bytes {
    U64(20) + (address + ([flag] + (U64(|txBytes|) + txBytes)))
  }

  function EncodeAction(a: WireAction): Bytes {
    match a
    case WireInsert(address, owned, txBytes) =>
      U32(0) + InsertBody(address, if owned then 1 else 0, txBytes)
    case WireCommit => U32(1)
    case WireDrop(reason) => U32(2) + EncodeReason(reason)
    case WireEvict(variant) => U32(3) + U32(variant)
  }

  function EncodeEvent(e: WireEvent): Bytes {
    U64(32) + (e.txHash + EncodeAction(e.action))
  }

  function EncodeSeq(es: seq<WireEvent>): Bytes {
    if es == [] then [] else EncodeEvent(es[0]) + EncodeSeq(es[1..])
  }

  function EncodeEvents(es: seq<WireEvent>): Bytes {
    U64(|es|) + EncodeSeq(es)
  }

  // ----- what the sidecar keeps of a wire value --------------------------------------------

  function ReasonText(r: DropReason): string {
    match r
    case NotWellFormed(_) => "not well formed"
    case InvalidSignature => "invalid signature"
    case NonceTooLow => "nonce too low"
    case FeeTooLow => "fee too low"
    case InsufficientBalance => "insufficient balance"
    case ExistingHigherPriority => "existing higher priority"
    case ReplacedByHigherPriority(_) => "replaced by higher priority"
    case PoolFull => "pool full"
    case PoolNotReady => "pool not ready"
    case Internal(_) => "internal error"
    case OtherReason(variant) => "unknown reason " + Decimal.Print(variant)
  }

  function EvictText(variant: nat): string {
    if variant == 0 then "expired" else "unknown evict reason " + Decimal.Print(variant)
  }

  predicate WellFormedReason(r: DropReason) {
    match r
    case NotWellFormed(detail) => detail < U32_LIMIT
    case Internal(detail) => detail < U32_LIMIT
    case OtherReason(variant) => 10 <= variant < U32_LIMIT
    case _ => true
  }

  /** A wire event the node can emit: numbers fit their fields, the transaction is readable. */
  predicate WellFormed(rt: Runtime, e: WireEvent) {
    match e.action
    case WireInsert(_, _, txBytes) => |txBytes| < INT_LIMIT && rt.ReadTx(txBytes).Some?
    case WireCommit => true
    case WireDrop(reason) => WellFormedReason(reason)
    case WireEvict(variant) => variant < U32_LIMIT
  }

  function Meaning(rt: Runtime, e: WireEvent): Event
    requires WellFormed(rt, e)
  {
    Event(e.txHash,
      match e.action
      case WireInsert(address, owned, txBytes) => Insert(address, owned, rt.ReadTx(txBytes).value, txBytes)
      case WireCommit => Commit
      case WireDrop(reason) => Drop(ReasonText(reason))
      case WireEvict(variant) => Evict(EvictText(variant)))
  }

  function Meanings(rt: Runtime, es: seq<WireEvent>): (events: seq<Event>)
    requires forall i :: 0 <= i < |es| ==> WellFormed(rt, es[i])
    ensures |events| == |es|
  {
    if es == [] then [] else [Meaning(rt, es[0])] + Meanings(rt, es[1..])
  }

  // ----- reference parser: a value and the bytes after it -----------------------------------

  function Need(c: bool, e: Failure): Outcome<()> {
    if c then Ok(()) else Fail(e)
  }

  function TakeBytes(d: Bytes, n: nat): Outcome<(Bytes, Bytes)> {
    if |d| < n then Fail(Short) else Ok((d[..n], d[n..]))
  }

  function TakeU32(d: Bytes): Outcome<(nat, Bytes)> {
    var (b, rest) :- TakeBytes(d, 4);
    Ok((FromLE(b), rest))
  }

  function TakeU64(d: Bytes): Outcome<(nat, Bytes)> {
    var (b, rest) :- TakeBytes(d, 8);
    Ok((FromLE(b), rest))
  }

  function ParseReason(d: Bytes): Outcome<(string, Bytes)> {
    var (variant, rest) :- TakeU32(d);
    ParseReasonData(variant, rest)
  }

  /** A drop reason's nested data, skipped. */
  function ParseReasonData(variant: nat, rest: Bytes): Outcome<(string, Bytes)> {
    match variant
    case 0 =>
      var (_, rest) :- TakeU32(rest);
      Ok(("not well formed", rest))
    case 1 => Ok(("invalid signature", rest))
    case 2 => Ok(("nonce too low", rest))
    case 3 => Ok(("fee too low", rest))
    case 4 => Ok(("insufficient balance", rest))
    case 5 => Ok(("existing higher priority", rest))
    case 6 =>
      // the length prefix is sliced without a bounds check
      var _ :- Need(|rest| >= 8, Panic);
      var (length, rest) :- TakeU64(rest);
      var _ :- Need(length == 32, BadLength(length));
      var (_, rest) :- TakeBytes(rest, 32);
      Ok(("replaced by higher priority", rest))
    case 7 => Ok(("pool full", rest))
    case 8 => Ok(("pool not ready", rest))
    case 9 =>
      var (_, rest) :- TakeU32(rest);
      Ok(("internal error", rest))
    case _ => Ok(("unknown reason " + Decimal.Print(variant), rest))
  }

  function ParseInsert(rt: Runtime, d: Bytes): Outcome<(Action, Bytes)> {
    var _ :- Need(|d| >= 8 + 20 + 1 + 8, Short);
    var (addressLen, d) :- TakeU64(d);
    var _ :- Need(addressLen == 20, BadLength(addressLen));
    var (address, d) :- TakeBytes(d, 20);
    var (owned, d) :- TakeBytes(d, 1);
    var (txLen, d) :- TakeU64(d);
    // a length of 2^63 or more turns negative and the slice is out of range
    var _ :- Need(txLen < INT_LIMIT, Panic);
    var (txBytes, d) :- TakeBytes(d, txLen);
    match rt.ReadTx(txBytes)
    case None => Fail(BadTransaction)
    case Some(tx) => Ok((Insert(address, owned[0] != 0, tx, txBytes), d))
  }

  function ParseAction(rt: Runtime, d: Bytes): Outcome<(Action, Bytes)> {
    var (variant, d) :- TakeU32(d);
    // the variant is narrowed to eight bits
    match variant % 256
    case 0 => ParseInsert(rt, d)
    case 1 => Ok((Commit, d))
    case 2 =>
      var (reason, d) :- ParseReason(d);
      Ok((Drop(reason), d))
    case 3 =>
      var (reason, d) :- TakeU32(d);
      Ok((Evict(EvictText(reason)), d))
    case _ => Fail(UnknownVariant(variant))
  }

  function ParseEvent(rt: Runtime, d: Bytes): Outcome<(Event, Bytes)> {
    var (length, d) :- TakeU64(d);
    var _ :- Need(length == 32, BadLength(length));
    var (hash, d) :- TakeBytes(d, 32);
    var (action, d) :- ParseAction(rt, d);
    Ok((Event(hash, action), d))
  }

  /** A parser of one element: a value and the bytes after it. */
  type Parser<T> = Bytes -> Outcome<(T, Bytes)>

  function ParseMany<T>(parse: Parser<T>, d: Bytes, n: nat): Outcome<(seq<T>, Bytes)>
    decreases n
  {
    if n == 0 then Ok(([], d))
    else
      var (first, d) :- parse(d);
      var (others, d) :- ParseMany(parse, d, n - 1);
      Ok(([first] + others, d))
  }

  /** A counted vector. */
  function ParseVector<T>(limit: nat, parse: Parser<T>, d: Bytes): Outcome<(seq<T>, Bytes)> {
    var (n, d) :- TakeU64(d);
    var _ :- Need(n <= limit, Panic);
    ParseMany(parse, d, n)
  }

  function EventParser(rt: Runtime): Parser<Event> {
    (d: Bytes) => ParseEvent(rt, d)
  }

  function HashParser(): Parser<Hash> {
    (d: Bytes) => ParseHash(d)
  }

  function ParseHash(d: Bytes): Outcome<(Hash, Bytes)> {
    var (h, rest) :- TakeBytes(d, 32);
    var hash: Hash := h;
    Ok((hash, rest))
  }

  function ParseEvents(rt: Runtime, d: Bytes): Outcome<(seq<Event>, Bytes)> {
    ParseVector(rt.maxEvents, EventParser(rt), d)
  }

  function ParseSnapshot(rt: Runtime, d: Bytes): Outcome<(seq<Hash>, Bytes)> {
    ParseVector(rt.maxHashes, HashParser(), d)
  }

  // ----- encode, then decode ------------------------------------------------------------------

  lemma TakePrefix(a: Bytes, rest: Bytes)
    ensures TakeBytes(a + rest, |a|) == Ok((a, rest))
  {
    assert (a + rest)[..|a|] == a && (a + rest)[|a|..] == rest;
  }

  lemma TakeOfU32(n: nat, rest: Bytes)
    requires n < U32_LIMIT
    ensures TakeU32(U32(n) + rest) == Ok((n, rest))
  {
    TakePrefix(U32(n), rest);
    Pow256Values();
    LERoundTrip(n, 4);
  }

  lemma TakeOfU64(n: nat, rest: Bytes)
    requires n < U64_LIMIT
    ensures TakeU64(U64(n) + rest) == Ok((n, rest))
  {
    TakePrefix(U64(n), rest);
    Pow256Values();
    LERoundTrip(n, 8);
  }

  lemma Assoc(a: Bytes, b: Bytes, c: Bytes)
    ensures a + b + c == a + (b + c)
  {
  }

  lemma DetailRoundTrip(variant: nat, detail: nat, rest: Bytes)
    requires (variant == 0 || variant == 9) && detail < U32_LIMIT
    ensures ParseReason(U32(variant) + U32(detail) + rest)
         == Ok((if variant == 0 then "not well formed" else "internal error", rest))
  {
    Assoc(U32(variant), U32(detail), rest);
    TakeOfU32(variant, U32(detail) + rest);
    TakeOfU32(detail, rest);
    hide U32, TakeU32;
  }

  lemma ReplacedRoundTrip(h: Hash, rest: Bytes)
    ensures ParseReason(U32(6) + (U64(32) + h) + rest) == Ok(("replaced by higher priority", rest))
  {
    Assoc(U32(6), U64(32) + h, rest);
    Assoc(U64(32), h, rest);
    TakeOfU32(6, U64(32) + h + rest);
    TakeOfU64(32, h + rest);
    TakePrefix(h, rest);
    assert |U64(32) + (h + rest)| >= 8;
    hide U32, TakeU32, U64, TakeU64;
  }

  lemma ReasonRoundTrip(r: DropReason, rest: Bytes)
    requires WellFormedReason(r)
    ensures ParseReason(EncodeReason(r) + rest) == Ok((ReasonText(r), rest))
  {
    match r
    case NotWellFormed(detail) =>
      DetailRoundTrip(0, detail, rest);
      hide ParseReason, U32;
    case Internal(detail) =>
      DetailRoundTrip(9, detail, rest);
      hide ParseReason, U32;
    case ReplacedByHigherPriority(h) =>
      ReplacedRoundTrip(h, rest);
      hide ParseReason, U32, U64;
    case _ =>
      PlainRoundTrip(r, rest);
      hide ParseReason, U32, U64;
  }

  lemma PlainRoundTrip(r: DropReason, rest: Bytes)
    requires WellFormedReason(r) && !r.NotWellFormed? && !r.Internal? && !r.ReplacedByHigherPriority?
    ensures ParseReason(EncodeReason(r) + rest) == Ok((ReasonText(r), rest))
  {
    var variant :=
      match r
      case InvalidSignature => 1
      case NonceTooLow => 2
      case FeeTooLow => 3
      case InsufficientBalance => 4
      case ExistingHigherPriority => 5
      case PoolFull => 7
      case PoolNotReady => 8
      case OtherReason(variant) => variant;
    TakeOfU32(variant, rest);
    hide U32, TakeU32, Decimal.Print;
  }

  lemma InsertReads(rt: Runtime, address: Address, flag: Byte, txBytes: Bytes, rest: Bytes)
    requires |txBytes| < INT_LIMIT && rt.ReadTx(txBytes).Some?
    ensures ParseInsert(rt, InsertBody(address, flag, txBytes) + rest)
         == Ok((Insert(address, flag != 0, rt.ReadTx(txBytes).value, txBytes), rest))
  {
    hide FromLE, ToLE;
    var d4 := U64(|txBytes|) + (txBytes + rest);
    var d3 := [flag] + d4;
    var d2 := address + d3;
    assert InsertBody(address, flag, txBytes) + rest == U64(20) + d2;
    TakeOfU64(20, d2);
    TakePrefix(address, d3);
    TakePrefix([flag], d4);
    TakeOfU64(|txBytes|, txBytes + rest);
    TakePrefix(txBytes, rest);
  }

  lemma EventRoundTrip(rt: Runtime, e: WireEvent, rest: Bytes)
    requires WellFormed(rt, e)
    ensures ParseEvent(rt, EncodeEvent(e) + rest) == Ok((Meaning(rt, e), rest))
  {
    var a := EncodeAction(e.action);
    Assoc(U64(32), e.txHash + a, rest);
    Assoc(e.txHash, a, rest);
    TakeOfU64(32, e.txHash + (a + rest));
    TakePrefix(e.txHash, a + rest);
    ActionRoundTrip(rt, e, rest);
  }

  lemma ActionRoundTrip(rt: Runtime, e: WireEvent, rest: Bytes)
    requires WellFormed(rt, e)
    ensures ParseAction(rt, EncodeAction(e.action) + rest) == Ok((Meaning(rt, e).action, rest))
  {
    match e.action
    case WireInsert(address, owned, txBytes) =>
      var body := InsertBody(address, if owned then 1 else 0, txBytes);
      Assoc(U32(0), body, rest);
      TakeOfU32(0, body + rest);
      InsertReads(rt, address, if owned then 1 else 0, txBytes, rest);
    case WireCommit => TakeOfU32(1, rest);
    case WireDrop(reason) =>
      Assoc(U32(2), EncodeReason(reason), rest);
      TakeOfU32(2, EncodeReason(reason) + rest);
      ReasonRoundTrip(reason, rest);
    case WireEvict(variant) =>
      Assoc(U32(3), U32(variant), rest);
      TakeOfU32(3, U32(variant) + rest);
      TakeOfU32(variant, rest);
  }

  lemma {:induction false} SeqRoundTrip(rt: Runtime, es: seq<WireEvent>, rest: Bytes)
    requires forall i :: 0 <= i < |es| ==> WellFormed(rt, es[i])
    ensures ParseMany(EventParser(rt), EncodeSeq(es) + rest, |es|) == Ok((Meanings(rt, es), rest))
    decreases |es|
  {
    if es == [] {
      assert [] + rest == rest;
    } else {
      Assoc(EncodeEvent(es[0]), EncodeSeq(es[1..]), rest);
      EventRoundTrip(rt, es[0], EncodeSeq(es[1..]) + rest);
      SeqRoundTrip(rt, es[1..], rest);
    }
  }

  /** Decoding the encoding of any event vector gives back the events, up to the reason texts,
      and consumes exactly the encoding - unless the runtime refuses to allocate so many. */
  lemma EventsRoundTrip(rt: Runtime, es: seq<WireEvent>, rest: Bytes)
    requires forall i :: 0 <= i < |es| ==> WellFormed(rt, es[i])
    requires |es| < U64_LIMIT
    ensures ParseEvents(rt, EncodeEvents(es) + rest)
         == if |es| <= rt.maxEvents then Ok((Meanings(rt, es), rest)) else Fail(Panic)
  {
    Assoc(U64(|es|), EncodeSeq(es), rest);
    TakeOfU64(|es|, EncodeSeq(es) + rest);
    SeqRoundTrip(rt, es, rest);
  }

  /** The texts the decoders give, word for word. */
  lemma ReasonTexts(detail: nat, h: Hash, rest: Bytes)
    requires detail < U32_LIMIT
    ensures ParseReason(U32(0) + U32(detail) + rest) == Ok(("not well formed", rest))
    ensures ParseReason(U32(1) + rest) == Ok(("invalid signature", rest))
    ensures ParseReason(U32(2) + rest) == Ok(("nonce too low", rest))
    ensures ParseReason(U32(3) + rest) == Ok(("fee too low", rest))
    ensures ParseReason(U32(4) + rest) == Ok(("insufficient balance", rest))
    ensures ParseReason(U32(5) + rest) == Ok(("existing higher priority", rest))
    ensures ParseReason(U32(6) + (U64(32) + h) + rest) == Ok(("replaced by higher priority", rest))
    ensures ParseReason(U32(7) + rest) == Ok(("pool full", rest))
    ensures ParseReason(U32(8) + rest) == Ok(("pool not ready", rest))
    ensures ParseReason(U32(9) + U32(detail) + rest) == Ok(("internal error", rest))
    ensures ParseReason(U32(12) + rest) == Ok(("unknown reason 12", rest))
  {
    hide ParseReason, U32, U64;
    DetailRoundTrip(0, detail, rest);
    DetailRoundTrip(9, detail, rest);
    ReplacedRoundTrip(h, rest);
    PlainTexts(rest);
    UnknownText(rest);
  }

  lemma UnknownText(rest: Bytes)
    ensures ParseReason(U32(12) + rest) == Ok(("unknown reason 12", rest))
  {
    Decimal.TwoDigits(1, 2);
    assert Decimal.Print(12) == "12";
    PlainRoundTrip(OtherReason(12), rest);
    hide ParseReason, U32, Decimal.Print;
    assert "unknown reason " + "12" == "unknown reason 12";
  }

  lemma PlainTexts(rest: Bytes)
    ensures ParseReason(U32(1) + rest) == Ok(("invalid signature", rest))
    ensures ParseReason(U32(2) + rest) == Ok(("nonce too low", rest))
    ensures ParseReason(U32(3) + rest) == Ok(("fee too low", rest))
    ensures ParseReason(U32(4) + rest) == Ok(("insufficient balance", rest))
    ensures ParseReason(U32(5) + rest) == Ok(("existing higher priority", rest))
    ensures ParseReason(U32(7) + rest) == Ok(("pool full", rest))
    ensures ParseReason(U32(8) + rest) == Ok(("pool not ready", rest))
  {
    hide ParseReason, U32;
    PlainRoundTrip(InvalidSignature, rest);
    PlainRoundTrip(NonceTooLow, rest);
    PlainRoundTrip(FeeTooLow, rest);
    PlainRoundTrip(InsufficientBalance, rest);
    PlainRoundTrip(ExistingHigherPriority, rest);
    PlainRoundTrip(PoolFull, rest);
    PlainRoundTrip(PoolNotReady, rest);
  }

  lemma EvictTexts(rt: Runtime, rest: Bytes)
    ensures ParseAction(rt, U32(3) + (U32(0) + rest)) == Ok((Evict("expired"), rest))
    ensures ParseAction(rt, U32(3) + (U32(7) + rest)) == Ok((Evict("unknown evict reason 7"), rest))
  {
    Decimal.OneDigit(7);
    assert Decimal.Print(7) == "7";
    hide U32, Decimal.Print;
    EvictReads(rt, 0, rest);
    EvictReads(rt, 7, rest);
    hide ParseAction;
    assert "unknown evict reason " + "7" == "unknown evict reason 7";
  }

  lemma EvictReads(rt: Runtime, variant: nat, rest: Bytes)
    requires variant < U32_LIMIT
    ensures ParseAction(rt, U32(3) + (U32(variant) + rest)) == Ok((Evict(EvictText(variant)), rest))
  {
    TakeOfU32(3, U32(variant) + rest);
    TakeOfU32(variant, rest);
    hide U32, TakeU32, EvictText;
  }

  /** A transaction is read by the binary form first, and by RLP only when that fails. */
  lemma ReadersInOrder(rt: Runtime, b: Bytes, tx: Tx)
    ensures rt.ReadTx(b) == Some(tx)
       <==> rt.unmarshalBinary(b) == Some(tx) || (rt.unmarshalBinary(b) == None && rt.decodeRlp(b) == Some(tx))
  {
  }

  /** One Commit event, byte by byte: the length of the hash in eight bytes, lowest first, the hash,
      and the variant in four. An Insert differs in the variant and what follows it: the length of the
      address, the address, the owned flag, the length of the raw bytes and the raw bytes. */
  lemma EventBytes(h: Hash, address: Address, owned: bool, b: Byte)
    ensures EncodeEvent(WireEvent(h, WireCommit)) == [32, 0, 0, 0, 0, 0, 0, 0] + (h + [1, 0, 0, 0])
    ensures EncodeEvent(WireEvent(h, WireInsert(address, owned, [b])))
         == [32, 0, 0, 0, 0, 0, 0, 0] + (h + ([0, 0, 0, 0] + ([20, 0, 0, 0, 0, 0, 0, 0] + (address
            + ([if owned then 1 else 0] + ([1, 0, 0, 0, 0, 0, 0, 0] + [b]))))))
  {
    SmallNumbers(0);
    SmallNumbers(1);
    SmallNumbers(20);
    SmallNumbers(32);
    hide ToLE;
  }

  lemma SmallNumbers(n: nat)
    requires n < 256
    ensures U32(n) == [n, 0, 0, 0] && U64(n) == [n, 0, 0, 0, 0, 0, 0, 0]
  {
    assert ToLE(0, 1) == [0] && ToLE(0, 2) == [0, 0] && ToLE(0, 3) == [0, 0, 0];
    assert ToLE(0, 7) == [0, 0, 0, 0, 0, 0, 0] by {
      assert ToLE(0, 4) == [0, 0, 0, 0] && ToLE(0, 5) == [0, 0, 0, 0, 0] && ToLE(0, 6) == [0, 0, 0, 0, 0, 0];
    }
  }

  // ----- the layout, and every way to fail --------------------------------------------------------

  /** The drop reason with a hash: a length sliced without a bounds check, then 32 bytes. */
  lemma ReplacedLayout(d: Bytes)
    requires |d| >= 4 && FromLE(d[..4]) == 6
    ensures ParseReason(d)
         == if |d| < 12 then Fail(Panic)
            else if FromLE(d[4..12]) != 32 then Fail(BadLength(FromLE(d[4..12])))
            else if |d| < 44 then Fail(Short)
            else Ok(("replaced by higher priority", d[44..]))
  {
    hide FromLE;
    if |d| >= 12 {
      assert d[4..][..8] == d[4..12] && d[4..][8..] == d[12..];
      if |d| >= 44 {
        assert d[12..][32..] == d[44..];
      }
    }
  }

  /** The other drop reasons: nothing, or four bytes, follows the variant. */
  lemma PlainLayout(d: Bytes)
    requires |d| < 4 || FromLE(d[..4]) != 6
    ensures |d| < 4 ==> ParseReason(d) == Fail(Short)
    ensures |d| >= 4 && FromLE(d[..4]) != 0 && FromLE(d[..4]) != 9 ==>
              ParseReason(d).Ok? && ParseReason(d).value.1 == d[4..]
    ensures |d| >= 4 && (FromLE(d[..4]) == 0 || FromLE(d[..4]) == 9) ==>
              if |d| < 8 then ParseReason(d) == Fail(Short) else ParseReason(d).Ok? && ParseReason(d).value.1 == d[8..]
  {
    hide FromLE, Decimal.Print;
    if |d| >= 8 {
      assert d[4..][4..] == d[8..];
    }
  }

  lemma InsertLayout(rt: Runtime, d: Bytes)
    ensures ParseInsert(rt, d)
         == if |d| < 37 then Fail(Short)
            else if FromLE(d[..8]) != 20 then Fail(BadLength(FromLE(d[..8])))
            else
              var length := FromLE(d[29..37]);
              if length >= 0x8000_0000_0000_0000 then Fail(Panic)
              else if |d| < 37 + length then Fail(Short)
              else
                match rt.ReadTx(d[37..37 + length])
                case None => Fail(BadTransaction)
                case Some(tx) => Ok((Insert(d[8..28], d[28] != 0, tx, d[37..37 + length]), d[37 + length..]))
  {
    hide FromLE;
    if |d| >= 37 {
      InsertSlices(d);
      if |d| >= 37 + FromLE(d[29..37]) {
        assert d[37..][..FromLE(d[29..37])] == d[37..37 + FromLE(d[29..37])];
        assert d[37..][FromLE(d[29..37])..] == d[37 + FromLE(d[29..37])..];
      }
    }
  }

  lemma InsertSlices(d: Bytes)
    requires |d| >= 37
    ensures d[8..][..20] == d[8..28] && d[8..][20..] == d[28..] && d[28..][..1] == [d[28]] && d[28..][1..] == d[29..]
    ensures d[29..][..8] == d[29..37] && d[29..][8..] == d[37..]
  {
  }

  lemma EventLayout(rt: Runtime, d: Bytes)
    ensures |d| < 8 ==> ParseEvent(rt, d) == Fail(Short)
    ensures |d| >= 8 && FromLE(d[..8]) != 32 ==> ParseEvent(rt, d) == Fail(BadLength(FromLE(d[..8])))
    ensures |d| >= 8 && FromLE(d[..8]) == 32 && |d| < 44 ==> ParseEvent(rt, d) == Fail(Short)
    ensures |d| >= 44 && FromLE(d[..8]) == 32 ==>
              ParseEvent(rt, d) == match ParseAction(rt, d[40..])
                                   case Fail(e) => Fail(e)
                                   case Ok((action, rest)) => Ok((Event(d[8..40], action), rest))
  {
    hide FromLE, ParseInsert, ParseReason;
    if |d| >= 40 {
      assert d[8..][..32] == d[8..40] && d[8..][32..] == d[40..];
    }
  }

  lemma ActionLayout(rt: Runtime, d: Bytes)
    requires |d| >= 4
    ensures FromLE(d[..4]) % 256 > 3 ==> ParseAction(rt, d) == Fail(UnknownVariant(FromLE(d[..4])))
    ensures FromLE(d[..4]) % 256 == 0 ==> ParseAction(rt, d) == ParseInsert(rt, d[4..])
    ensures FromLE(d[..4]) % 256 == 1 ==> ParseAction(rt, d) == Ok((Commit, d[4..]))
    ensures FromLE(d[..4]) % 256 == 3 && |d| < 8 ==> ParseAction(rt, d) == Fail(Short)
  {
    hide FromLE, ParseInsert, ParseReason;
  }

  /** A batch names its length first; the runtime refuses more events than it can hold. */
  lemma BatchLayout(rt: Runtime, d: Bytes)
    ensures |d| < 8 ==> ParseEvents(rt, d) == Fail(Short)
    ensures |d| >= 8 && FromLE(d[..8]) > rt.maxEvents ==> ParseEvents(rt, d) == Fail(Panic)
    ensures |d| >= 8 && FromLE(d[..8]) <= rt.maxEvents ==>
              ParseEvents(rt, d) == ParseMany(EventParser(rt), d[8..], FromLE(d[..8]))
  {
    hide FromLE, ParseMany;
  }

  // ----- decode, then encode ------------------------------------------------------------------

  /** The decoder accepts more than the encoder emits: a variant decodes as a commit exactly when
      its low byte is 1. */
  lemma CommitDecoding(rt: Runtime, d: Bytes)
    ensures ParseAction(rt, d).Ok? && ParseAction(rt, d).value.0.Commit?
       <==> |d| >= 4 && FromLE(d[..4]) % 256 == 1
  {
  }

  /** Different inputs with the same decoded action: a variant of 257 is a commit too, and any two
      nonzero owned bytes are alike. */
  lemma DecodingIsNotInjective(rt: Runtime, address: Address, flag: Byte, txBytes: Bytes)
    requires |txBytes| < INT_LIMIT && rt.ReadTx(txBytes).Some? && flag > 1
    ensures U32(1) != U32(257) && ParseAction(rt, U32(1)) == ParseAction(rt, U32(257)) == Ok((Commit, []))
    ensures InsertBody(address, 1, txBytes) != InsertBody(address, flag, txBytes)
    ensures ParseAction(rt, U32(0) + InsertBody(address, 1, txBytes))
        == ParseAction(rt, U32(0) + InsertBody(address, flag, txBytes))
         == Ok((Insert(address, true, rt.ReadTx(txBytes).value, txBytes), []))
  {
    NarrowedVariant(rt);
    assert InsertBody(address, 1, txBytes)[28] == 1 && InsertBody(address, flag, txBytes)[28] == flag;
    hide ParseInsert, InsertBody;
    forall b: Byte | b == 1 || b == flag
      ensures ParseAction(rt, U32(0) + InsertBody(address, b, txBytes))
           == Ok((Insert(address, true, rt.ReadTx(txBytes).value, txBytes), []))
    {
      var body := InsertBody(address, b, txBytes);
      TakeOfU32(0, body);
      InsertReads(rt, address, b, txBytes, []);
      assert body + [] == body;
    }
  }

  lemma NarrowedVariant(rt: Runtime)
    ensures U32(1) != U32(257) && ParseAction(rt, U32(1)) == ParseAction(rt, U32(257)) == Ok((Commit, []))
  {
    assert U32(1) + [] == U32(1) && U32(257) + [] == U32(257);
    TakeOfU32(1, []);
    TakeOfU32(257, []);
  }

  lemma U32OfBytes(d: Bytes)
    requires |d| >= 4
    ensures d == U32(FromLE(d[..4])) + d[4..] && FromLE(d[..4]) < U32_LIMIT
  {
    LEOfBytes(d[..4]);
    Pow256Values();
  }

  lemma U64OfBytes(d: Bytes)
    requires |d| >= 8
    ensures d == U64(FromLE(d[..8])) + d[8..] && FromLE(d[..8]) < U64_LIMIT
  {
    LEOfBytes(d[..8]);
    Pow256Values();
  }

  /** The wire reason a drop reason was decoded from. */
  function ReasonOf(d: Bytes): DropReason
    requires ParseReason(d).Ok?
  {
    var variant, rest := FromLE(d[..4]), d[4..];
    match variant
    case 0 => NotWellFormed(FromLE(rest[..4]))
    case 1 => InvalidSignature
    case 2 => NonceTooLow
    case 3 => FeeTooLow
    case 4 => InsufficientBalance
    case 5 => ExistingHigherPriority
    case 6 => ReplacedByHigherPriority(rest[8..40])
    case 7 => PoolFull
    case 8 => PoolNotReady
    case 9 => Internal(FromLE(rest[..4]))
    case _ => OtherReason(variant)
  }

  lemma ReasonReencodes(d: Bytes)
    requires ParseReason(d).Ok?
    ensures WellFormedReason(ReasonOf(d)) && d == EncodeReason(ReasonOf(d)) + ParseReason(d).value.1
  {
    hide FromLE, ToLE, Decimal.Print;
    U32OfBytes(d);
    var rest := d[4..];
    var variant := FromLE(d[..4]);
    if variant == 0 || variant == 9 {
      U32OfBytes(rest);
      Assoc(U32(variant), U32(FromLE(rest[..4])), rest[4..]);
    } else if variant == 6 {
      U64OfBytes(rest);
      assert rest[8..] == rest[8..40] + rest[8..][32..];
      Assoc(U64(32), rest[8..40], rest[8..][32..]);
      Assoc(U32(6), U64(32) + rest[8..40], rest[8..][32..]);
    }
  }

  lemma InsertFields(rt: Runtime, d: Bytes)
    requires ParseInsert(rt, d).Ok?
    ensures |d| >= 37 && FromLE(d[..8]) == 20 && FromLE(d[29..37]) < INT_LIMIT
    ensures var a := ParseInsert(rt, d).value.0; a.address == d[8..28] && a.owned == (d[28] != 0)
  {
    assert d[8..][..20] == d[8..28] && d[8..][20..][1..][..8] == d[29..37];
  }

  lemma BodyFromFields(d: Bytes, address: Address, flag: Byte, txBytes: Bytes, rest: Bytes)
    requires |d| >= 37 && FromLE(d[..8]) == 20 && d[8..28] == address && d[28] == flag
    requires FromLE(d[29..37]) == |txBytes| && d == d[..37] + txBytes + rest
    ensures d == InsertBody(address, flag, txBytes) + rest
  {
    LEOfBytes(d[..8]);
    LEOfBytes(d[29..37]);
    hide ToLE, FromLE;
    assert d[..37] == d[..8] + (address + ([flag] + d[29..37]));
    Nest(d[..8], address, [flag], d[29..37], txBytes, rest);
  }

  lemma Nest(a: Bytes, b: Bytes, c: Bytes, e: Bytes, f: Bytes, rest: Bytes)
    ensures a + (b + (c + e)) + f + rest == a + (b + (c + (e + f))) + rest
  {
    assert (b + (c + e)) + f == b + (c + (e + f));
  }

  lemma InsertReencodes(rt: Runtime, d: Bytes)
    requires ParseInsert(rt, d).Ok? && d[28] <= 1
    ensures var (a, rest) := ParseInsert(rt, d).value;
            d == InsertBody(a.address, if a.owned then 1 else 0, a.originalRlp) + rest
  {
    var (a, rest) := ParseInsert(rt, d).value;
    InsertFields(rt, d);
    InsertKeepsItsBytes(rt, d);
    hide ParseInsert, InsertBody;
    BodyFromFields(d, a.address, d[28], a.originalRlp, rest);
  }

  /** An event's bytes are spelled as the node spells them: the variant is below 256, and the owned
      byte of an Insert is 0 or 1. */
  predicate SpelledAsEmitted(d: Bytes) {
    |d| >= 44 && FromLE(d[40..44]) < 256 && (FromLE(d[40..44]) == 0 ==> |d| > 72 && d[72] <= 1)
  }

  /** The wire action a decoded action was read from. */
  function ActionOf(rt: Runtime, d: Bytes): WireAction
    requires ParseAction(rt, d).Ok?
  {
    match ParseAction(rt, d).value.0
    case Insert(address, owned, _, originalRlp) => WireInsert(address, owned, originalRlp)
    case Commit => WireCommit
    case Drop(_) => WireDrop(ReasonOf(d[4..]))
    case Evict(_) => WireEvict(FromLE(d[4..][..4]))
  }

  lemma ActionReencodes(rt: Runtime, h: Hash, d: Bytes)
    requires ParseAction(rt, d).Ok? && FromLE(d[..4]) < 256 && (FromLE(d[..4]) == 0 ==> d[32] <= 1)
    ensures WellFormed(rt, WireEvent(h, ActionOf(rt, d)))
    ensures d == EncodeAction(ActionOf(rt, d)) + ParseAction(rt, d).value.1
  {
    hide ParseInsert, ParseReason, FromLE, ToLE, Decimal.Print;
    var (action, rest) := ParseAction(rt, d).value;
    var body := d[4..];
    U32OfBytes(d);
    if FromLE(d[..4]) == 0 {
      InsertFields(rt, body);
      InsertReencodes(rt, body);
      InsertKeepsItsBytes(rt, body);
      hide U32, InsertBody;
      Assoc(U32(0), InsertBody(action.address, if action.owned then 1 else 0, action.originalRlp), rest);
    } else if FromLE(d[..4]) == 2 {
      ReasonReencodes(body);
      hide EncodeReason, U32, ReasonOf;
      Assoc(U32(2), EncodeReason(ReasonOf(body)), rest);
    } else if FromLE(d[..4]) == 3 {
      U32OfBytes(body);
      hide U32;
      Assoc(U32(3), U32(FromLE(body[..4])), rest);
    }
  }

  lemma EventParts(rt: Runtime, d: Bytes)
    requires ParseEvent(rt, d).Ok?
    ensures |d| >= 44 && FromLE(d[..8]) == 32 && ParseAction(rt, d[40..]).Ok?
    ensures ParseEvent(rt, d).value
        == (Event(d[8..40], ParseAction(rt, d[40..]).value.0), ParseAction(rt, d[40..]).value.1)
  {
    assert d[8..][..32] == d[8..40] && d[8..][32..] == d[40..];
    assert d[40..][..4] == d[40..44];
  }

  lemma EventReencodes(rt: Runtime, d: Bytes) returns (e: WireEvent)
    requires ParseEvent(rt, d).Ok? && SpelledAsEmitted(d)
    ensures WellFormed(rt, e) && d == EncodeEvent(e) + ParseEvent(rt, d).value.1
  {
    EventParts(rt, d);
    hide ParseEvent, ParseAction, EncodeAction, WellFormed, ActionOf;
    var body := d[40..];
    assert body[..4] == d[40..44] && (|d| > 72 ==> body[32] == d[72]);
    ActionReencodes(rt, d[8..40], body);
    e := WireEvent(d[8..40], ActionOf(rt, body));
    U64OfBytes(d);
    hide U64;
    var rest := ParseAction(rt, body).value.1;
    assert d[8..] == d[8..40] + body;
    Assoc(e.txHash, EncodeAction(e.action), rest);
    Assoc(U64(32), e.txHash + EncodeAction(e.action), rest);
  }

  function VariantOf(a: WireAction): nat {
    match a
    case WireInsert(_, _, _) => 0
    case WireCommit => 1
    case WireDrop(_) => 2
    case WireEvict(_) => 3
  }

  lemma ActionHead(a: WireAction)
    ensures |EncodeAction(a)| >= 4 && EncodeAction(a)[..4] == U32(VariantOf(a))
    ensures FromLE(U32(VariantOf(a))) == VariantOf(a)
    ensures a.WireInsert? ==> |EncodeAction(a)| > 32 && EncodeAction(a)[32] <= 1
  {
    VariantReads(VariantOf(a));
    hide EncodeReason, ToLE, FromLE, InsertBody;
    if a.WireInsert? {
      var flag := if a.owned then 1 else 0;
      FlagAt(a.address, flag, a.txBytes);
      assert EncodeAction(a)[32] == InsertBody(a.address, flag, a.txBytes)[28];
    }
  }

  lemma VariantReads(variant: nat)
    requires variant < 256
    ensures FromLE(U32(variant)) == variant
  {
    Pow256Values();
    LERoundTrip(variant, 4);
  }

  lemma FlagAt(address: Address, flag: Byte, txBytes: Bytes)
    ensures |InsertBody(address, flag, txBytes)| > 28 && InsertBody(address, flag, txBytes)[28] == flag
  {
    hide ToLE;
    assert InsertBody(address, flag, txBytes) == U64(20) + address + ([flag] + (U64(|txBytes|) + txBytes));
  }

  lemma EmittedSpelling(rt: Runtime, e: WireEvent, rest: Bytes)
    requires WellFormed(rt, e)
    ensures SpelledAsEmitted(EncodeEvent(e) + rest)
  {
    ActionHead(e.action);
    hide EncodeAction, WellFormed, ToLE, FromLE;
    var a := EncodeAction(e.action);
    var d := EncodeEvent(e) + rest;
    assert d == U64(32) + e.txHash + a + rest;
    assert d[40..44] == a[..4];
    assert |a| > 32 ==> d[72] == a[32];
  }

  /** Bytes that decode are the encoding of some event exactly when the variant was not narrowed
      and an owned flag is 0 or 1. */
  lemma EventIsEncodingExactly(rt: Runtime, d: Bytes)
    requires ParseEvent(rt, d).Ok?
    ensures SpelledAsEmitted(d)
       <==> exists e :: WellFormed(rt, e) && d == EncodeEvent(e) + ParseEvent(rt, d).value.1
  {
    if SpelledAsEmitted(d) {
      var e := EventReencodes(rt, d);
    }
    forall e | WellFormed(rt, e) && d == EncodeEvent(e) + ParseEvent(rt, d).value.1
      ensures SpelledAsEmitted(d)
    {
      EmittedSpelling(rt, e, ParseEvent(rt, d).value.1);
    }
  }

  /** Every one of n events in a row is spelled as the node spells it. */
  predicate EachSpelled(rt: Runtime, d: Bytes, n: nat)
    decreases n
  {
    n > 0 ==> SpelledAsEmitted(d) && (ParseEvent(rt, d).Ok? ==> EachSpelled(rt, ParseEvent(rt, d).value.1, n - 1))
  }

  lemma ManyStep(rt: Runtime, d: Bytes, n: nat)
    requires n > 0 && ParseMany(EventParser(rt), d, n).Ok?
    ensures ParseEvent(rt, d).Ok? && ParseMany(EventParser(rt), ParseEvent(rt, d).value.1, n - 1).Ok?
    ensures ParseMany(EventParser(rt), d, n).value.1
        == ParseMany(EventParser(rt), ParseEvent(rt, d).value.1, n - 1).value.1
  {
    hide ParseEvent;
  }

  lemma {:induction false} ManyReencode(rt: Runtime, d: Bytes, n: nat) returns (es: seq<WireEvent>)
    requires ParseMany(EventParser(rt), d, n).Ok? && EachSpelled(rt, d, n)
    ensures |es| == n && forall i :: 0 <= i < |es| ==> WellFormed(rt, es[i])
    ensures d == EncodeSeq(es) + ParseMany(EventParser(rt), d, n).value.1
    decreases n
  {
    hide ParseEvent, EncodeEvent, SpelledAsEmitted, WellFormed;
    es := [];
    if n > 0 {
      ManyStep(rt, d, n);
      hide ParseMany;
      var e := EventReencodes(rt, d);
      var rest := ParseEvent(rt, d).value.1;
      var others := ManyReencode(rt, rest, n - 1);
      es := [e] + others;
      assert es[1..] == others;
      Assoc(EncodeEvent(e), EncodeSeq(others), ParseMany(EventParser(rt), rest, n - 1).value.1);
    }
  }

  lemma {:induction false} EmittedSeqSpelling(rt: Runtime, es: seq<WireEvent>, rest: Bytes)
    requires forall i :: 0 <= i < |es| ==> WellFormed(rt, es[i])
    ensures EachSpelled(rt, EncodeSeq(es) + rest, |es|)
    decreases |es|
  {
    hide ParseEvent, EncodeEvent, SpelledAsEmitted, WellFormed, Meaning;
    if es != [] {
      var tail := EncodeSeq(es[1..]) + rest;
      EmittedSeqSpelling(rt, es[1..], rest);
      Assoc(EncodeEvent(es[0]), EncodeSeq(es[1..]), rest);
      EventRoundTrip(rt, es[0], tail);
      EmittedSpelling(rt, es[0], tail);
    }
  }

  ghost predicate AllWellFormed(rt: Runtime, es: seq<WireEvent>) {
    |es| < U64_LIMIT && forall i :: 0 <= i < |es| ==> WellFormed(rt, es[i])
  }

  lemma BatchReencodes(rt: Runtime, d: Bytes) returns (es: seq<WireEvent>)
    requires ParseEvents(rt, d).Ok? && EachSpelled(rt, d[8..], FromLE(d[..8]))
    ensures AllWellFormed(rt, es) && d == EncodeEvents(es) + ParseEvents(rt, d).value.1
  {
    U64OfBytes(d);
    hide EachSpelled, EncodeSeq, ParseMany, WellFormed, FromLE, ToLE;
    es := ManyReencode(rt, d[8..], FromLE(d[..8]));
    Assoc(U64(|es|), EncodeSeq(es), ParseEvents(rt, d).value.1);
  }

  lemma EmittedBatchSpelling(rt: Runtime, es: seq<WireEvent>, rest: Bytes)
    requires AllWellFormed(rt, es)
    ensures var d := EncodeEvents(es) + rest; |d| >= 8 && EachSpelled(rt, d[8..], FromLE(d[..8]))
  {
    var d := EncodeEvents(es) + rest;
    Assoc(U64(|es|), EncodeSeq(es), rest);
    TakeOfU64(|es|, EncodeSeq(es) + rest);
    EmittedSeqSpelling(rt, es, rest);
    hide EachSpelled, EncodeSeq, WellFormed, FromLE, ToLE;
    assert d[8..] == EncodeSeq(es) + rest;
  }

  /** A batch that decodes is the encoding of some event vector exactly when each of its events
      is spelled as the node spells it. */
  lemma BatchIsEncodingExactly(rt: Runtime, d: Bytes)
    requires ParseEvents(rt, d).Ok?
    ensures EachSpelled(rt, d[8..], FromLE(d[..8]))
       <==> exists es :: AllWellFormed(rt, es) && d == EncodeEvents(es) + ParseEvents(rt, d).value.1
  {
    assert |d| >= 8;
    hide ParseEvents, EachSpelled, EncodeEvents, AllWellFormed, FromLE;
    if EachSpelled(rt, d[8..], FromLE(d[..8])) {
      var es := BatchReencodes(rt, d);
    }
    forall es | AllWellFormed(rt, es) && d == EncodeEvents(es) + ParseEvents(rt, d).value.1
      ensures EachSpelled(rt, d[8..], FromLE(d[..8]))
    {
      EmittedBatchSpelling(rt, es, ParseEvents(rt, d).value.1);
    }
  }

  // ----- prefix-freeness -----------------------------------------------------------------------

  lemma TakeExtends(d: Bytes, n: nat, x: Bytes)
    requires n <= |d|
    ensures TakeBytes(d + x, n) == Ok((d[..n], d[n..] + x))
    ensures n == 4 ==> TakeU32(d + x) == Ok((FromLE(d[..n]), d[n..] + x))
    ensures n == 8 ==> TakeU64(d + x) == Ok((FromLE(d[..n]), d[n..] + x))
  {
    assert (d + x)[..n] == d[..n] && (d + x)[n..] == d[n..] + x;
  }

  lemma ReasonExtends(d: Bytes, x: Bytes)
    requires ParseReason(d).Ok?
    ensures ParseReason(d + x) == Ok((ParseReason(d).value.0, ParseReason(d).value.1 + x))
  {
    TakeExtends(d, 4, x);
    var variant, rest := FromLE(d[..4]), d[4..];
    if variant == 0 || variant == 9 {
      TakeExtends(rest, 4, x);
    } else if variant == 6 {
      TakeExtends(rest, 8, x);
      TakeExtends(rest[8..], 32, x);
    }
  }

  lemma InsertExtends(rt: Runtime, d: Bytes, x: Bytes)
    requires ParseInsert(rt, d).Ok?
    ensures ParseInsert(rt, d + x) == Ok((ParseInsert(rt, d).value.0, ParseInsert(rt, d).value.1 + x))
  {
    var d1 := d[8..];
    var d2 := d1[20..];
    var d3 := d2[1..];
    var d4 := d3[8..];
    TakeExtends(d, 8, x);
    TakeExtends(d1, 20, x);
    TakeExtends(d2, 1, x);
    TakeExtends(d3, 8, x);
    TakeExtends(d4, FromLE(d3[..8]), x);
  }

  lemma ActionExtends(rt: Runtime, d: Bytes, x: Bytes)
    requires ParseAction(rt, d).Ok?
    ensures ParseAction(rt, d + x) == Ok((ParseAction(rt, d).value.0, ParseAction(rt, d).value.1 + x))
  {
    TakeExtends(d, 4, x);
    var variant := FromLE(d[..4]) % 256;
    if variant == 0 {
      InsertExtends(rt, d[4..], x);
    } else if variant == 2 {
      ReasonExtends(d[4..], x);
    } else if variant == 3 {
      TakeExtends(d[4..], 4, x);
    }
  }

  /** Decoding an event is unaffected by bytes after it. */
  lemma EventExtends(rt: Runtime, d: Bytes, x: Bytes)
    requires ParseEvent(rt, d).Ok?
    ensures ParseEvent(rt, d + x) == Ok((ParseEvent(rt, d).value.0, ParseEvent(rt, d).value.1 + x))
  {
    TakeExtends(d, 8, x);
    TakeExtends(d[8..], 32, x);
    ActionExtends(rt, d[8..][32..], x);
  }

  /** Parsing one element is unaffected by bytes after it. */
  ghost predicate Extensible<T(!new)>(parse: Parser<T>) {
    forall d: Bytes, x: Bytes, v: T, rest: Bytes ::
      parse(d) == Ok((v, rest)) ==> parse(d + x) == Ok((v, rest + x))
  }

  lemma {:induction false} ManyExtends<T(!new)>(parse: Parser<T>, d: Bytes, n: nat, x: Bytes)
    requires Extensible(parse) && ParseMany(parse, d, n).Ok?
    ensures ParseMany(parse, d + x, n)
         == Ok((ParseMany(parse, d, n).value.0, ParseMany(parse, d, n).value.1 + x))
    decreases n
  {
    if n > 0 {
      var (first, rest) := parse(d).value;
      assert parse(d + x) == Ok((first, rest + x));
      ManyExtends(parse, rest, n - 1, x);
    }
  }

  lemma VectorExtends<T(!new)>(limit: nat, parse: Parser<T>, d: Bytes, x: Bytes)
    requires Extensible(parse) && ParseVector(limit, parse, d).Ok?
    ensures ParseVector(limit, parse, d + x)
         == Ok((ParseVector(limit, parse, d).value.0, ParseVector(limit, parse, d).value.1 + x))
  {
    TakeExtends(d, 8, x);
    ManyExtends(parse, d[8..], FromLE(d[..8]), x);
  }

  lemma ParsersExtend(rt: Runtime)
    ensures Extensible(EventParser(rt)) && Extensible(HashParser())
  {
    forall d: Bytes, x: Bytes, v: Event, rest: Bytes | EventParser(rt)(d) == Ok((v, rest))
      ensures EventParser(rt)(d + x) == Ok((v, rest + x))
    {
      EventExtends(rt, d, x);
    }
    forall d: Bytes, x: Bytes, v: Hash, rest: Bytes | HashParser()(d) == Ok((v, rest))
      ensures HashParser()(d + x) == Ok((v, rest + x))
    {
      TakeExtends(d, 32, x);
    }
  }

  /** A vector that parses to its very end, or not at all, has no strict prefix that parses. */
  lemma WholeVectorPrefixFree<T(!new)>(limit: nat, parse: Parser<T>, d: Bytes, cut: nat)
    requires Extensible(parse) && cut < |d|
    requires ParseVector(limit, parse, d).Ok? ==> ParseVector(limit, parse, d).value.1 == []
    ensures ParseVector(limit, parse, d[..cut]).Fail?
  {
    assert d[..cut] + d[cut..] == d;
    if ParseVector(limit, parse, d[..cut]).Ok? {
      VectorExtends(limit, parse, d[..cut], d[cut..]);
    }
  }

  /** No strict prefix of the encoding of an event vector decodes. */
  lemma EncodingsArePrefixFree(rt: Runtime, es: seq<WireEvent>, cut: nat)
    requires forall i :: 0 <= i < |es| ==> WellFormed(rt, es[i])
    requires |es| < U64_LIMIT && cut < |EncodeEvents(es)|
    ensures ParseEvents(rt, EncodeEvents(es)[..cut]).Fail?
  {
    EventsRoundTrip(rt, es, []);
    assert EncodeEvents(es) + [] == EncodeEvents(es);
    ParsersExtend(rt);
    WholeVectorPrefixFree(rt.maxEvents, EventParser(rt), EncodeEvents(es), cut);
  }

  // ----- snapshots -------------------------------------------------------------------------------

  function Concat(hashes: seq<Hash>): Bytes {
    if hashes == [] then [] else hashes[0] + Concat(hashes[1..])
  }

  function EncodeSnapshot(hashes: seq<Hash>): Bytes {
    U64(|hashes|) + Concat(hashes)
  }

  lemma {:induction false} ConcatRoundTrip(hashes: seq<Hash>, rest: Bytes)
    ensures ParseMany(HashParser(), Concat(hashes) + rest, |hashes|) == Ok((hashes, rest))
    decreases |hashes|
  {
    if hashes == [] {
      assert [] + rest == rest;
    } else {
      Assoc(hashes[0], Concat(hashes[1..]), rest);
      TakePrefix(hashes[0], Concat(hashes[1..]) + rest);
      ConcatRoundTrip(hashes[1..], rest);
      assert [hashes[0]] + hashes[1..] == hashes;
    }
  }

  lemma SnapshotRoundTrip(rt: Runtime, hashes: seq<Hash>, rest: Bytes)
    requires |hashes| < U64_LIMIT
    ensures ParseSnapshot(rt, EncodeSnapshot(hashes) + rest)
         == if |hashes| <= rt.maxHashes then Ok((hashes, rest)) else Fail(Panic)
  {
    Assoc(U64(|hashes|), Concat(hashes), rest);
    TakeOfU64(|hashes|, Concat(hashes) + rest);
    ConcatRoundTrip(hashes, rest);
  }

  /** A vector whose encoding begins another encoding is that other vector, up to meaning. */
  lemma EncodingDeterminesMeaning(rt: Runtime, es: seq<WireEvent>, fs: seq<WireEvent>)
    requires forall i :: 0 <= i < |es| ==> WellFormed(rt, es[i])
    requires forall i :: 0 <= i < |fs| ==> WellFormed(rt, fs[i])
    requires |es| < U64_LIMIT && |es| <= rt.maxEvents && |fs| < U64_LIMIT && |fs| <= rt.maxEvents
    requires EncodeEvents(es) <= EncodeEvents(fs)
    ensures Meanings(rt, es) == Meanings(rt, fs)
  {
    hide EncodeEvents, ParseEvents, Meanings, WellFormed;
    var rest := EncodeEvents(fs)[|EncodeEvents(es)|..];
    EventsRoundTrip(rt, es, rest);
    EventsRoundTrip(rt, fs, []);
    assert EncodeEvents(es) + rest == EncodeEvents(fs) + [];
  }

  // ----- what a decoded Insert carries --------------------------------------------------------------

  /** An Insert's raw bytes read as its transaction. */
  ghost predicate Faithful(rt: Runtime, e: Event) {
    e.action.Insert? ==> rt.ReadTx(e.action.originalRlp) == Some(e.action.tx)
  }

  /** The raw bytes of a decoded Insert are the slice of the input just before its end. */
  lemma InsertKeepsItsBytes(rt: Runtime, d: Bytes)
    requires ParseInsert(rt, d).Ok?
    ensures var (action, rest) := ParseInsert(rt, d).value;
            && action.Insert? && rt.ReadTx(action.originalRlp) == Some(action.tx)
            && d == d[..37] + action.originalRlp + rest
            && FromLE(d[29..37]) == |action.originalRlp|
  {
    var (action, rest) := ParseInsert(rt, d).value;
    var d1 := d[8..];
    var d2 := d1[20..];
    var d3 := d2[1..];
    assert d3 == d[29..] && d3[..8] == d[29..37] && d3[8..] == d[37..];
    assert d[37..] == action.originalRlp + rest;
  }

  /** What is left after an event is the end of the input. */
  lemma EventExtent(rt: Runtime, d: Bytes)
    requires ParseEvent(rt, d).Ok?
    ensures var rest := ParseEvent(rt, d).value.1; |rest| <= |d| && d[|d| - |rest|..] == rest
  {
    EventParts(rt, d);
    hide ParseEvent;
    var body := d[40..];
    var rest := ParseAction(rt, body).value.1;
    ActionExtent(rt, body);
    hide ParseAction;
    assert d[|d| - |rest|..] == body[|body| - |rest|..];
  }

  lemma ActionExtent(rt: Runtime, d: Bytes)
    requires ParseAction(rt, d).Ok?
    ensures var rest := ParseAction(rt, d).value.1; |rest| <= |d| && d[|d| - |rest|..] == rest
  {
    var body := d[4..];
    var variant := FromLE(d[..4]) % 256;
    if variant == 0 {
      InsertKeepsItsBytes(rt, body);
      hide ParseInsert;
    } else if variant == 2 {
      ReasonReencodes(body);
      hide ParseReason, ReasonOf, EncodeReason;
    }
    hide FromLE, ParseReason, ParseInsert;
  }

  lemma {:induction false} ManyFaithful(rt: Runtime, d: Bytes, n: nat)
    requires ParseMany(EventParser(rt), d, n).Ok?
    ensures forall e :: e in ParseMany(EventParser(rt), d, n).value.0 ==> Faithful(rt, e)
    decreases n
  {
    hide ParseEvent, Faithful;
    if n > 0 {
      assert EventParser(rt)(d) == ParseEvent(rt, d);
      var (event, rest) := ParseEvent(rt, d).value;
      ManyFaithful(rt, rest, n - 1);
      EventFaithful(rt, d);
    }
  }

  lemma EventFaithful(rt: Runtime, d: Bytes)
    requires ParseEvent(rt, d).Ok?
    ensures Faithful(rt, ParseEvent(rt, d).value.0)
  {
    if ParseEvent(rt, d).value.0.action.Insert? {
      InsertKeepsItsBytes(rt, d[8..][32..][4..]);
    }
  }

  /** Every Insert a batch decodes to carries raw bytes that read as its transaction, so none is
      empty when the library reads no transaction from nothing. */
  lemma DecodedInsertsCarryTheirBytes(rt: Runtime, d: Bytes, e: Event)
    requires ParseEvents(rt, d).Ok? && e in ParseEvents(rt, d).value.0
    ensures Faithful(rt, e)
    ensures rt.ReadTx([]).None? && e.action.Insert? ==> e.action.originalRlp != []
  {
    ManyFaithful(rt, d[8..], FromLE(d[..8]));
  }
}
