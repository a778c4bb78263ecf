/** RLP (Appendix B of the Ethereum Yellow Paper): the reference encoding, a strict reader of
    one item, and the sidecar's envelope encoder proved against both. */
module Rlp {
  import opened Prelude
  import opened Endian

  // ----- reference encoding ----------------------------------------------------------

  datatype Item = Str(bytes: Bytes) | List(items: seq<Item>)

  /** Header of a payload: `short` is 0x80 for strings and 0xc0 for lists. A payload of 2^64
      bytes or more has no encoding. */
  function Header(short: Byte, length: nat): (h: Option<Bytes>)
    requires short == 0x80 || short == 0xc0
    ensures h.Some? <==> length < Pow256(8)
  {
    Pow256Values();
    if length < 56 then Some([short + length])
    else if length < Pow256(8) then
      MinimalBELength(length, 8);
      Some([short + 55 + |MinimalBE(length)|] + MinimalBE(length))
    else None
  }

  function EncodeString(s: Bytes): Option<Bytes> {
    if |s| == 1 && s[0] < 0x80 then Some(s)
    else
      match Header(0x80, |s|)
      case None => None
      case Some(h) => Some(h + s)
  }

  function EncodeList(payload: Bytes): Option<Bytes> {
    match Header(0xc0, |payload|)
    case None => None
    case Some(h) => Some(h + payload)
  }

  function Encode(item: Item): Option<Bytes> {
    match item
    case Str(s) => EncodeString(s)
    case List(items) =>
      match EncodeAll(items)
      case None => None
      case Some(payload) => EncodeList(payload)
  }

  function EncodeAll(items: seq<Item>): Option<Bytes> {
    if items == [] then Some([])
    else
      match (Encode(items[0]), EncodeAll(items[1..]))
      case (Some(first), Some(others)) => Some(first + others)
      case _ => None
  }

  // ----- strict reader ------------------------------------------------------------------

  datatype Kind = StringItem | ListItem

  /** The first item of a stream: its kind, its content and the bytes after it. */
  datatype Piece = Piece(kind: Kind, content: Bytes, rest: Bytes)

  function Cut(kind: Kind, d: Bytes, head: nat, length: nat): Option<Piece> {
    if |d| < head + length then None
    else Some(Piece(kind, d[head..head + length], d[head + length..]))
  }

  /** A payload whose length is itself written out in `width` bytes after the first byte. */
  function CutLong(kind: Kind, d: Bytes, width: nat): Option<Piece>
    requires width > 0
  {
    if |d| < 1 + width || d[1] == 0 then None
    else
      var length := FromBE(d[1..1 + width]);
      if length < 56 then None else Cut(kind, d, 1 + width, length)
  }

  function Split(d: Bytes): Option<Piece> {
    if d == [] then None
    else if d[0] < 0x80 then Cut(StringItem, d, 0, 1)
    else if d[0] < 0xb8 then
      (match Cut(StringItem, d, 1, d[0] - 0x80)
       case None => None
       case Some(p) => if |p.content| == 1 && p.content[0] < 0x80 then None else Some(p))
    else if d[0] < 0xc0 then CutLong(StringItem, d, d[0] - 0xb7)
    else if d[0] < 0xf8 then Cut(ListItem, d, 1, d[0] - 0xc0)
    else CutLong(ListItem, d, d[0] - 0xf7)
  }

  /** Exactly one item, nothing before or after. */
  predicate IsItem(d: Bytes) {
    Split(d).Some? && Split(d).value.rest == []
  }

  /** Reading an item does not look past its end. */
  lemma SplitExtends(d: Bytes, x: Bytes)
    requires Split(d).Some?
    ensures Split(d + x) == Some(Split(d).value.(rest := Split(d).value.rest + x))
  {
    var s := d + x;
    assert s[0] == d[0];
    if 0xb8 <= d[0] < 0xc0 || 0xf8 <= d[0] {
      var width := if d[0] < 0xc0 then d[0] - 0xb7 else d[0] - 0xf7;
      assert s[1..1 + width] == d[1..1 + width];
      CutExtends(if d[0] < 0xc0 then StringItem else ListItem, d, 1 + width, FromBE(d[1..1 + width]), x);
    } else if d[0] < 0x80 {
      CutExtends(StringItem, d, 0, 1, x);
    } else if d[0] < 0xb8 {
      CutExtends(StringItem, d, 1, d[0] - 0x80, x);
    } else {
      CutExtends(ListItem, d, 1, d[0] - 0xc0, x);
    }
  }

  lemma CutExtends(kind: Kind, d: Bytes, head: nat, length: nat, x: Bytes)
    requires Cut(kind, d, head, length).Some?
    ensures var p := Cut(kind, d, head, length).value;
            Cut(kind, d + x, head, length) == Some(p.(rest := p.rest + x))
  {
    assert (d + x)[head..head + length] == d[head..head + length];
    assert (d + x)[head + length..] == d[head + length..] + x;
  }

  function KindOf(short: Byte): Kind {
    if short == 0x80 then StringItem else ListItem
  }

  lemma SplitOfShort(short: Byte, payload: Bytes, rest: Bytes)
    requires (short == 0x80 || short == 0xc0) && |payload| < 56
    requires short == 0x80 && |payload| == 1 ==> payload[0] >= 0x80
    ensures Split([short + |payload|] + payload + rest) == Some(Piece(KindOf(short), payload, rest))
  {
    var d := [short + |payload|] + payload + rest;
    assert d[1..1 + |payload|] == payload && d[1 + |payload|..] == rest;
    hide CutLong;
  }

  lemma SplitOfLong(short: Byte, len: Bytes, payload: Bytes, rest: Bytes)
    requires (short == 0x80 || short == 0xc0) && 0 < |len| <= 8 && len[0] != 0 && FromBE(len) == |payload| >= 56
    ensures Split([short + 55 + |len|] + len + payload + rest) == Some(Piece(KindOf(short), payload, rest))
  {
    hide FromBE, Split, CutLong;
    var d := [short + 55 + |len|] + len + payload + rest;
    LongPieces(short + 55 + |len|, len, payload, rest);
    SplitsLong(short, d, |len|);
    CutsLong(KindOf(short), d, len, payload, rest);
  }

  lemma SplitsLong(short: Byte, d: Bytes, width: nat)
    requires (short == 0x80 || short == 0xc0) && 0 < width <= 8 && d != [] && d[0] == short + 55 + width
    ensures Split(d) == CutLong(KindOf(short), d, width)
  {
    hide CutLong;
  }

  lemma CutsLong(kind: Kind, d: Bytes, len: Bytes, payload: Bytes, rest: Bytes)
    requires 0 < |len| && len[0] != 0 && FromBE(len) == |payload| >= 56
    requires var head := 1 + |len|;
             && |d| == head + |payload| + |rest| && d[1] == len[0] && d[1..head] == len
             && d[head..head + |payload|] == payload && d[head + |payload|..] == rest
    ensures CutLong(kind, d, |len|) == Some(Piece(kind, payload, rest))
  {
    hide FromBE;
  }

  lemma LongPieces(b: Byte, len: Bytes, payload: Bytes, rest: Bytes)
    requires len != []
    ensures var d := [b] + len + payload + rest;
            var head := 1 + |len|;
            && |d| == head + |payload| + |rest| && d[0] == b && d[1] == len[0] && d[1..head] == len
            && d[head..head + |payload|] == payload && d[head + |payload|..] == rest
  {
  }

  /** The reader undoes a header: both sides of the 55/56-byte boundary, every long length. */
  lemma SplitOfHeader(short: Byte, payload: Bytes, rest: Bytes)
    requires short == 0x80 || short == 0xc0
    requires Header(short, |payload|).Some?
    requires short == 0x80 && |payload| == 1 ==> payload[0] >= 0x80
    ensures Split(Header(short, |payload|).value + payload + rest)
         == Some(Piece(if short == 0x80 then StringItem else ListItem, payload, rest))
  {
    hide Split;
    if |payload| < 56 {
      SplitOfShort(short, payload, rest);
    } else {
      var len := MinimalBE(|payload|);
      MinimalBERoundTrip(|payload|);
      MinimalBELength(|payload|, 8);
      hide MinimalBE, FromBE, Pow256;
      SplitOfLong(short, len, payload, rest);
      assert [short + 55 + |len|] + len + payload + rest == ([short + 55 + |len|] + len) + payload + rest;
    }
  }

  lemma SplitOfString(s: Bytes, rest: Bytes)
    requires EncodeString(s).Some?
    ensures Split(EncodeString(s).value + rest) == Some(Piece(StringItem, s, rest))
  {
    var d := EncodeString(s).value + rest;
    if |s| == 1 && s[0] < 0x80 {
      assert d[0] == s[0] && d[0..1] == s && d[1..] == rest;
    } else {
      SplitOfHeader(0x80, s, rest);
    }
  }

  lemma SplitOfList(payload: Bytes, rest: Bytes)
    requires EncodeList(payload).Some?
    ensures Split(EncodeList(payload).value + rest) == Some(Piece(ListItem, payload, rest))
  {
    SplitOfHeader(0xc0, payload, rest);
  }

  /** Every encoding of an RLP tree is one item for the strict reader. */
  lemma TreeIsItem(item: Item)
    requires Encode(item).Some?
    ensures IsItem(Encode(item).value)
  {
    var e := Encode(item).value;
    assert e + [] == e;
    match item
    case Str(s) => SplitOfString(s, []);
    case List(items) => SplitOfList(EncodeAll(items).value, []);
  }

  /** The encoding of an item of one kind around its content. */
  function EncodePiece(kind: Kind, content: Bytes): Option<Bytes> {
    if kind == StringItem then EncodeString(content) else EncodeList(content)
  }

  lemma ShortEncodes(short: Byte, payload: Bytes)
    requires (short == 0x80 || short == 0xc0) && |payload| < 56
    ensures Header(short, |payload|) == Some([short + |payload|])
  {
  }

  lemma LongEncodes(short: Byte, len: Bytes, payload: Bytes)
    requires (short == 0x80 || short == 0xc0) && 0 < |len| <= 8 && len[0] != 0
    requires FromBE(len) == |payload| >= 56
    ensures Header(short, |payload|) == Some([short + 55 + |len|] + len)
  {
    hide Pow256, MinimalBE, FromBE;
    MinimalBEUnique(len);
    FromBEBound(len);
    Pow256Grows(|len|, 8);
  }

  lemma CutJoins(kind: Kind, d: Bytes, head: nat, length: nat)
    requires Cut(kind, d, head, length).Some?
    ensures var p := Cut(kind, d, head, length).value;
            p.kind == kind && |p.content| == length && d == d[..head] + p.content + p.rest
  {
  }

  lemma CutLongEncodes(kind: Kind, short: Byte, d: Bytes, width: nat)
    requires short == (if kind == StringItem then 0x80 else 0xc0)
    requires 0 < width <= 8 && CutLong(kind, d, width).Some? && d[0] == short + 55 + width
    ensures var p := CutLong(kind, d, width).value;
            p.kind == kind && |p.content| >= 56
            && Header(short, |p.content|).Some? && d == Header(short, |p.content|).value + p.content + p.rest
  {
    var len := d[1..1 + width];
    CutJoins(kind, d, 1 + width, FromBE(len));
    LongEncodes(short, len, CutLong(kind, d, width).value.content);
    assert d[..1 + width] == [d[0]] + len;
  }

  lemma CutShortEncodes(kind: Kind, short: Byte, d: Bytes, length: nat)
    requires short == (if kind == StringItem then 0x80 else 0xc0)
    requires length < 56 && Cut(kind, d, 1, length).Some? && d[0] == short + length
    ensures var p := Cut(kind, d, 1, length).value;
            p.kind == kind && |p.content| == length
            && Header(short, |p.content|).Some? && d == Header(short, |p.content|).value + p.content + p.rest
  {
    CutJoins(kind, d, 1, length);
    ShortEncodes(short, Cut(kind, d, 1, length).value.content);
    assert d[..1] == [d[0]];
  }

  /** The strict reader accepts nothing but encodings: what it reads off a stream is the one encoding
      of the content it found. */
  lemma SplitEncodes(d: Bytes)
    requires Split(d).Some?
    ensures var p := Split(d).value;
            EncodePiece(p.kind, p.content).Some? && d == EncodePiece(p.kind, p.content).value + p.rest
  {
    hide Header, Cut, CutLong;
    if d[0] < 0x80 {
      CutJoins(StringItem, d, 0, 1);
      SmallByte(d);
    } else if d[0] < 0xb8 {
      CutShortEncodes(StringItem, 0x80, d, d[0] - 0x80);
    } else if d[0] < 0xc0 {
      CutLongEncodes(StringItem, 0x80, d, d[0] - 0xb7);
    } else if d[0] < 0xf8 {
      CutShortEncodes(ListItem, 0xc0, d, d[0] - 0xc0);
    } else {
      CutLongEncodes(ListItem, 0xc0, d, d[0] - 0xf7);
    }
  }

  lemma SmallByte(d: Bytes)
    requires d != [] && d[0] < 0x80
    ensures Cut(StringItem, d, 0, 1) == Some(Piece(StringItem, [d[0]], d[1..])) && d == [d[0]] + d[1..]
  {
    assert d[0..1] == [d[0]];
  }

  // ----- the sidecar's encoder ------------------------------------------------------------

  /** A transaction with its priority, as sent to the node. */
  datatype IpcTx = IpcTx(txRlp: Bytes, priority: int, extraData: Bytes)

  /** Big-endian bytes of a length, most significant first. */
  method EncodeLength(n: nat) returns (buf: Bytes)
    ensures FromBE(buf) == n
    ensures buf != [] && (buf[0] == 0 ==> n == 0 && |buf| == 1)
    ensures n > 0 ==> buf == MinimalBE(n)
  {
    if n == 0 {
      buf := [0];
      assert buf[..0] == [] && FromBE(buf) == FromBE(buf[..0]) * 256 + buf[0];
      return;
    }
    buf := [];
    var m := n;
    while m > 0
      invariant MinimalBE(m) + buf == MinimalBE(n)
    {
      buf := [m % 256] + buf;
      m := m / 256;
    }
    assert [] + buf == buf;
    MinimalBERoundTrip(n);
  }

  /** The list header of a payload length; Go slice lengths are below 2^63. */
  method EncodeRlpListHeader(length: nat) returns (header: Bytes)
    requires length < 0x8000_0000_0000_0000
    ensures Header(0xc0, length) == Some(header)
  {
    Pow256Values();
    if length < 56 {
      return [0xc0 + length];
    }
    var lenBytes := EncodeLength(length);
    MinimalBELength(length, 8);
    header := [0xf7 + |lenBytes|] + lenBytes;
  }

  /** Extra data: the empty list when empty, a string otherwise. */
  function EncodeExtra(extra: Bytes): Option<Bytes> {
    if extra == [] then Some([0xc0]) else EncodeString(extra)
  }

  /** What the envelope holds between its list header and its end. */
  function Payload(tx: IpcTx): Option<Bytes> {
    if tx.priority < 0 then None
    else
      var priority := EncodeString(MinimalBE(tx.priority));
      var extra := EncodeExtra(tx.extraData);
      if priority.None? || extra.None? then None
      else Some(tx.txRlp + (priority.value + extra.value))
  }

  /** A payload that fits in a Go slice. */
  predicate Fits(tx: IpcTx) {
    Payload(tx).Some? ==> |Payload(tx).value| < 0x8000_0000_0000_0000
  }

  /** The reference meaning of encoding an envelope. */
  function Envelope(tx: IpcTx): Option<Bytes> {
    match Payload(tx)
    case None => None
    case Some(payload) => EncodeList(payload)
  }

  /** Fails exactly on a negative priority or an item too long to encode. */
  method EncodeRlp(tx: IpcTx) returns (result: Option<Bytes>)
    requires Fits(tx)
    ensures result == Envelope(tx)
  {
    var buf := tx.txRlp;
    if tx.priority < 0 {
      return None;
    }
    var priorityRlp := EncodeString(MinimalBE(tx.priority));
    if priorityRlp.None? {
      return None;
    }
    buf := buf + priorityRlp.value;
    if tx.extraData == [] {
      buf := buf + [0xc0];
    } else {
      var extraDataRlp := EncodeString(tx.extraData);
      if extraDataRlp.None? {
        return None;
      }
      buf := buf + extraDataRlp.value;
    }
    assert buf == tx.txRlp + (priorityRlp.value + EncodeExtra(tx.extraData).value);
    var header := EncodeRlpListHeader(|buf|);
    result := Some(header + buf);
  }

  // ----- parse-back ---------------------------------------------------------------------------

  /** Strict reader of the node's layout: one list of exactly three items - any item as the raw
      transaction, a string without leading zeros as the priority, and a non-empty string or
      the empty list as the extra data. */
  function ParseEnvelope(d: Bytes): Option<IpcTx> {
    match Split(d)
    case None => None
    case Some(p) => if p.kind == ListItem && p.rest == [] then ParsePayload(p.content) else None
  }

  function ParsePayload(payload: Bytes): Option<IpcTx> {
    match Split(payload)
    case None => None
    case Some(first) =>
      SplitConsumes(payload);
      match ParseTail(first.rest)
      case None => None
      case Some((priority, extra)) => Some(IpcTx(payload[..|payload| - |first.rest|], priority, extra))
  }

  function ParseTail(d: Bytes): Option<(nat, Bytes)> {
    match Split(d)
    case None => None
    case Some(p) =>
      if p.kind != StringItem || (p.content != [] && p.content[0] == 0) then None
      else
        match ParseExtra(p.rest)
        case None => None
        case Some(extra) => Some((FromBE(p.content), extra))
  }

  function ParseExtra(d: Bytes): Option<Bytes> {
    match Split(d)
    case None => None
    case Some(p) =>
      if p.rest == [] && (p.kind == ListItem <==> p.content == []) then Some(p.content) else None
  }

  lemma SplitConsumes(d: Bytes)
    requires Split(d).Some?
    ensures |Split(d).value.rest| < |d|
  {
  }

  lemma ExtraParses(extra: Bytes)
    requires EncodeExtra(extra).Some?
    ensures ParseExtra(EncodeExtra(extra).value) == Some(extra)
  {
    var d := EncodeExtra(extra).value;
    if extra == [] {
      assert d[1..1] == [] && d[1..] == [];
    } else {
      SplitOfString(extra, []);
      assert d + [] == d;
    }
  }

  lemma TailParses(number: nat, priority: Bytes, extraData: Bytes, extra: Bytes)
    requires EncodeString(MinimalBE(number)) == Some(priority) && EncodeExtra(extraData) == Some(extra)
    ensures ParseTail(priority + extra) == Some((number, extraData))
  {
    SplitOfString(MinimalBE(number), extra);
    MinimalBERoundTrip(number);
    ExtraParses(extraData);
  }

  lemma PayloadParses(txRlp: Bytes, tail: Bytes)
    requires IsItem(txRlp) && ParseTail(tail).Some?
    ensures ParsePayload(txRlp + tail) == Some(IpcTx(txRlp, ParseTail(tail).value.0, ParseTail(tail).value.1))
  {
    SplitExtends(txRlp, tail);
    assert [] + tail == tail;
    assert (txRlp + tail)[..|txRlp + tail| - |tail|] == txRlp;
  }

  /** An item read off the front of a stream is one item on its own. */
  lemma SplitAlone(d: Bytes)
    requires Split(d).Some?
    ensures |Split(d).value.rest| <= |d| && IsItem(d[..|d| - |Split(d).value.rest|])
  {
    SplitConsumes(d);
    var rest := Split(d).value.rest;
    var item := d[..|d| - |rest|];
    SplitKeepsRest(d);
    assert item[0] == d[0];
    if 0xb8 <= d[0] < 0xc0 || 0xf8 <= d[0] {
      var width := if d[0] < 0xc0 then d[0] - 0xb7 else d[0] - 0xf7;
      assert item[1..1 + width] == d[1..1 + width];
    }
  }

  lemma SplitKeepsRest(d: Bytes)
    requires Split(d).Some?
    ensures |Split(d).value.rest| <= |d| && d == d[..|d| - |Split(d).value.rest|] + Split(d).value.rest
  {
  }

  /** A strict reader of the layout recovers the raw transaction bytes, the priority and the extra data
      exactly when the raw bytes are one RLP item. */
  lemma EnvelopeParsesBack(tx: IpcTx)
    requires Envelope(tx).Some?
    ensures ParseEnvelope(Envelope(tx).value) == Some(tx) <==> IsItem(tx.txRlp)
  {
    var payload := Payload(tx).value;
    SplitOfList(payload, []);
    assert Envelope(tx).value + [] == Envelope(tx).value;
    var priority := EncodeString(MinimalBE(tx.priority)).value;
    var extra := EncodeExtra(tx.extraData).value;
    assert ParseEnvelope(Envelope(tx).value) == ParsePayload(payload);
    hide Envelope;
    if IsItem(tx.txRlp) {
      TailParses(tx.priority, priority, tx.extraData, extra);
      PayloadParses(tx.txRlp, priority + extra);
    }
    if ParsePayload(payload) == Some(tx) {
      SplitAlone(payload);
    }
  }

  lemma ExtraEncodes(d: Bytes)
    requires ParseExtra(d).Some?
    ensures EncodeExtra(ParseExtra(d).value) == Some(d)
  {
    SplitEncodes(d);
    var p := Split(d).value;
    hide Split;
    var e := EncodePiece(p.kind, p.content).value;
    assert e + [] == e;
    if p.kind == ListItem {
      assert [0xc0] + [] == [0xc0];
    }
  }

  lemma TailEncodes(d: Bytes)
    requires ParseTail(d).Some?
    ensures var (priority, extraData) := ParseTail(d).value;
            && EncodeString(MinimalBE(priority)).Some? && EncodeExtra(extraData).Some?
            && d == EncodeString(MinimalBE(priority)).value + EncodeExtra(extraData).value
  {
    SplitEncodes(d);
    var p := Split(d).value;
    MinimalBEUnique(p.content);
    ExtraEncodes(p.rest);
    hide Split, ParseExtra, EncodeString, EncodeExtra;
  }

  lemma PayloadEncodes(payload: Bytes)
    requires ParsePayload(payload).Some?
    ensures var tx := ParsePayload(payload).value;
            Payload(tx) == Some(payload) && IsItem(tx.txRlp)
  {
    var first := Split(payload).value;
    SplitAlone(payload);
    SplitKeepsRest(payload);
    TailEncodes(first.rest);
    hide Split, ParseTail, EncodeString, EncodeExtra, IsItem;
  }

  lemma ParsedEncodes(d: Bytes)
    requires ParseEnvelope(d).Some?
    ensures var tx := ParseEnvelope(d).value; Envelope(tx) == Some(d) && IsItem(tx.txRlp)
  {
    SplitEncodes(d);
    var p := Split(d).value;
    PayloadEncodes(p.content);
    var e := EncodePiece(p.kind, p.content).value;
    assert e + [] == e;
    hide Split, ParsePayload, Payload, IsItem, EncodeList;
  }

  /** Encoder and strict reader are inverse to each other: the reader reads an envelope from exactly the
      bytes the encoder writes for it, for raw bytes that are one item, and from no others. */
  lemma ReaderInvertsEncoder(d: Bytes, tx: IpcTx)
    ensures ParseEnvelope(d) == Some(tx) <==> Envelope(tx) == Some(d) && IsItem(tx.txRlp)
  {
    hide ParseEnvelope, Envelope, IsItem;
    if ParseEnvelope(d) == Some(tx) {
      ParsedEncodes(d);
    }
    if Envelope(tx) == Some(d) {
      EnvelopeParsesBack(tx);
    }
  }

  /** A typed transaction as the library marshals it: a type byte before a list. Two items, so a strict
      reader of the layout does not find the transaction - nor a priority, as it meets the list in its
      place. */
  lemma TypedTxIsLost(kind: Byte, fields: Bytes, tx: IpcTx)
    requires kind < 0x80 && EncodeList(fields).Some? && tx.txRlp == [kind] + EncodeList(fields).value
    requires Envelope(tx).Some?
    ensures !IsItem(tx.txRlp) && ParseEnvelope(Envelope(tx).value) == None
  {
    var payload := Payload(tx).value;
    SplitOfList(payload, []);
    assert Envelope(tx).value + [] == Envelope(tx).value;
    var tail := EncodeString(MinimalBE(tx.priority)).value + EncodeExtra(tx.extraData).value;
    var list := EncodeList(fields).value;
    assert payload == [kind] + (list + tail);
    SplitOfList(fields, tail);
    SmallByte([kind] + (list + tail));
    SmallByte([kind] + list);
    assert ([kind] + (list + tail))[1..] == list + tail && ([kind] + list)[1..] == list;
    hide Envelope, EncodeList, Payload, EncodeString, EncodeExtra;
  }

  /** The shape at its smallest: type 2, an empty list, priority 1. */
  lemma TypedTxExample()
    ensures var tx := IpcTx([0x02, 0xc0], 1, []);
            && Envelope(tx) == Some([0xc4, 0x02, 0xc0, 0x01, 0xc0])
            && ParseEnvelope([0xc4, 0x02, 0xc0, 0x01, 0xc0]) == None
  {
    var tx := IpcTx([0x02, 0xc0], 1, []);
    assert MinimalBE(1) == [] + [1] == [1];
    assert EncodeList([]) == Some([0xc0]) by {
      assert [0xc0] + [] == [0xc0];
    }
    assert Payload(tx) == Some([0x02, 0xc0] + ([0x01] + [0xc0]));
    assert [0x02, 0xc0] + ([0x01] + [0xc0]) == [0x02, 0xc0, 0x01, 0xc0];
    assert [0xc4] + [0x02, 0xc0, 0x01, 0xc0] == [0xc4, 0x02, 0xc0, 0x01, 0xc0];
    assert tx.txRlp == [0x02] + [0xc0];
    TypedTxIsLost(0x02, [], tx);
  }

  /** Different envelopes never share an encoding. */
  lemma EnvelopeInjective(a: IpcTx, b: IpcTx)
    requires IsItem(a.txRlp) && IsItem(b.txRlp)
    requires Envelope(a).Some? && Envelope(a) == Envelope(b)
    ensures a == b
  {
    EnvelopeParsesBack(a);
    EnvelopeParsesBack(b);
  }

  /** Without that condition two envelopes can share an encoding: bytes of the raw transaction and
      bytes of the priority cannot be told apart. */
  lemma EnvelopesCollide()
    ensures var a, b := IpcTx([0x01], 0x0201, []), IpcTx([0x01, 0x82, 0x02], 0x01, []);
            a != b && Envelope(a).Some? && Envelope(a) == Envelope(b)
  {
    var payload: Bytes := [0x01, 0x82, 2, 1, 0xc0];
    hide EncodeList;
    assert Payload(IpcTx([0x01], 0x0201, [])) == Some(payload) by {
      assert MinimalBE(2) == [] + [2] == [2];
      assert MinimalBE(0x0201) == MinimalBE(2) + [1] == [2, 1];
      assert [0x82] + [2, 1] == [0x82, 2, 1];
      assert [0x01] + ([0x82, 2, 1] + [0xc0]) == payload;
    }
    assert Payload(IpcTx([0x01, 0x82, 0x02], 0x01, [])) == Some(payload) by {
      assert MinimalBE(1) == [] + [1] == [1];
      assert [0x01, 0x82, 0x02] + ([0x01] + [0xc0]) == payload;
    }
    ShortList(payload);
  }

  lemma ShortList(payload: Bytes)
    requires |payload| < 56
    ensures EncodeList(payload).Some?
  {
  }

  /** Extra data as an item. */
  function ExtraItem(extra: Bytes): Item {
    if extra == [] then List([]) else Str(extra)
  }

  /** Over a transaction that is itself an RLP tree, the envelope is the reference encoding of
      the three-item list, with empty extra data written as the empty list. */
  lemma EnvelopeIsTree(item: Item, tx: IpcTx)
    requires Encode(item) == Some(tx.txRlp) && Envelope(tx).Some?
    ensures Encode(List([item, Str(MinimalBE(tx.priority)), ExtraItem(tx.extraData)])) == Envelope(tx)
  {
    var p, e := Str(MinimalBE(tx.priority)), ExtraItem(tx.extraData);
    ExtraIsTree(tx.extraData);
    EncodeAllOne(e);
    EncodeAllMore(p, [e]);
    EncodeAllMore(item, [p, e]);
    assert [p] + [e] == [p, e] && [item] + [p, e] == [item, p, e];
  }

  /** An envelope over any RLP tree is the encoding of the three-item list over that tree, and a
      strict reader recovers it. */
  lemma TreeEnvelopeParsesBack(item: Item, tx: IpcTx)
    requires Encode(item) == Some(tx.txRlp) && Envelope(tx).Some?
    ensures ParseEnvelope(Envelope(tx).value) == Some(tx)
    ensures Encode(List([item, Str(MinimalBE(tx.priority)), ExtraItem(tx.extraData)])) == Envelope(tx)
  {
    TreeIsItem(item);
    EnvelopeParsesBack(tx);
    EnvelopeIsTree(item, tx);
  }

  lemma ExtraIsTree(extra: Bytes)
    ensures Encode(ExtraItem(extra)) == EncodeExtra(extra)
  {
    if extra == [] {
      assert EncodeAll([]) == Some([]);
      assert Header(0xc0, 0) == Some([0xc0]);
      assert [0xc0] + [] == [0xc0];
    }
  }

  lemma EncodeAllOne(item: Item)
    ensures EncodeAll([item]) == Encode(item)
  {
    if Encode(item).Some? {
      assert Encode(item).value + [] == Encode(item).value;
    }
  }

  lemma EncodeAllMore(first: Item, others: seq<Item>)
    requires Encode(first).Some? && EncodeAll(others).Some?
    ensures EncodeAll([first] + others) == Some(Encode(first).value + EncodeAll(others).value)
  {
    assert ([first] + others)[1..] == others;
  }

  /** An envelope whose pieces are encodable and whose payload fits is encodable. */
  lemma EnvelopeExists(tx: IpcTx)
    requires 0 <= tx.priority < Pow256(32)
    requires |tx.txRlp| < 0x7fff_0000_0000_0000 && tx.extraData == []
    ensures Envelope(tx).Some? && Fits(tx)
  {
    MinimalBELength(tx.priority, 32);
    Pow256Values();
  }

  /** An envelope adds at most the priority item, the empty list and a list header. */
  lemma EnvelopeSize(tx: IpcTx)
    requires Envelope(tx).Some? && 0 <= tx.priority < Pow256(32) && tx.extraData == []
    ensures |Envelope(tx).value| <= |tx.txRlp| + 43
  {
    var priority := EncodeString(MinimalBE(tx.priority)).value;
    StringSize(tx.priority);
    assert Payload(tx).value == tx.txRlp + (priority + [0xc0]);
    ListSize(Payload(tx).value);
    hide Payload, EncodeString, EncodeList;
  }

  lemma StringSize(n: nat)
    requires n < Pow256(32)
    ensures EncodeString(MinimalBE(n)).Some? && |EncodeString(MinimalBE(n)).value| <= 33
  {
    MinimalBELength(n, 32);
    Pow256Values();
  }

  lemma ListSize(payload: Bytes)
    requires EncodeList(payload).Some?
    ensures |EncodeList(payload).value| <= |payload| + 9
  {
    MinimalBELength(|payload|, 8);
  }
}
