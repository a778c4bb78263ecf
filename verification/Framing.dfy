/** Length-prefixed frames over a byte stream. */
module Framing {
  import opened Prelude
  import opened Endian

  const MAX_MESSAGE_SIZE: nat := 10 * 1024 * 1024
  const HEADER_SIZE: nat := 4

  // ----- the stream --------------------------------------------------------------------

  /** One end of a connection: the bytes the peer sends before it closes, the bytes already
      written, and how many more bytes the peer accepts before a write fails. */
  class Conn {
    var input: Bytes
    var output: Bytes
    var room: nat

    constructor (input: Bytes, room: nat)
      ensures this.input == input && this.output == [] && this.room == room
    {
      this.input, this.output, this.room := input, [], room;
    }

    /** Reads n bytes, or everything left when the stream ends first. */
    method ReadFull(n: nat) returns (buf: Bytes)
      modifies this`input
      ensures buf == Take(old(input), n) && input == Drop(old(input), n)
    {
      buf, input := Take(input, n), Drop(input, n);
    }

    /** Writes as much as the peer accepts; ok when that is everything. */
    method Write(data: Bytes) returns (ok: bool)
      modifies this`output, this`room
      ensures ok == (|data| <= old(room))
      ensures output == old(output) + Take(data, old(room))
      ensures room == if ok then old(room) - |data| else 0
    {
      ok := |data| <= room;
      output := output + Take(data, room);
      room := if ok then room - |data| else 0;
    }
  }

  function Take(s: Bytes, n: nat): Bytes {
    if n < |s| then s[..n] else s
  }

  function Drop(s: Bytes, n: nat): Bytes {
    if n < |s| then s[n..] else []
  }

  // ----- reading ---------------------------------------------------------------------------

  datatype ReadResult =
    | Frame(data: Bytes)
    | Closed
    | TornHeader
    | TooLarge(length: nat)
    | TornDiscard
    | TornBody

  /** The result of one read on a stream and the stream after it. */
  function NextFrame(input: Bytes): (ReadResult, Bytes) {
    if input == [] then (Closed, [])
    else if |input| < HEADER_SIZE then (TornHeader, [])
    else
      var length := FromBE(input[..HEADER_SIZE]);
      var body := input[HEADER_SIZE..];
      if length > MAX_MESSAGE_SIZE then
        (if |body| < length then TornDiscard else TooLarge(length), Drop(body, length))
      else if |body| < length then (TornBody, [])
      else (Frame(body[..length]), body[length..])
  }

  method ReadFrame(conn: Conn) returns (r: ReadResult)
    modifies conn`input
    ensures (r, conn.input) == NextFrame(old(conn.input))
  {
    var lengthBuf := conn.ReadFull(HEADER_SIZE);
    if |lengthBuf| < HEADER_SIZE {
      return if lengthBuf == [] then Closed else TornHeader;
    }
    assert conn.input == old(conn.input)[HEADER_SIZE..];
    assert lengthBuf == old(conn.input)[..HEADER_SIZE];
    var messageLen := FromBE(lengthBuf);
    if messageLen > MAX_MESSAGE_SIZE {
      var discarded := conn.ReadFull(messageLen);
      return if |discarded| < messageLen then TornDiscard else TooLarge(messageLen);
    }
    var data := conn.ReadFull(messageLen);
    if |data| < messageLen {
      return TornBody;
    }
    ghost var body := old(conn.input)[HEADER_SIZE..];
    assert data == body[..messageLen] && conn.input == body[messageLen..];
    return Frame(data);
  }

  // ----- writing ------------------------------------------------------------------------------

  /** The length is truncated to 32 bits, as the header field is. */
  function FrameBytes(body: Bytes): Bytes {
    ToBE(|body|, HEADER_SIZE) + body
  }

  datatype WriteResult = Written | Refused | TornWrite

  /** Refused bodies leave the stream alone; a failing peer keeps a prefix of the frame. */
  method WriteFrame(conn: Conn, data: Bytes) returns (r: WriteResult)
    modifies conn`output, conn`room
    ensures (r, conn.output, conn.room) == AfterWrite(old(conn.output), old(conn.room), data)
  {
    if |data| > MAX_MESSAGE_SIZE {
      return Refused;
    }
    var lengthBuf := ToBE(|data|, HEADER_SIZE);
    var ok := conn.Write(lengthBuf);
    if !ok {
      assert lengthBuf[..old(conn.room)] == FrameBytes(data)[..old(conn.room)];
      return TornWrite;
    }
    var ok' := conn.Write(data);
    if !ok' {
      assert lengthBuf + data[..old(conn.room) - HEADER_SIZE] == FrameBytes(data)[..old(conn.room)];
      assert conn.output == old(conn.output) + (lengthBuf + data[..old(conn.room) - HEADER_SIZE]);
      return TornWrite;
    }
    assert old(conn.output) + lengthBuf + data == old(conn.output) + FrameBytes(data);
    return Written;
  }

  function AfterWrite(output: Bytes, room: nat, data: Bytes): (WriteResult, Bytes, nat) {
    if |data| > MAX_MESSAGE_SIZE then (Refused, output, room)
    else if |FrameBytes(data)| <= room then (Written, output + FrameBytes(data), room - |FrameBytes(data)|)
    else (TornWrite, output + FrameBytes(data)[..room], 0)
  }

  // ----- resynchronisation ----------------------------------------------------------------------

  /** The stream of a sequence of bodies. */
  function Stream(bodies: seq<Bytes>): Bytes {
    if bodies == [] then [] else FrameBytes(bodies[0]) + Stream(bodies[1..])
  }

  /** n reads in a row. */
  function ReadMany(input: Bytes, n: nat): (seq<ReadResult>, Bytes)
    decreases n
  {
    if n == 0 then ([], input)
    else
      var (r, rest) := NextFrame(input);
      var (rs, end) := ReadMany(rest, n - 1);
      ([r] + rs, end)
  }

  /** What a whole frame reads as. */
  function Expected(body: Bytes): ReadResult {
    if |body| > MAX_MESSAGE_SIZE then TooLarge(|body|) else Frame(body)
  }

  function ExpectedAll(bodies: seq<Bytes>): (rs: seq<ReadResult>)
    ensures |rs| == |bodies| && forall i :: 0 <= i < |bodies| ==> rs[i] == Expected(bodies[i])
  {
    if bodies == [] then [] else [Expected(bodies[0])] + ExpectedAll(bodies[1..])
  }

  ghost predicate Sized(bodies: seq<Bytes>) {
    forall i :: 0 <= i < |bodies| ==> |bodies[i]| < 0x1_0000_0000
  }

  lemma NextOfFrame(body: Bytes, tail: Bytes)
    requires |body| < 0x1_0000_0000
    ensures NextFrame(FrameBytes(body) + tail) == (Expected(body), tail)
  {
    var s := FrameBytes(body) + tail;
    HeaderOfFrame(body, tail);
    hide FrameBytes;
    assert s[4..][..|body|] == body && s[4..][|body|..] == tail;
  }

  /** The limit, in bytes: a body of ten mebibytes is read, one more byte and it is refused. */
  lemma FrameLimit(body: Bytes, tail: Bytes, output: Bytes)
    requires |body| < 0x1_0000_0000
    ensures NextFrame(FrameBytes(body) + tail)
         == (if |body| <= 10_485_760 then Frame(body) else TooLarge(|body|), tail)
    ensures AfterWrite(output, 4 + |body|, body).0 == if |body| <= 10_485_760 then Written else Refused
  {
    NextOfFrame(body, tail);
  }

  lemma HeaderOfFrame(body: Bytes, tail: Bytes)
    requires |body| < 0x1_0000_0000
    ensures var s := FrameBytes(body) + tail;
            |s| == 4 + |body| + |tail| && FromBE(s[..4]) == |body| && s[4..] == body + tail
  {
    HeaderValue(body);
    hide ToBE, FromBE;
    var s := FrameBytes(body) + tail;
    assert s[..4] == ToBE(|body|, 4);
    assert s[4..] == body + tail;
  }

  lemma HeaderValue(body: Bytes)
    requires |body| < 0x1_0000_0000
    ensures FromBE(ToBE(|body|, 4)) == |body|
  {
    Pow256Values();
    BERoundTrip(|body|, 4);
  }

  /** Every frame, oversized or not, is consumed whole: reads stay on frame boundaries and
      return the bodies, or one error for each oversized one, in order. */
  lemma {:induction false} Resynchronises(bodies: seq<Bytes>, tail: Bytes)
    requires Sized(bodies)
    ensures ReadMany(Stream(bodies) + tail, |bodies|) == (ExpectedAll(bodies), tail)
  {
    if bodies == [] {
      assert Stream(bodies) + tail == tail;
    } else {
      var rest := Stream(bodies[1..]) + tail;
      assert Stream(bodies) + tail == FrameBytes(bodies[0]) + rest;
      NextOfFrame(bodies[0], rest);
      Resynchronises(bodies[1..], tail);
    }
  }

  /** The error a frame cut short reads as. */
  function CutError(body: Bytes, cut: nat): ReadResult {
    if cut == 0 then Closed
    else if cut < HEADER_SIZE then TornHeader
    else if |body| > MAX_MESSAGE_SIZE then TornDiscard
    else TornBody
  }

  lemma NextOfCut(body: Bytes, cut: nat)
    requires |body| < 0x1_0000_0000 && cut < |FrameBytes(body)|
    ensures NextFrame(FrameBytes(body)[..cut]) == (CutError(body, cut), [])
  {
    HeaderValue(body);
    hide ToBE, FromBE;
    var q := FrameBytes(body)[..cut];
    if cut >= HEADER_SIZE {
      assert q[..4] == ToBE(|body|, 4);
    }
  }

  /** A frame cut short: nothing at all, part of the header, or part of the body. */
  lemma CutKinds(body: Bytes, cut: nat)
    requires |body| < 0x1_0000_0000 && cut < 4 + |body|
    ensures NextFrame(FrameBytes(body)[..cut]).0
         == if cut == 0 then Closed
            else if cut < 4 then TornHeader
            else if |body| > 10_485_760 then TornDiscard
            else TornBody
  {
    NextOfCut(body, cut);
  }

  /** A stream cut inside a frame gives the frames before the cut and then an error, never a
      shorter or shifted body; the error leaves nothing to read. */
  lemma CutStream(bodies: seq<Bytes>, last: Bytes, cut: nat)
    requires Sized(bodies) && |last| < 0x1_0000_0000 && cut < |FrameBytes(last)|
    ensures ReadMany(Stream(bodies) + FrameBytes(last)[..cut], |bodies| + 1)
         == (ExpectedAll(bodies) + [CutError(last, cut)], [])
  {
    var q := FrameBytes(last)[..cut];
    Resynchronises(bodies, q);
    ReadOneMore(Stream(bodies) + q, |bodies|);
    NextOfCut(last, cut);
  }

  lemma {:induction false} ReadOneMore(input: Bytes, n: nat)
    ensures var (rs, rest) := ReadMany(input, n);
            var (r, end) := NextFrame(rest);
            ReadMany(input, n + 1) == (rs + [r], end)
    decreases n
  {
    var (r, rest) := NextFrame(input);
    if n == 0 {
      assert ReadMany(rest, 0) == ([], rest);
      assert [r] + [] == [] + [r];
    } else {
      ReadOneMore(rest, n - 1);
      var (rs, end) := ReadMany(rest, n - 1);
      assert [r] + (rs + [NextFrame(end).0]) == ([r] + rs) + [NextFrame(end).0];
    }
  }

  /** The bodies a writer got through, and the stream it left. */
  function WriteMany(output: Bytes, room: nat, bodies: seq<Bytes>): (seq<WriteResult>, Bytes)
    decreases |bodies|
  {
    if bodies == [] then ([], output)
    else
      var (r, out, left) := AfterWrite(output, room, bodies[0]);
      var (rs, end) := WriteMany(out, left, bodies[1..]);
      ([r] + rs, end)
  }

  function Accepted(bodies: seq<Bytes>): seq<Bytes> {
    if bodies == [] then []
    else (if |bodies[0]| <= MAX_MESSAGE_SIZE then [bodies[0]] else []) + Accepted(bodies[1..])
  }

  lemma TornFirst(output: Bytes, room: nat, bodies: seq<Bytes>)
    requires bodies != [] && TornWrite !in WriteMany(output, room, bodies).0
    ensures var (r, out, left) := AfterWrite(output, room, bodies[0]);
            && r != TornWrite && TornWrite !in WriteMany(out, left, bodies[1..]).0
            && WriteMany(output, room, bodies).1 == WriteMany(out, left, bodies[1..]).1
  {
    var (r, out, left) := AfterWrite(output, room, bodies[0]);
    hide AfterWrite;
    var rs := WriteMany(out, left, bodies[1..]).0;
    assert r in [r] + rs && forall x :: x in rs ==> x in [r] + rs;
  }

  lemma FirstOfStream(body: Bytes, others: seq<Bytes>)
    ensures Stream([body] + others) == FrameBytes(body) + Stream(others)
  {
    assert ([body] + others)[1..] == others;
  }

  /** One write: the stream grows by the frame of an accepted body and not at all otherwise. */
  lemma WriteOne(output: Bytes, room: nat, bodies: seq<Bytes>)
    requires bodies != [] && AfterWrite(output, room, bodies[0]).0 != TornWrite
    ensures AfterWrite(output, room, bodies[0]).1 + Stream(Accepted(bodies[1..])) == output + Stream(Accepted(bodies))
  {
    hide FrameBytes;
    var others := Accepted(bodies[1..]);
    if |bodies[0]| <= MAX_MESSAGE_SIZE {
      assert AfterWrite(output, room, bodies[0]).1 == output + FrameBytes(bodies[0]);
      assert Accepted(bodies) == [bodies[0]] + others;
      hide Accepted, AfterWrite, Stream;
      FirstOfStream(bodies[0], others);
      Regroup(output, FrameBytes(bodies[0]), Stream(others));
    } else {
      assert Accepted(bodies) == [] + others == others;
    }
  }

  lemma Regroup(a: Bytes, b: Bytes, c: Bytes)
    ensures a + b + c == a + (b + c)
  {
  }

  lemma {:induction false} AcceptedSizes(bodies: seq<Bytes>)
    ensures Sized(Accepted(bodies))
    ensures forall i :: 0 <= i < |Accepted(bodies)| ==> |Accepted(bodies)[i]| <= MAX_MESSAGE_SIZE
    decreases |bodies|
  {
    if bodies != [] {
      AcceptedSizes(bodies[1..]);
    }
  }

  lemma {:induction false} WritesAccepted(output: Bytes, room: nat, bodies: seq<Bytes>)
    requires TornWrite !in WriteMany(output, room, bodies).0
    ensures WriteMany(output, room, bodies).1 == output + Stream(Accepted(bodies))
    ensures Sized(Accepted(bodies))
    ensures forall i :: 0 <= i < |Accepted(bodies)| ==> |Accepted(bodies)[i]| <= MAX_MESSAGE_SIZE
    decreases |bodies|
  {
    AcceptedSizes(bodies);
    if bodies == [] {
      assert output + [] == output;
    } else {
      TornFirst(output, room, bodies);
      WriteOne(output, room, bodies);
      hide AfterWrite, Accepted, Stream, WriteMany;
      var (_, out, left) := AfterWrite(output, room, bodies[0]);
      WritesAccepted(out, left, bodies[1..]);
    }
  }

  function FrameAll(bodies: seq<Bytes>): (rs: seq<ReadResult>)
    ensures |rs| == |bodies| && forall i :: 0 <= i < |bodies| ==> rs[i] == Frame(bodies[i])
  {
    if bodies == [] then [] else [Frame(bodies[0])] + FrameAll(bodies[1..])
  }

  /** Whatever was written without a failing peer reads back as the accepted bodies, identically
      and in order, and then the end of the stream. */
  lemma WritesReadBack(room: nat, bodies: seq<Bytes>)
    requires TornWrite !in WriteMany([], room, bodies).0
    ensures ReadMany(WriteMany([], room, bodies).1, |Accepted(bodies)| + 1)
         == (FrameAll(Accepted(bodies)) + [Closed], [])
  {
    var sent := Accepted(bodies);
    WritesAccepted([], room, bodies);
    assert Stream(sent) + [] == Stream(sent) == [] + Stream(sent);
    Resynchronises(sent, []);
    ReadOneMore(Stream(sent), |sent|);
    assert ExpectedAll(sent) == FrameAll(sent);
  }
}
