/** The reader of one connection: the snapshot, then batch after batch, each read off the stream,
    decoded and forwarded to the event channel. */
module ReadLoop {
  import opened Prelude
  import opened Endian
  import opened Bincode
  import Framing
  import BincodeDecoder
  import EventChannel

  /** One length-prefixed message; nothing when the stream ends before it does. The reader does not
      limit the length. */
  function ReadMessage(input: Bytes): (r: (Option<Bytes>, Bytes))
    ensures r.0.Some? ==> |r.1| < |input|
  {
    if |input| < 4 then (None, [])
    else
      var length := FromBE(input[..4]);
      var body := input[4..];
      if |body| < length then (None, []) else (Some(body[..length]), body[length..])
  }

  /** How a reader ends: the connection is lost, the snapshot does not decode, or a decoder panics. */
  datatype Ending = Lost | BadSnapshot | Crashed

  /** The events offered while reading batches, and how it ends. A batch that does not decode is
      skipped. */
  function ReadBatches(rt: Runtime, input: Bytes): (seq<Event>, Ending)
    decreases |input|
  {
    match ReadMessage(input)
    case (None, _) => ([], Lost)
    case (Some(data), rest) =>
      match ParseEvents(rt, data)
      case Fail(Panic) => ([], Crashed)
      case Fail(_) => ReadBatches(rt, rest)
      case Ok((events, _)) =>
        var (others, ending) := ReadBatches(rt, rest);
        (events + others, ending)
  }

  function ReadSession(rt: Runtime, input: Bytes): (seq<Event>, Ending) {
    match ReadMessage(input)
    case (None, _) => ([], Lost)
    case (Some(data), rest) =>
      match ParseSnapshot(rt, data)
      case Fail(Panic) => ([], Crashed)
      case Fail(_) => ([], BadSnapshot)
      case Ok(_) => ReadBatches(rt, rest)
  }

  // ----- the loop itself ------------------------------------------------------------------

  method ReadOne(conn: Framing.Conn) returns (data: Option<Bytes>)
    modifies conn`input
    ensures (data, conn.input) == ReadMessage(old(conn.input))
  {
    var header := conn.ReadFull(4);
    if |header| < 4 {
      return None;
    }
    assert header == old(conn.input)[..4] && conn.input == old(conn.input)[4..];
    var length := FromBE(header);
    var body := conn.ReadFull(length);
    if |body| < length {
      return None;
    }
    ghost var left := old(conn.input)[4..];
    assert body == left[..length] && conn.input == left[length..];
    data := Some(body);
  }

  /** Reads a connection to its end. Whatever the event loop and the readers of other connections do
      meanwhile - `others(k, i)` before event i of batch k - this reader offers the channel exactly
      the events of its session, in order. */
  method ReadEvents(rt: Runtime, conn: Framing.Conn, channel: EventChannel.Channel<Event>, reader: nat,
                    others: (nat, nat) -> seq<EventChannel.Op<Event>>)
    returns (ending: Ending)
    requires channel.Valid() && forall k, i :: EventChannel.Foreign(reader, others(k, i))
    modifies conn`input, channel
    ensures channel.Valid()
    ensures ending == ReadSession(rt, old(conn.input)).1
    ensures EventChannel.OffersOf(reader, channel.ops)
         == EventChannel.OffersOf(reader, old(channel.ops)) + ReadSession(rt, old(conn.input)).0
  {
    hide EventChannel.RunOps, EventChannel.OffersOf, ParseEvents, ParseSnapshot, ReadMessage;
    var snapshot := ReadOne(conn);
    if snapshot.None? {
      return Lost;
    }
    var hashes := BincodeDecoder.DecodeEthTxPoolSnapshot(rt, snapshot.value);
    if hashes.Fail? {
      return if hashes.error == Panic then Crashed else BadSnapshot;
    }
    ending := ReadAll(rt, conn, channel, reader, others);
  }

  /** The loop over the batches. */
  method ReadAll(rt: Runtime, conn: Framing.Conn, channel: EventChannel.Channel<Event>, reader: nat,
                 others: (nat, nat) -> seq<EventChannel.Op<Event>>)
    returns (ending: Ending)
    requires channel.Valid() && forall k, i :: EventChannel.Foreign(reader, others(k, i))
    modifies conn`input, channel
    ensures channel.Valid()
    ensures ending == ReadBatches(rt, old(conn.input)).1
    ensures EventChannel.OffersOf(reader, channel.ops)
         == EventChannel.OffersOf(reader, old(channel.ops)) + ReadBatches(rt, old(conn.input)).0
  {
    hide EventChannel.RunOps, EventChannel.OffersOf, ParseEvents, ReadMessage, EventChannel.Foreign;
    var batch: nat := 0;
    ghost var offered := [];
    assert [] + ReadBatches(rt, conn.input).0 == ReadBatches(rt, conn.input).0;
    while true
      invariant channel.Valid()
      invariant EventChannel.OffersOf(reader, channel.ops) == EventChannel.OffersOf(reader, old(channel.ops)) + offered
      invariant ReadBatches(rt, old(conn.input))
             == (offered + ReadBatches(rt, conn.input).0, ReadBatches(rt, conn.input).1)
      decreases |conn.input|
    {
      ghost var before := conn.input;
      var data := ReadOne(conn);
      if data.None? {
        return Lost;
      }
      var events := BincodeDecoder.DecodeEthTxPoolEvents(rt, data.value);
      if events.Ok? {
        var k := batch;
        var _ := channel.Forward(reader, events.value, (i: nat) => others(k, i));
        batch := batch + 1;
        Joined(offered, events.value, ReadBatches(rt, conn.input).0);
        Joined(EventChannel.OffersOf(reader, old(channel.ops)), offered, events.value);
        offered := offered + events.value;
      } else if events.error == Panic {
        return Crashed;
      }
    }
  }

  lemma Joined<T>(a: seq<T>, b: seq<T>, c: seq<T>)
    ensures a + (b + c) == (a + b) + c
  {
  }

  // ----- what a stream of frames delivers --------------------------------------------------------

  /** The events of a body, none when it does not decode. */
  function EventsOf(rt: Runtime, body: Bytes): seq<Event> {
    match ParseEvents(rt, body)
    case Fail(_) => []
    case Ok((events, _)) => events
  }

  /** The events of the bodies that decode, in order. */
  function Delivered(rt: Runtime, bodies: seq<Bytes>): seq<Event> {
    if bodies == [] then [] else EventsOf(rt, bodies[0]) + Delivered(rt, bodies[1..])
  }

  ghost predicate NonePanics(rt: Runtime, bodies: seq<Bytes>) {
    forall i :: 0 <= i < |bodies| ==> ParseEvents(rt, bodies[i]) != Fail(Panic)
  }

  lemma MessageOfFrame(body: Bytes, tail: Bytes)
    requires |body| < 0x1_0000_0000
    ensures ReadMessage(Framing.FrameBytes(body) + tail) == (Some(body), tail)
  {
    var s := Framing.FrameBytes(body) + tail;
    Framing.HeaderOfFrame(body, tail);
    hide Framing.FrameBytes;
    assert s[4..][..|body|] == body && s[4..][|body|..] == tail;
  }

  lemma MessageOfCut(body: Bytes, cut: nat)
    requires |body| < 0x1_0000_0000 && cut < |Framing.FrameBytes(body)|
    ensures ReadMessage(Framing.FrameBytes(body)[..cut]) == (None, [])
  {
    Pow256Values();
    BERoundTrip(|body|, 4);
    var q := Framing.FrameBytes(body)[..cut];
    if cut >= 4 {
      assert q[..4] == ToBE(|body|, 4);
    }
  }

  lemma NextBatch(rt: Runtime, input: Bytes, body: Bytes, rest: Bytes)
    requires ReadMessage(input) == (Some(body), rest) && ParseEvents(rt, body) != Fail(Panic)
    ensures var (events, ending) := ReadBatches(rt, rest);
            ReadBatches(rt, input) == (EventsOf(rt, body) + events, ending)
  {
    hide ReadMessage, ParseEvents;
    if ParseEvents(rt, body).Fail? {
      assert [] + ReadBatches(rt, rest).0 == ReadBatches(rt, rest).0;
    }
  }

  lemma FirstDelivers(rt: Runtime, body: Bytes, rest: Bytes)
    requires |body| < 0x1_0000_0000 && ParseEvents(rt, body) != Fail(Panic)
    ensures var (events, ending) := ReadBatches(rt, rest);
            ReadBatches(rt, Framing.FrameBytes(body) + rest) == (EventsOf(rt, body) + events, ending)
  {
    hide ReadMessage, ParseEvents, Framing.FrameBytes, ReadBatches, EventsOf;
    MessageOfFrame(body, rest);
    NextBatch(rt, Framing.FrameBytes(body) + rest, body, rest);
  }

  /** Whole frames are read one by one, whatever follows them. */
  lemma {:induction false} BatchesDeliver(rt: Runtime, bodies: seq<Bytes>, tail: Bytes)
    requires Framing.Sized(bodies) && NonePanics(rt, bodies)
    ensures var (events, ending) := ReadBatches(rt, tail);
            ReadBatches(rt, Framing.Stream(bodies) + tail) == (Delivered(rt, bodies) + events, ending)
  {
    hide ParseEvents, EventsOf, ReadBatches, Framing.FrameBytes;
    var (events, ending) := ReadBatches(rt, tail);
    if bodies == [] {
      assert Framing.Stream(bodies) + tail == tail && Delivered(rt, bodies) + events == events;
    } else {
      var rest := Framing.Stream(bodies[1..]) + tail;
      assert Framing.Stream(bodies) + tail == Framing.FrameBytes(bodies[0]) + rest;
      FirstDelivers(rt, bodies[0], rest);
      BatchesDeliver(rt, bodies[1..], tail);
      var first, others := EventsOf(rt, bodies[0]), Delivered(rt, bodies[1..]);
      assert first + (others + events) == (first + others) + events;
    }
  }

  /** End to end: on a connection that sends a snapshot, any frames, and then breaks off inside one,
      the events offered are exactly those of the frames that decode, in order; every read ends on
      a frame boundary and the cut frame delivers nothing. */
  lemma SessionDelivers(rt: Runtime, hashes: seq<Hash>, bodies: seq<Bytes>, last: Bytes, cut: nat)
    requires |hashes| < U64_LIMIT && |hashes| <= rt.maxHashes && |EncodeSnapshot(hashes)| < 0x1_0000_0000
    requires Framing.Sized(bodies) && NonePanics(rt, bodies)
    requires |last| < 0x1_0000_0000 && cut < |Framing.FrameBytes(last)|
    ensures var tail := Framing.Stream(bodies) + Framing.FrameBytes(last)[..cut];
            ReadSession(rt, Framing.FrameBytes(EncodeSnapshot(hashes)) + tail) == (Delivered(rt, bodies), Lost)
  {
    var tail := Framing.FrameBytes(last)[..cut];
    MessageOfCut(last, cut);
    BatchesDeliver(rt, bodies, tail);
    SnapshotRoundTrip(rt, hashes, []);
    assert EncodeSnapshot(hashes) + [] == EncodeSnapshot(hashes);
    MessageOfFrame(EncodeSnapshot(hashes), Framing.Stream(bodies) + tail);
    hide Framing.FrameBytes, EncodeSnapshot, ParseSnapshot;
    assert Delivered(rt, bodies) + [] == Delivered(rt, bodies);
  }

  /** Nothing is offered before a snapshot has decoded: a connection whose first frame is cut short is
      lost, one whose first frame is no snapshot is given up, and one whose first frame panics crashes. */
  lemma SessionNeedsSnapshot(rt: Runtime, first: Bytes, tail: Bytes, cut: nat)
    requires |first| < 0x1_0000_0000 && ParseSnapshot(rt, first).Fail?
    ensures ReadSession(rt, Framing.FrameBytes(first) + tail)
         == ([], if ParseSnapshot(rt, first).error == Panic then Crashed else BadSnapshot)
    ensures cut < |Framing.FrameBytes(first)| ==> ReadSession(rt, Framing.FrameBytes(first)[..cut]) == ([], Lost)
  {
    MessageOfFrame(first, tail);
    if cut < |Framing.FrameBytes(first)| {
      MessageOfCut(first, cut);
    }
    hide Framing.FrameBytes, ParseSnapshot, ReadMessage;
  }

  /** A body whose decoding panics ends the process: everything before it was offered, nothing after. */
  lemma SessionCrashes(rt: Runtime, bodies: seq<Bytes>, bad: Bytes, tail: Bytes)
    requires Framing.Sized(bodies) && NonePanics(rt, bodies)
    requires |bad| < 0x1_0000_0000 && ParseEvents(rt, bad) == Fail(Panic)
    ensures ReadBatches(rt, Framing.Stream(bodies) + (Framing.FrameBytes(bad) + tail))
        == (Delivered(rt, bodies), Crashed)
  {
    MessageOfFrame(bad, tail);
    BatchesDeliver(rt, bodies, Framing.FrameBytes(bad) + tail);
    hide Framing.FrameBytes, ParseEvents;
    assert Delivered(rt, bodies) + [] == Delivered(rt, bodies);
  }

  /** The encodings of batches of node events. */
  function EncodeBatches(batches: seq<seq<WireEvent>>): (bodies: seq<Bytes>)
    ensures |bodies| == |batches| && forall i :: 0 <= i < |batches| ==> bodies[i] == EncodeEvents(batches[i])
  {
    if batches == [] then [] else [EncodeEvents(batches[0])] + EncodeBatches(batches[1..])
  }

  ghost predicate Emittable(rt: Runtime, batches: seq<seq<WireEvent>>) {
    forall b :: b in batches ==>
      |b| < U64_LIMIT && |b| <= rt.maxEvents && forall i :: 0 <= i < |b| ==> WellFormed(rt, b[i])
  }

  function AllMeanings(rt: Runtime, batches: seq<seq<WireEvent>>): seq<Event>
    requires Emittable(rt, batches)
  {
    if batches == [] then [] else Meanings(rt, batches[0]) + AllMeanings(rt, batches[1..])
  }

  lemma BatchMeansItsEvents(rt: Runtime, batch: seq<WireEvent>)
    requires Emittable(rt, [batch])
    ensures ParseEvents(rt, EncodeEvents(batch)) == Ok((Meanings(rt, batch), []))
  {
    assert batch in [batch];
    EventsRoundTrip(rt, batch, []);
    assert EncodeEvents(batch) + [] == EncodeEvents(batch);
  }

  lemma NoBatchPanics(rt: Runtime, batches: seq<seq<WireEvent>>)
    requires Emittable(rt, batches)
    ensures NonePanics(rt, EncodeBatches(batches))
  {
    hide ParseEvents, EncodeEvents, Meanings;
    forall i | 0 <= i < |batches|
      ensures ParseEvents(rt, EncodeBatches(batches)[i]) != Fail(Panic)
    {
      assert batches[i] in batches;
      BatchMeansItsEvents(rt, batches[i]);
    }
  }

  lemma EmittableParts(rt: Runtime, batches: seq<seq<WireEvent>>)
    requires batches != [] && Emittable(rt, batches)
    ensures Emittable(rt, [batches[0]]) && Emittable(rt, batches[1..])
  {
    hide WellFormed;
    assert forall b :: b in batches[1..] ==> b in batches;
    assert batches[0] in batches;
  }

  lemma FirstMeans(rt: Runtime, batches: seq<seq<WireEvent>>)
    requires batches != [] && Emittable(rt, batches) && Emittable(rt, batches[1..])
    requires Delivered(rt, EncodeBatches(batches[1..])) == AllMeanings(rt, batches[1..])
    ensures Delivered(rt, EncodeBatches(batches)) == AllMeanings(rt, batches)
  {
    EmittableParts(rt, batches);
    BatchMeansItsEvents(rt, batches[0]);
    hide ParseEvents, EncodeEvents, Meanings, WellFormed;
    var bodies := EncodeBatches(batches);
    assert bodies[0] == EncodeEvents(batches[0]) && bodies[1..] == EncodeBatches(batches[1..]);
    hide EncodeBatches;
    assert EventsOf(rt, bodies[0]) == Meanings(rt, batches[0]);
    hide EventsOf;
  }

  /** When the frames are the node's own batches, what is offered is the meaning of every event of
      every batch, in order. */
  lemma {:induction false} BatchesMeanTheirEvents(rt: Runtime, batches: seq<seq<WireEvent>>)
    requires Emittable(rt, batches)
    ensures NonePanics(rt, EncodeBatches(batches)) && Delivered(rt, EncodeBatches(batches)) == AllMeanings(rt, batches)
  {
    NoBatchPanics(rt, batches);
    hide NonePanics, Emittable, EncodeBatches;
    if batches == [] {
      NoBatches(rt);
    } else {
      hide Delivered, AllMeanings;
      EmittableParts(rt, batches);
      BatchesMeanTheirEvents(rt, batches[1..]);
      FirstMeans(rt, batches);
    }
  }

  lemma NoBatches(rt: Runtime)
    requires Emittable(rt, [])
    ensures Delivered(rt, EncodeBatches([])) == AllMeanings(rt, [])
  {
    assert EncodeBatches([]) == [];
  }
}
