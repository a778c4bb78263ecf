/** From the bytes of the connections, through the channel and the sidecar, to the messages sent:
    every message carries a slice of some connection's bytes. */
module EndToEnd {
  import opened Prelude
  import opened Endian
  import opened Bincode
  import ReadLoop
  import EventChannel
  import SidecarThreads
  import SidecarSafety
  import SidecarModel
  import SidecarRuns
  import SidecarSends
  import Rlp
  import Framing
  import P = Priorities

  // ----- slices ----------------------------------------------------------------------------

  ghost predicate Within(b: Bytes, d: Bytes) {
    exists i, j :: 0 <= i <= j <= |d| && d[i..j] == b
  }

  lemma PartWithin(before: Bytes, b: Bytes, after: Bytes)
    ensures Within(b, before + b + after)
  {
    var d := before + b + after;
    assert d[|before|..|before| + |b|] == b;
  }

  lemma WithinTrans(a: Bytes, b: Bytes, c: Bytes)
    requires Within(a, b) && Within(b, c)
    ensures Within(a, c)
  {
    var i, j :| 0 <= i <= j <= |b| && b[i..j] == a;
    var k, l :| 0 <= k <= l <= |c| && c[k..l] == b;
    Around(a, b, i, j);
    Around(b, c, k, l);
    hide Within;
    Rebracket(c[..k], b[..i], a, b[j..], c[l..]);
    PartWithin(c[..k] + b[..i], a, b[j..] + c[l..]);
  }

  lemma Around(b: Bytes, d: Bytes, i: nat, j: nat)
    requires i <= j <= |d| && d[i..j] == b
    ensures d == d[..i] + b + d[j..]
  {
  }

  lemma Rebracket(x: Bytes, u: Bytes, a: Bytes, v: Bytes, y: Bytes)
    ensures x + (u + a + v) + y == (x + u) + a + (v + y)
  {
    assert x + (u + a + v) == (x + u) + a + v;
  }

  lemma SuffixWithin(d: Bytes, k: nat)
    requires k <= |d|
    ensures Within(d[k..], d)
  {
    assert d[k..|d|] == d[k..];
  }

  // ----- what a decoder keeps of its input ---------------------------------------------------

  /** An Insert's raw bytes are a slice of d that reads as its transaction. */
  ghost predicate CutFrom(rt: Runtime, d: Bytes, e: Event) {
    e.action.Insert? ==> Within(e.action.originalRlp, d) && rt.ReadTx(e.action.originalRlp) == Some(e.action.tx)
  }

  lemma CutFromMore(rt: Runtime, b: Bytes, d: Bytes, e: Event)
    requires CutFrom(rt, b, e) && Within(b, d)
    ensures CutFrom(rt, d, e)
  {
    if e.action.Insert? {
      WithinTrans(e.action.originalRlp, b, d);
    }
  }

  lemma EventIsCut(rt: Runtime, d: Bytes)
    requires ParseEvent(rt, d).Ok?
    ensures CutFrom(rt, d, ParseEvent(rt, d).value.0) && Within(ParseEvent(rt, d).value.1, d)
  {
    EventParts(rt, d);
    EventExtentOf(rt, d);
    EventFaithful(rt, d);
    hide ParseEvent;
    if ParseEvent(rt, d).value.0.action.Insert? {
      ActionInsertBytes(rt, d[40..]);
      SuffixWithin(d, 40);
      WithinTrans(ParseAction(rt, d[40..]).value.0.originalRlp, d[40..], d);
    }
  }

  lemma ActionInsertBytes(rt: Runtime, d: Bytes)
    requires ParseAction(rt, d).Ok? && ParseAction(rt, d).value.0.Insert?
    ensures Within(ParseAction(rt, d).value.0.originalRlp, d)
  {
    assert |d| >= 4 && ParseAction(rt, d) == ParseInsert(rt, d[4..]);
    InsertKeepsItsBytes(rt, d[4..]);
    var (action, rest) := ParseInsert(rt, d[4..]).value;
    hide ParseAction, ParseInsert;
    PartWithin(d[4..][..37], action.originalRlp, rest);
    SuffixWithin(d, 4);
    WithinTrans(action.originalRlp, d[4..], d);
  }

  /** What is left after an event is a suffix of the input. */
  lemma EventExtentOf(rt: Runtime, d: Bytes)
    requires ParseEvent(rt, d).Ok?
    ensures Within(ParseEvent(rt, d).value.1, d)
  {
    EventExtent(rt, d);
    var rest := ParseEvent(rt, d).value.1;
    SuffixWithin(d, |d| - |rest|);
  }

  lemma {:induction false} ManyAreCut(rt: Runtime, d: Bytes, n: nat, e: Event)
    requires ParseMany(EventParser(rt), d, n).Ok? && e in ParseMany(EventParser(rt), d, n).value.0
    ensures CutFrom(rt, d, e)
    decreases n
  {
    hide ParseEvent, CutFrom, Within;
    assert EventParser(rt)(d) == ParseEvent(rt, d);
    var (first, rest) := ParseEvent(rt, d).value;
    EventIsCut(rt, d);
    if e != first {
      ManyAreCut(rt, rest, n - 1, e);
      CutFromMore(rt, rest, d, e);
    }
  }

  lemma BatchIsCut(rt: Runtime, d: Bytes, e: Event)
    requires ParseEvents(rt, d).Ok? && e in ParseEvents(rt, d).value.0
    ensures CutFrom(rt, d, e)
  {
    ManyAreCut(rt, d[8..], FromLE(d[..8]), e);
    SuffixWithin(d, 8);
    CutFromMore(rt, d[8..], d, e);
  }

  /** An Insert was cut from one message of the stream, so its bytes are fewer than 2^32. */
  ghost predicate FromStream(rt: Runtime, stream: Bytes, e: Event) {
    CutFrom(rt, stream, e) && (e.action.Insert? ==> |e.action.originalRlp| < 0x1_0000_0000)
  }

  lemma MessageWithin(input: Bytes)
    requires ReadLoop.ReadMessage(input).0.Some?
    ensures var (data, rest) := ReadLoop.ReadMessage(input);
            Within(data.value, input) && |data.value| < 0x1_0000_0000 && Within(rest, input)
  {
    var length := FromBE(input[..4]);
    FromBEBound(input[..4]);
    Pow256Values();
    assert input[4..][..length] == input[4..4 + length] && input[4..][length..] == input[4 + length..];
    SuffixWithin(input, 4 + length);
  }

  lemma WithinShorter(a: Bytes, b: Bytes)
    requires Within(a, b)
    ensures |a| <= |b|
  {
  }

  lemma CutFromMessage(rt: Runtime, data: Bytes, stream: Bytes, e: Event)
    requires CutFrom(rt, data, e) && Within(data, stream) && |data| < 0x1_0000_0000
    ensures FromStream(rt, stream, e)
  {
    CutFromMore(rt, data, stream, e);
    if e.action.Insert? {
      WithinShorter(e.action.originalRlp, data);
    }
  }

  lemma {:induction false} BatchesAreCut(rt: Runtime, input: Bytes, e: Event)
    requires e in ReadLoop.ReadBatches(rt, input).0
    ensures FromStream(rt, input, e)
    decreases |input|
  {
    hide CutFrom, Within, ParseEvents, FromStream, ReadLoop.ReadMessage;
    var (data, rest) := ReadLoop.ReadMessage(input);
    MessageWithin(input);
    if ParseEvents(rt, data.value).Ok? && e in ParseEvents(rt, data.value).value.0 {
      BatchIsCut(rt, data.value, e);
      CutFromMessage(rt, data.value, input, e);
    } else {
      BatchesAreCut(rt, rest, e);
      FromRest(rt, rest, input, e);
    }
  }

  lemma FromRest(rt: Runtime, rest: Bytes, input: Bytes, e: Event)
    requires FromStream(rt, rest, e) && Within(rest, input)
    ensures FromStream(rt, input, e)
  {
    CutFromMore(rt, rest, input, e);
  }

  /** Every Insert a session offers was cut from its connection's bytes. */
  lemma SessionIsCut(rt: Runtime, input: Bytes, e: Event)
    requires e in ReadLoop.ReadSession(rt, input).0
    ensures FromStream(rt, input, e)
  {
    hide CutFrom, Within, ParseSnapshot, FromStream, ReadLoop.ReadMessage, ReadLoop.ReadBatches;
    var rest := ReadLoop.ReadMessage(input).1;
    MessageWithin(input);
    BatchesAreCut(rt, rest, e);
    FromRest(rt, rest, input, e);
  }

  // ----- through the channel -----------------------------------------------------------------

  /** Every reader has offered, in order, some first part of its own connection's session. */
  ghost predicate ReadersOffer(rt: Runtime, streams: seq<Bytes>, ops: seq<EventChannel.Op<Event>>) {
    forall r: nat :: EventChannel.OffersOf(r, ops)
                     <= if r < |streams| then ReadLoop.ReadSession(rt, streams[r]).0 else []
  }

  lemma TakenIsCut(rt: Runtime, streams: seq<Bytes>, ops: seq<EventChannel.Op<Event>>, e: Event) returns (r: nat)
    requires ReadersOffer(rt, streams, ops) && e in EventChannel.RunOps(ops).taken
    ensures r < |streams| && FromStream(rt, streams[r], e)
  {
    r := EventChannel.TakenWereOffered(ops, e);
    hide EventChannel.RunOps, EventChannel.OffersOf, ReadLoop.ReadSession, FromStream;
    assert EventChannel.OffersOf(r, ops) <= if r < |streams| then ReadLoop.ReadSession(rt, streams[r]).0 else [];
    SessionIsCut(rt, streams[r], e);
  }

  // ----- through the sidecar -----------------------------------------------------------------

  /** The Insert of a taken event with this hash and these raw bytes. */
  ghost predicate Taken(ops: seq<EventChannel.Op<Event>>, h: Hash, originalRlp: Bytes) {
    exists e :: e in EventChannel.RunOps(ops).taken && InsertOf(e, h, originalRlp)
  }

  predicate InsertOf(e: Event, h: Hash, originalRlp: Bytes) {
    e.action.Insert? && e.action.tx.hash == h && e.action.originalRlp == originalRlp
  }

  /** The attempt's bytes are a slice of the stream that reads as the attempt's transaction. */
  ghost predicate SentFrom(rt: Runtime, stream: Bytes, a: SidecarModel.Attempt) {
    && Within(a.originalRlp, stream) && |a.originalRlp| < 0x1_0000_0000
    && rt.ReadTx(a.originalRlp).Some? && rt.ReadTx(a.originalRlp).value.hash == a.hash
  }

  lemma TakenIsSent(rt: Runtime, streams: seq<Bytes>, ops: seq<EventChannel.Op<Event>>, a: SidecarModel.Attempt)
    returns (r: nat)
    requires ReadersOffer(rt, streams, ops) && Taken(ops, a.hash, a.originalRlp)
    ensures r < |streams| && SentFrom(rt, streams[r], a)
  {
    hide EventChannel.RunOps, ReadersOffer, Within;
    var e :| e in EventChannel.RunOps(ops).taken && InsertOf(e, a.hash, a.originalRlp);
    r := TakenIsCut(rt, streams, ops, e);
  }

  /** End to end, in every interleaving of readers, event loop, cleanup and measurements: if the
      sidecar receives Inserts only by taking them from the channel, every attempt to send carries a
      slice of some connection's bytes that reads as the transaction it is sent for. */
  lemma SendsAreStreamSlices(rt: Runtime, streams: seq<Bytes>, ops: seq<EventChannel.Op<Event>>,
                             cfg: SidecarModel.Config, start: Time, m: SidecarThreads.Machine, a: SidecarModel.Attempt)
    returns (r: nat)
    requires ReadersOffer(rt, streams, ops)
    requires SidecarThreads.Reaches(cfg, SidecarThreads.Start(start), m) && a in m.s.log
    requires forall p :: p in m.inserts ==> Taken(ops, p.0, p.1)
    ensures r < |streams| && SentFrom(rt, streams[r], a) && a.originalRlp != []
  {
    hide SidecarThreads.Reaches, Taken, ReadersOffer, SentFrom;
    SidecarSafety.BytesComeFromInserts(cfg, start, m);
    r := TakenIsSent(rt, streams, ops, a);
  }

  /** The inputs of a run that are Inserts are Inserts taken from the channel. */
  ghost predicate HandlesTaken(ops: seq<EventChannel.Op<Event>>, inputs: seq<SidecarModel.Input>) {
    forall i :: 0 <= i < |inputs| && inputs[i].InsertEvent? ==> Taken(ops, inputs[i].tx.hash, inputs[i].originalRlp)
  }

  /** Taken Inserts are never empty when the library reads no transaction from nothing. */
  lemma HandledAreRaw(rt: Runtime, streams: seq<Bytes>, ops: seq<EventChannel.Op<Event>>,
                      inputs: seq<SidecarModel.Input>)
    requires ReadersOffer(rt, streams, ops) && HandlesTaken(ops, inputs) && rt.ReadTx([]).None?
    ensures SidecarSends.RawBytes(inputs)
  {
    hide EventChannel.RunOps, ReadersOffer, Within;
    forall i | 0 <= i < |inputs| && inputs[i].InsertEvent?
      ensures inputs[i].originalRlp != []
    {
      var a := SidecarModel.Attempt(inputs[i].tx.hash, inputs[i].originalRlp, P.TobBid(0), true);
      var r := TakenIsSent(rt, streams, ops, a);
    }
  }

  /** The same for runs of whole handlers, where the log is known entry by entry: each is an attempt of
      one input, in order, in adjacent pairs for backruns, and carries a slice of a connection's bytes
      in a message whose envelope a strict reader of the layout gives back whenever it is one item. */
  lemma RunSendsStreamSlices(rt: Runtime, streams: seq<Bytes>, ops: seq<EventChannel.Op<Event>>,
                             cfg: SidecarModel.Config, inputs: seq<SidecarModel.Input>, n: nat, k: nat)
    returns (r: nat)
    requires ReadersOffer(rt, streams, ops) && HandlesTaken(ops, inputs) && rt.ReadTx([]).None?
    requires SidecarModel.Complete(cfg) && n <= |inputs| && k < |SidecarModel.Run(cfg, inputs, n).log|
    ensures var log := SidecarModel.Run(cfg, inputs, n).log;
            var a := log[k];
            && log == SidecarSends.SendsOf(cfg, inputs, n) && SidecarSends.Paired(log)
            && r < |streams| && SentFrom(rt, streams[r], a)
            && SidecarSends.Message(a).Some? && Within(a.originalRlp, SidecarSends.Message(a).value)
            && (Rlp.ParseEnvelope(Rlp.Envelope(SidecarSends.EnvelopeOf(a)).value) == Some(SidecarSends.EnvelopeOf(a))
                <==> Rlp.IsItem(a.originalRlp))
            && (|a.originalRlp| + 43 < 0x1_0000_0000 ==>
                  (SidecarSends.Received(a) == Some((a.originalRlp, P.Value(a.source))) <==> Rlp.IsItem(a.originalRlp)))
  {
    hide SidecarSends.SendsOf, SidecarSends.Paired, SidecarModel.Run, SentFrom, SidecarSends.RawBytes,
         SidecarSends.Message, Within, ReadersOffer, HandlesTaken, Taken, Rlp.ParseEnvelope, Rlp.IsItem;
    HandledAreRaw(rt, streams, ops, inputs);
    SidecarSends.RunLog(cfg, inputs, n);
    var a := SidecarModel.Run(cfg, inputs, n).log[k];
    LoggedIsTaken(cfg, inputs, n, ops, a);
    r := TakenIsSent(rt, streams, ops, a);
    SentIsShort(rt, streams[r], a);
    SidecarSends.MessageParsesBack(a, []);
    hide SidecarSends.Received, P.Value;
    if |a.originalRlp| + 43 < 0x1_0000_0000 {
      SidecarSends.ReceivedExactly(a);
    }
    MessageCarries(a);
  }

  lemma SentIsShort(rt: Runtime, stream: Bytes, a: SidecarModel.Attempt)
    requires SentFrom(rt, stream, a)
    ensures |a.originalRlp| < 0x1_0000_0000
  {
  }

  lemma LoggedIsTaken(cfg: SidecarModel.Config, inputs: seq<SidecarModel.Input>, n: nat,
                      ops: seq<EventChannel.Op<Event>>, a: SidecarModel.Attempt)
    requires n <= |inputs| && HandlesTaken(ops, inputs) && SidecarSends.SentBefore(cfg, inputs, n, a)
    ensures Taken(ops, a.hash, a.originalRlp)
  {
    hide Taken, SidecarModel.Run, SidecarSends.NewSends;
    var m :| 0 <= m < n && SidecarSends.SentWith(cfg, inputs, m, a);
    assert SidecarSends.CarriesInsert(cfg, inputs, m + 1, a);
    var i :| SidecarRuns.Live(cfg, inputs, i, m + 1, a.hash) && a.originalRlp == inputs[i].originalRlp;
    assert SidecarRuns.Inserts(inputs[i], a.hash);
  }

  lemma MessageCarries(a: SidecarModel.Attempt)
    requires Rlp.Envelope(SidecarSends.EnvelopeOf(a)).Some?
    ensures SidecarSends.Message(a).Some? && Within(a.originalRlp, SidecarSends.Message(a).value)
  {
    var tx := SidecarSends.EnvelopeOf(a);
    var payload := Rlp.Payload(tx).value;
    var header := Rlp.Header(0xc0, |payload|).value;
    assert payload == a.originalRlp + payload[|a.originalRlp|..];
    var before := ToBE(|header + payload|, Framing.HEADER_SIZE) + header;
    assert SidecarSends.Message(a).value == before + a.originalRlp + payload[|a.originalRlp|..];
    PartWithin(before, a.originalRlp, payload[|a.originalRlp|..]);
  }
}
