/** The client's send: the envelope of a transaction behind its 32-bit length, written in two writes. */
module TxSender {
  import opened Prelude
  import opened Endian
  import Rlp
  import Framing

  /** The bytes a send writes: the length of the envelope in four bytes, then the envelope. The length
      is truncated to 32 bits, as the header field is. */
  function MessageBytes(tx: Rlp.IpcTx): Option<Bytes> {
    match Rlp.Envelope(tx)
    case None => None
    case Some(data) => Some(Framing.FrameBytes(data))
  }

  datatype SendResult = Sent | Unencodable | WriteFailed

  /** On a connection: nothing is written for what cannot be encoded, and a failing peer keeps a first
      part of the message. */
  method SendTxWithPriorityRlp(conn: Framing.Conn, txRlp: Bytes, priority: int, extraData: Bytes)
    returns (r: SendResult)
    requires Rlp.Fits(Rlp.IpcTx(txRlp, priority, extraData))
    modifies conn`output, conn`room
    ensures match MessageBytes(Rlp.IpcTx(txRlp, priority, extraData))
            case None => r == Unencodable && conn.output == old(conn.output) && conn.room == old(conn.room)
            case Some(message) =>
              && r == (if |message| <= old(conn.room) then Sent else WriteFailed)
              && conn.output == old(conn.output) + Framing.Take(message, old(conn.room))
  {
    var encoded := Rlp.EncodeRlp(Rlp.IpcTx(txRlp, priority, extraData));
    if encoded.None? {
      return Unencodable;
    }
    var data := encoded.value;
    var msgLen := ToBE(|data|, 4);
    assert MessageBytes(Rlp.IpcTx(txRlp, priority, extraData)) == Some(msgLen + data);
    hide Rlp.Envelope, MessageBytes, ToBE;
    Parts(msgLen, data, conn.room);
    var ok := conn.Write(msgLen);
    if !ok {
      return WriteFailed;
    }
    ok := conn.Write(data);
    assert conn.output == old(conn.output) + (msgLen + Framing.Take(data, old(conn.room) - 4));
    return if ok then Sent else WriteFailed;
  }

  lemma Parts(a: Bytes, b: Bytes, room: nat)
    ensures room < |a| ==> Framing.Take(a + b, room) == Framing.Take(a, room)
    ensures room >= |a| ==> Framing.Take(a + b, room) == a + Framing.Take(b, room - |a|)
  {
  }

  // ----- reading a message back ----------------------------------------------------------------

  /** What a strict reader of the layout finds in a whole message: the raw transaction and the priority,
      with no extra data. */
  function ReadBack(message: Bytes): Option<(Bytes, nat)> {
    if |message| < 4 || FromBE(message[..4]) != |message| - 4 then None
    else
      match Rlp.ParseEnvelope(message[4..])
      case None => None
      case Some(tx) => if tx.extraData == [] && tx.priority >= 0 then Some((tx.txRlp, tx.priority)) else None
  }

  lemma MessageExists(txRlp: Bytes, priority: nat)
    requires priority < Pow256(32) && |txRlp| < 0x7fff_0000_0000_0000
    ensures MessageBytes(Rlp.IpcTx(txRlp, priority, [])).Some?
    ensures |MessageBytes(Rlp.IpcTx(txRlp, priority, [])).value| <= |txRlp| + 47
  {
    Rlp.EnvelopeExists(Rlp.IpcTx(txRlp, priority, []));
    Rlp.EnvelopeSize(Rlp.IpcTx(txRlp, priority, []));
    hide Rlp.Envelope;
  }

  /** A message is its length and one list, and the list holds first the raw bytes, then the priority as
      a string of bytes, highest first and without leading zeros, then the empty list. */
  lemma MessageFields(txRlp: Bytes, priority: nat) returns (payload: Bytes, digits: Bytes)
    requires priority < Pow256(32) && |txRlp| < 0x7fff_0000_0000_0000
    ensures MessageBytes(Rlp.IpcTx(txRlp, priority, [])).Some?
    ensures var message := MessageBytes(Rlp.IpcTx(txRlp, priority, [])).value;
            && |message| >= 4 && (|message| - 4 < 0x1_0000_0000 ==> FromBE(message[..4]) == |message| - 4)
            && Rlp.Split(message[4..]) == Some(Rlp.Piece(Rlp.ListItem, payload, []))
    ensures |txRlp| <= |payload| && payload[..|txRlp|] == txRlp
    ensures Rlp.Split(payload[|txRlp|..]) == Some(Rlp.Piece(Rlp.StringItem, digits, [0xc0]))
    ensures FromBE(digits) == priority && (digits == [] || digits[0] != 0)
    ensures Rlp.IsItem(txRlp) ==> Rlp.Split(payload).Some? && Rlp.Split(payload).value.rest == payload[|txRlp|..]
  {
    var tx := Rlp.IpcTx(txRlp, priority, []);
    Rlp.EnvelopeExists(tx);
    payload := Rlp.Payload(tx).value;
    digits := MinimalBE(priority);
    MinimalBERoundTrip(priority);
    var data := Rlp.Envelope(tx).value;
    MessageSplits(data);
    Rlp.SplitOfList(payload, []);
    assert Rlp.EncodeList(payload).value + [] == data;
    TailSplits(txRlp, priority);
    hide Rlp.Envelope, Rlp.Payload, Rlp.Split, Rlp.IsItem, MinimalBE, FromBE;
    ItemFirst(txRlp, payload);
  }

  lemma ItemFirst(txRlp: Bytes, payload: Bytes)
    requires txRlp <= payload
    ensures Rlp.IsItem(txRlp) ==> Rlp.Split(payload).Some? && Rlp.Split(payload).value.rest == payload[|txRlp|..]
  {
    if Rlp.IsItem(txRlp) {
      var tail := payload[|txRlp|..];
      Rlp.SplitExtends(txRlp, tail);
      hide Rlp.Split;
      assert txRlp + tail == payload && [] + tail == tail;
    }
  }

  lemma TailSplits(txRlp: Bytes, priority: nat)
    requires Rlp.Payload(Rlp.IpcTx(txRlp, priority, [])).Some?
    ensures var payload := Rlp.Payload(Rlp.IpcTx(txRlp, priority, [])).value;
            && txRlp <= payload
            && Rlp.Split(payload[|txRlp|..]) == Some(Rlp.Piece(Rlp.StringItem, MinimalBE(priority), [0xc0]))
  {
    var payload := Rlp.Payload(Rlp.IpcTx(txRlp, priority, [])).value;
    var first := Rlp.EncodeString(MinimalBE(priority)).value;
    assert payload == txRlp + (first + [0xc0]);
    assert payload[|txRlp|..] == first + [0xc0];
    Rlp.SplitOfString(MinimalBE(priority), [0xc0]);
  }

  lemma MessageSplits(data: Bytes)
    ensures var message := Framing.FrameBytes(data);
            && |message| == 4 + |data| && message[4..] == data
            && (FromBE(message[..4]) == |data| <==> |data| < 0x1_0000_0000)
  {
    Pow256Values();
    BETruncates(|data|, 4);
    var message := Framing.FrameBytes(data);
    assert message[..4] == ToBE(|data|, 4) && message[4..] == data;
    hide ToBE, FromBE;
  }

  /** A strict reader finds the raw bytes and the priority in the message exactly when the raw bytes are
      one RLP item, for every message its length field can hold. */
  lemma ReadsBackExactly(txRlp: Bytes, priority: nat)
    requires priority < Pow256(32) && |txRlp| + 43 < 0x1_0000_0000
    ensures MessageBytes(Rlp.IpcTx(txRlp, priority, [])).Some?
    ensures ReadBack(MessageBytes(Rlp.IpcTx(txRlp, priority, [])).value) == Some((txRlp, priority))
        <==> Rlp.IsItem(txRlp)
  {
    var tx := Rlp.IpcTx(txRlp, priority, []);
    MessageExists(txRlp, priority);
    var data := Rlp.Envelope(tx).value;
    MessageSplits(data);
    Rlp.EnvelopeParsesBack(tx);
    hide Rlp.Envelope, Rlp.ParseEnvelope, Rlp.IsItem, FromBE, Framing.FrameBytes;
  }
}
