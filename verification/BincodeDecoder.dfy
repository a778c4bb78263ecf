/** The sidecar's decoders, which thread an offset through a byte slice. */
module BincodeDecoder {
  import opened Prelude
  import opened Endian
  import opened Bincode
  import Decimal

  /** A decoder result (value and bytes read) agrees with the reference parser (value and bytes
      left), including the reason for a failure. */
  ghost predicate Agrees<T>(data: Bytes, r: Outcome<(T, nat)>, reference: Outcome<(T, Bytes)>) {
    match reference
    case Fail(error) => r == Fail(error)
    case Ok((value, rest)) => r.Ok? && r.value.0 == value && r.value.1 <= |data| && data[r.value.1..] == rest
  }

  lemma Slices(data: Bytes, offset: nat, n: nat)
    requires offset + n <= |data|
    ensures data[offset..][..n] == data[offset..offset + n]
    ensures data[offset..][n..] == data[offset + n..]
  {
  }

  method DecodeDropReason(data: Bytes, start: nat) returns (r: Outcome<(string, nat)>)
    requires start <= |data|
    ensures Agrees(data, r, ParseReason(data[start..]))
  {
    hide FromLE, Decimal.Print;
    var offset := start;
    if |data[offset..]| < 4 {
      return Fail(Short);
    }
    Slices(data, offset, 4);
    var reasonVariant := FromLE(data[offset..offset + 4]);
    offset := offset + 4;
    assert ParseReason(data[start..]) == ParseReasonData(reasonVariant, data[offset..]);
    hide ParseReason;
    var reasonStr;
    match reasonVariant {
      case 0 =>
        if |data[offset..]| < 4 {
          return Fail(Short);
        }
        Slices(data, offset, 4);
        offset := offset + 4;
        reasonStr := "not well formed";
      case 1 => reasonStr := "invalid signature";
      case 2 => reasonStr := "nonce too low";
      case 3 => reasonStr := "fee too low";
      case 4 => reasonStr := "insufficient balance";
      case 5 => reasonStr := "existing higher priority";
      case 6 =>
        if offset + 8 > |data| {
          return Fail(Panic);
        }
        Slices(data, offset, 8);
        var txHashLen := FromLE(data[offset..offset + 8]);
        if txHashLen != 32 {
          return Fail(BadLength(txHashLen));
        }
        offset := offset + 8;
        if |data[offset..]| < 32 {
          return Fail(Short);
        }
        Slices(data, offset, 32);
        offset := offset + 32;
        reasonStr := "replaced by higher priority";
      case 7 => reasonStr := "pool full";
      case 8 => reasonStr := "pool not ready";
      case 9 =>
        if |data[offset..]| < 4 {
          return Fail(Short);
        }
        Slices(data, offset, 4);
        offset := offset + 4;
        reasonStr := "internal error";
      case _ => reasonStr := "unknown reason " + Decimal.Print(reasonVariant);
    }
    return Ok((reasonStr, offset));
  }

  method DecodeInsert(rt: Runtime, data: Bytes, start: nat) returns (r: Outcome<(Action, nat)>)
    requires start <= |data|
    ensures Agrees(data, r, ParseInsert(rt, data[start..]))
  {
    hide FromLE;
    var offset := start;
    if |data[offset..]| < 8 + 20 + 1 + 8 {
      return Fail(Short);
    }
    Slices(data, offset, 8);
    var addressLen := FromLE(data[offset..offset + 8]);
    if addressLen != 20 {
      return Fail(BadLength(addressLen));
    }
    offset := offset + 8;
    Slices(data, offset, 20);
    var address: Address := data[offset..offset + 20];
    offset := offset + 20;
    Slices(data, offset, 1);
    var owned := data[offset] != 0;
    offset := offset + 1;
    Slices(data, offset, 8);
    var txBytesLen := FromLE(data[offset..offset + 8]);
    offset := offset + 8;
    if txBytesLen >= INT_LIMIT {
      return Fail(Panic);
    }
    if |data[offset..]| < txBytesLen {
      return Fail(Short);
    }
    Slices(data, offset, txBytesLen);
    var txBytes := data[offset..offset + txBytesLen];
    offset := offset + txBytesLen;
    var tx := rt.unmarshalBinary(txBytes);
    if tx.None? {
      tx := rt.decodeRlp(txBytes);
      if tx.None? {
        return Fail(BadTransaction);
      }
    }
    return Ok((Insert(address, owned, tx.value, txBytes), offset));
  }

  method DecodeEventAction(rt: Runtime, data: Bytes) returns (r: Outcome<(Action, nat)>)
    ensures Agrees(data, r, ParseAction(rt, data))
  {
    if |data| < 4 {
      return Fail(Short);
    }
    var variantIndex := FromLE(data[..4]);
    var offset := 4;
    match variantIndex % 256 {
      case 0 =>
        r := DecodeInsert(rt, data, offset);
      case 1 =>
        r := Ok((Commit, offset));
      case 2 =>
        var reason := DecodeDropReason(data, offset);
        match reason {
          case Fail(e) => r := Fail(e);
          case Ok((text, end)) => r := Ok((Drop(text), end));
        }
      case 3 =>
        if |data[offset..]| < 4 {
          return Fail(Short);
        }
        Slices(data, offset, 4);
        var reasonVariant := FromLE(data[offset..offset + 4]);
        offset := offset + 4;
        var reasonStr := if reasonVariant == 0 then "expired"
                         else "unknown evict reason " + Decimal.Print(reasonVariant);
        r := Ok((Evict(reasonStr), offset));
      case _ =>
        r := Fail(UnknownVariant(variantIndex));
    }
  }

  method DecodeEthTxPoolEvent(rt: Runtime, data: Bytes) returns (r: Outcome<(Event, nat)>)
    ensures Agrees(data, r, ParseEvent(rt, data))
  {
    if |data| < 8 {
      return Fail(Short);
    }
    var txHashLen := FromLE(data[..8]);
    if txHashLen != 32 {
      return Fail(BadLength(txHashLen));
    }
    var offset := 8;
    if |data[offset..]| < 32 {
      return Fail(Short);
    }
    Slices(data, offset, 32);
    var txHash: Hash := data[offset..offset + 32];
    offset := offset + 32;
    var action := DecodeEventAction(rt, data[offset..]);
    match action {
      case Fail(e) => r := Fail(e);
      case Ok((a, bytesRead)) =>
        Slices(data, offset, bytesRead);
        offset := offset + bytesRead;
        r := Ok((Event(txHash, a), offset));
    }
  }

  lemma ManySnoc<T>(parse: Parser<T>, d: Bytes, n: nat)
    requires ParseMany(parse, d, n).Ok?
    ensures var (firsts, rest) := ParseMany(parse, d, n).value;
            match parse(rest)
            case Fail(e) => ParseMany(parse, d, n + 1) == Fail(e)
            case Ok((last, end)) => ParseMany(parse, d, n + 1) == Ok((firsts + [last], end))
    decreases n
  {
    if n == 0 {
      match parse(d)
      case Fail(_) =>
      case Ok((last, end)) =>
        assert ParseMany(parse, end, 0) == Ok(([], end));
        assert [last] + [] == [] + [last];
    } else {
      var (first, rest) := parse(d).value;
      ManySnoc(parse, rest, n - 1);
      var (firsts, end) := ParseMany(parse, rest, n - 1).value;
      match parse(end)
      case Fail(_) =>
      case Ok((last, _)) => assert [first] + (firsts + [last]) == [first] + firsts + [last];
    }
  }

  lemma {:induction false} ManyFails<T>(parse: Parser<T>, d: Bytes, n: nat, m: nat)
    requires n <= m && ParseMany(parse, d, n).Fail?
    ensures ParseMany(parse, d, m) == Fail(ParseMany(parse, d, n).error)
    decreases n
  {
    match parse(d)
    case Fail(_) =>
    case Ok((_, rest)) => ManyFails(parse, rest, n - 1, m - 1);
  }

  method DecodeEthTxPoolEvents(rt: Runtime, data: Bytes) returns (r: Outcome<seq<Event>>)
    ensures r == (match ParseEvents(rt, data) case Fail(e) => Fail(e) case Ok((events, _)) => Ok(events))
  {
    hide ParseEvent;
    if |data| < 8 {
      return Fail(Short);
    }
    var vecLen := FromLE(data[..8]);
    var offset := 8;
    if vecLen > rt.maxEvents {
      return Fail(Panic);
    }
    var events := [];
    ghost var parse := EventParser(rt);
    for i := 0 to vecLen
      invariant offset <= |data|
      invariant ParseMany(parse, data[8..], i) == Ok((events, data[offset..]))
    {
      ManySnoc(parse, data[8..], i);
      assert parse(data[offset..]) == ParseEvent(rt, data[offset..]);
      var next := DecodeEthTxPoolEvent(rt, data[offset..]);
      match next {
        case Fail(e) =>
          ManyFails(parse, data[8..], i + 1, vecLen);
          return Fail(e);
        case Ok((event, bytesRead)) =>
          Slices(data, offset, bytesRead);
          events := events + [event];
          offset := offset + bytesRead;
      }
    }
    r := Ok(events);
  }

  method DecodeEthTxPoolSnapshot(rt: Runtime, data: Bytes) returns (r: Outcome<seq<Hash>>)
    ensures r == (match ParseSnapshot(rt, data) case Fail(e) => Fail(e) case Ok((hashes, _)) => Ok(hashes))
  {
    if |data| < 8 {
      return Fail(Short);
    }
    var vecLen := FromLE(data[..8]);
    var offset := 8;
    if vecLen > rt.maxHashes {
      return Fail(Panic);
    }
    var txHashes: seq<Hash> := [];
    ghost var parse := HashParser();
    for i := 0 to vecLen
      invariant offset <= |data|
      invariant ParseMany(parse, data[8..], i) == Ok((txHashes, data[offset..]))
    {
      ManySnoc(parse, data[8..], i);
      if |data[offset..]| < 32 {
        ManyFails(parse, data[8..], i + 1, vecLen);
        return Fail(Short);
      }
      Slices(data, offset, 32);
      var txHash: Hash := data[offset..offset + 32];
      txHashes := txHashes + [txHash];
      offset := offset + 32;
    }
    r := Ok(txHashes);
  }
}
