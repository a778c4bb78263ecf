/** Types shared by every component: bytes, hashes, addresses, clock readings. */
module Prelude {

  datatype Option<+T> = None | Some(value: T)

  /** How much a condition counts for. */
  function One(b: bool): nat {
    if b then 1 else 0
  }

  type Byte = x: int | 0 <= x < 256

  type Bytes = seq<Byte>

  /** A 32-byte transaction hash. */
  type Hash = h: seq<Byte> | |h| == 32 witness seq(32, _ => 0)

  function ZeroHash(): Hash {
    seq(32, _ => 0)
  }

  /** A 20-byte account address. */
  type Address = a: seq<Byte> | |a| == 20 witness seq(20, _ => 0)

  /** A clock reading, in nanoseconds. */
  type Time = int

  /** What the sidecar observes of a decoded transaction. The library object is immutable:
      its hash, recipient and calldata never change, and `binary` is what marshalling it
      returns (None when marshalling fails). */
  datatype Tx = Tx(hash: Hash, to: Option<Address>, data: Bytes, binary: Option<Bytes>)
}
