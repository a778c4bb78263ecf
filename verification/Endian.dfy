/** Fixed-width little- and big-endian integers, and the minimal big-endian form. */
module Endian {
  import opened Prelude
  import Bits

  function Pow256(k: nat): (p: nat)
    ensures p > 0
  {
    if k == 0 then 1 else 256 * Pow256(k - 1)
  }

  lemma Pow256Values()
    ensures Pow256(4) == 0x1_0000_0000
    ensures Pow256(8) == 0x1_0000_0000_0000_0000
    ensures Pow256(32) == Pow256(8) * Pow256(8) * Pow256(8) * Pow256(8)
  {
    assert Pow256(2) == 0x1_0000;
    assert Pow256(4) == 0x1_0000_0000;
    assert Pow256(6) == 0x1_0000_0000_0000;
    Pow256Add(8, 8);
    Pow256Add(8, 16);
    Pow256Add(8, 24);
  }

  lemma {:induction false} Pow256Add(a: nat, b: nat)
    ensures Pow256(a + b) == Pow256(a) * Pow256(b)
  {
    if a > 0 {
      Pow256Add(a - 1, b);
      assert Pow256(a + b) == 256 * (Pow256(a - 1) * Pow256(b)) == (256 * Pow256(a - 1)) * Pow256(b);
    }
  }

  lemma {:induction false} Pow256Grows(a: nat, b: nat)
    requires a <= b
    ensures Pow256(a) <= Pow256(b)
  {
    if a < b {
      Pow256Grows(a, b - 1);
    }
  }

  function FromLE(b: Bytes): nat {
    if b == [] then 0 else b[0] + 256 * FromLE(b[1..])
  }

  function ToLE(n: nat, width: nat): (b: Bytes)
    ensures |b| == width
  {
    if width == 0 then [] else [n % 256] + ToLE(n / 256, width - 1)
  }

  /** Decoding undoes encoding up to truncation to the width. */
  lemma {:induction false} LERoundTrip(n: nat, width: nat)
    requires n < Pow256(width)
    ensures FromLE(ToLE(n, width)) == n
  {
    if width > 0 {
      LERoundTrip(n / 256, width - 1);
      assert ToLE(n, width)[1..] == ToLE(n / 256, width - 1);
    }
  }

  /** Encoding undoes decoding at the width that was read. */
  lemma {:induction false} LEOfBytes(b: Bytes)
    ensures FromLE(b) < Pow256(|b|) && ToLE(FromLE(b), |b|) == b
  {
    if b != [] {
      LEOfBytes(b[1..]);
      LECons(b[0], FromLE(b[1..]), |b| - 1);
      assert FromLE(b) == b[0] + 256 * FromLE(b[1..]);
      hide FromLE, ToLE, Pow256;
      assert [b[0]] + b[1..] == b;
    }
  }

  lemma LECons(first: Byte, n: nat, width: nat)
    requires n < Pow256(width)
    ensures first + 256 * n < Pow256(width + 1)
    ensures ToLE(first + 256 * n, width + 1) == [first] + ToLE(n, width)
  {
    assert Pow256(width + 1) == 256 * Pow256(width);
    assert (first + 256 * n) % 256 == first && (first + 256 * n) / 256 == n;
  }

  function FromBE(b: Bytes): nat {
    if b == [] then 0 else FromBE(b[..|b| - 1]) * 256 + b[|b| - 1]
  }

  function ToBE(n: nat, width: nat): (b: Bytes)
    ensures |b| == width
  {
    if width == 0 then [] else ToBE(n / 256, width - 1) + [n % 256]
  }

  lemma {:induction false} BERoundTrip(n: nat, width: nat)
    requires n < Pow256(width)
    ensures FromBE(ToBE(n, width)) == n
  {
    if width > 0 {
      BERoundTrip(n / 256, width - 1);
      assert ToBE(n, width)[..width - 1] == ToBE(n / 256, width - 1);
    }
  }

  /** A width too small for the value keeps its low bytes. */
  lemma {:induction false} BETruncates(n: nat, width: nat)
    ensures FromBE(ToBE(n, width)) == n % Pow256(width)
  {
    if width > 0 {
      BETruncates(n / 256, width - 1);
      assert ToBE(n, width)[..width - 1] == ToBE(n / 256, width - 1);
      ModSplit(n, Pow256(width - 1));
    }
  }

  lemma ModSplit(n: nat, p: nat)
    requires p > 0
    ensures n % (256 * p) == ((n / 256) % p) * 256 + n % 256
  {
    var q, r := (n / 256) / p, (n / 256) % p;
    assert n == (256 * p) * q + (r * 256 + n % 256) by {
      assert n / 256 == p * q + r;
      assert 256 * (p * q) == (256 * p) * q;
    }
    Bits.RemainderUnique(n, 256 * p, q, r * 256 + n % 256);
  }

  lemma {:induction false} FromBEBound(b: Bytes)
    ensures FromBE(b) < Pow256(|b|)
  {
    if b != [] {
      FromBEBound(b[..|b| - 1]);
    }
  }

  /** The big-endian form without leading zero bytes; zero is the empty string. */
  function MinimalBE(n: nat): Bytes {
    if n == 0 then [] else MinimalBE(n / 256) + [n % 256]
  }

  lemma {:induction false} MinimalBERoundTrip(n: nat)
    ensures FromBE(MinimalBE(n)) == n
    ensures n > 0 ==> MinimalBE(n) != [] && MinimalBE(n)[0] != 0
  {
    if n > 0 {
      MinimalBERoundTrip(n / 256);
      assert MinimalBE(n)[..|MinimalBE(n)| - 1] == MinimalBE(n / 256);
    }
  }

  /** A minimal form is never longer than any width the value fits in. */
  lemma {:induction false} MinimalBELength(n: nat, width: nat)
    requires n < Pow256(width)
    ensures |MinimalBE(n)| <= width
  {
    if n > 0 {
      MinimalBELength(n / 256, width - 1);
    }
  }

  /** A byte string without a leading zero is the minimal form of its value. */
  lemma {:induction false} MinimalBEUnique(b: Bytes)
    requires b == [] || b[0] != 0
    ensures MinimalBE(FromBE(b)) == b
    ensures b != [] ==> FromBE(b) > 0
  {
    if b != [] {
      var init := b[..|b| - 1];
      MinimalBEUnique(init);
      assert b == init + [b[|b| - 1]];
      if init == [] {
        assert FromBE(b) == b[0];
      }
    }
  }

  /** Which end is which: the first byte of a little-endian number is its lowest, the last of a
      big-endian one. */
  lemma Ends(a: Byte, b: Byte, c: Byte)
    ensures FromLE([a, b, c]) == a + 0x100 * b + 0x1_0000 * c
    ensures FromBE([a, b, c]) == 0x1_0000 * a + 0x100 * b + c
  {
    assert [a, b, c][1..] == [b, c] && [b, c][1..] == [c] && [c][1..] == [];
    assert [a, b, c][..2] == [a, b] && [a, b][..1] == [a] && [a][..0] == [];
    assert FromLE([c]) == c && FromLE([b, c]) == b + 256 * c;
    assert FromBE([a]) == a && FromBE([a, b]) == 256 * a + b;
  }
}
