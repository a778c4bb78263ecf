/** Bitwise operations on natural numbers, bit by bit, and the arithmetic they amount to. */
module Bits {

  function Pow2(k: nat): (p: nat)
    ensures p > 0
  {
    if k == 0 then 1 else 2 * Pow2(k - 1)
  }

  function And(a: nat, b: nat): nat {
    if a == 0 || b == 0 then 0 else 2 * And(a / 2, b / 2) + (if a % 2 == 1 && b % 2 == 1 then 1 else 0)
  }

  function Or(a: nat, b: nat): nat
    decreases a + b
  {
    if a == 0 then b
    else if b == 0 then a
    else 2 * Or(a / 2, b / 2) + (if a % 2 == 1 || b % 2 == 1 then 1 else 0)
  }

  function Lsh(a: nat, k: nat): nat {
    if k == 0 then a else 2 * Lsh(a, k - 1)
  }

  function Rsh(a: nat, k: nat): nat {
    if k == 0 then a else Rsh(a / 2, k - 1)
  }

  /** Setting a bit to one. */
  function SetBit(a: nat, k: nat): (b: nat)
    ensures b > 0
  {
    if k == 0 then (if a % 2 == 0 then a + 1 else a)
    else 2 * SetBit(a / 2, k - 1) + a % 2
  }

  function Bit(a: nat, k: nat): nat {
    if k == 0 then a % 2 else Bit(a / 2, k - 1)
  }

  lemma Regroup(x: nat, y: nat)
    ensures 2 * (x * y) == (2 * x) * y
  {
  }

  lemma {:induction false} Pow2Add(a: nat, b: nat)
    ensures Pow2(a + b) == Pow2(a) * Pow2(b)
  {
    if a > 0 {
      Pow2Add(a - 1, b);
      assert Pow2(a + b) == 2 * Pow2(a - 1 + b) && Pow2(a) == 2 * Pow2(a - 1);
      hide Pow2;
      Regroup(Pow2(a - 1), Pow2(b));
    }
  }

  /** Masking with 2^k - 1 is the remainder modulo 2^k. */
  lemma {:induction false} AndMask(a: nat, k: nat)
    ensures And(a, Pow2(k) - 1) == a % Pow2(k)
  {
    if a == 0 {
      ZeroMod(Pow2(k));
    } else if k > 0 {
      AndMask(a / 2, k - 1);
      AndMaskStep(a, Pow2(k - 1));
      assert Pow2(k) == 2 * Pow2(k - 1);
      hide And, Pow2;
    }
  }

  lemma ZeroMod(p: nat)
    requires p > 0
    ensures 0 % p == 0
  {
  }

  lemma AndMaskStep(a: nat, p: nat)
    requires a > 0 && p > 0 && And(a / 2, p - 1) == (a / 2) % p
    ensures And(a, 2 * p - 1) == a % (2 * p)
  {
    HalfMod(a, p);
    AndOdd(a, p);
    hide And;
  }

  lemma AndOdd(a: nat, p: nat)
    requires a > 0 && p > 0
    ensures And(a, 2 * p - 1) == 2 * And(a / 2, p - 1) + a % 2
  {
    assert (2 * p - 1) / 2 == p - 1 && (2 * p - 1) % 2 == 1;
  }

  lemma HalfMod(a: nat, p: nat)
    requires p > 0
    ensures a % (2 * p) == 2 * ((a / 2) % p) + a % 2
  {
    var q, r := (a / 2) / p, (a / 2) % p;
    assert a == (2 * p) * q + (2 * r + a % 2) by {
      assert a / 2 == p * q + r;
      assert a == 2 * (a / 2) + a % 2;
      assert 2 * (p * q) == (2 * p) * q;
    }
    RemainderUnique(a, 2 * p, q, 2 * r + a % 2);
  }

  lemma RemainderUnique(a: int, p: int, q: int, r: int)
    requires 0 <= r < p && a == p * q + r
    ensures a / p == q && a % p == r
  {
    NoMultipleWithin(p, q - a / p, a % p - r);
  }

  lemma NoMultipleWithin(p: int, d: int, r: int)
    requires p > 0 && -p < r < p
    requires p * d == r
    ensures d == 0
  {
    ProductSpread(p, d);
  }

  lemma ProductSpread(p: int, d: int)
    requires p > 0
    ensures d >= 1 ==> p * d >= p
    ensures d <= -1 ==> p * d <= -p
  {
  }

  lemma {:induction false} LshIsProduct(a: nat, k: nat)
    ensures Lsh(a, k) == a * Pow2(k)
  {
    if k > 0 {
      LshIsProduct(a, k - 1);
      assert a * Pow2(k) == 2 * (a * Pow2(k - 1));
    }
  }

  lemma {:induction false} RshIsQuotient(a: nat, k: nat)
    ensures Rsh(a, k) == a / Pow2(k)
  {
    if k > 0 {
      RshIsQuotient(a / 2, k - 1);
      HalfDiv(a, Pow2(k - 1));
    }
  }

  lemma HalfDiv(a: nat, p: nat)
    requires p > 0
    ensures a / (2 * p) == (a / 2) / p
  {
    var q, r := (a / 2) / p, (a / 2) % p;
    assert a == (2 * p) * q + (2 * r + a % 2) by {
      assert a / 2 == p * q + r;
      assert 2 * (p * q) == (2 * p) * q;
    }
    RemainderUnique(a, 2 * p, q, 2 * r + a % 2);
  }

  lemma {:induction false} BitIsDigit(a: nat, k: nat)
    ensures Bit(a, k) == (a / Pow2(k)) % 2
  {
    if k > 0 {
      BitIsDigit(a / 2, k - 1);
      HalfDiv(a, Pow2(k - 1));
    }
  }

  /** Setting a bit that is clear adds its weight. */
  lemma {:induction false} SetBitAdds(a: nat, k: nat)
    requires Bit(a, k) == 0
    ensures SetBit(a, k) == a + Pow2(k)
  {
    if k > 0 {
      SetBitAdds(a / 2, k - 1);
    }
  }

  /** Or-ing a value into k clear low bits is addition. */
  lemma {:induction false} OrDisjoint(a: nat, k: nat, b: nat)
    requires b < Pow2(k)
    ensures Or(a * Pow2(k), b) == a * Pow2(k) + b
    decreases k
  {
    var x := a * Pow2(k);
    if x != 0 && b != 0 {
      assert k > 0;
      var y := a * Pow2(k - 1);
      assert x == 2 * y;
      OrDisjoint(a, k - 1, b / 2);
    }
  }

  lemma ZeroBits(k: nat)
    ensures Bit(0, k) == 0
  {
  }

  // The same facts with the weight 2^k named, so that callers can use a numeral.

  lemma BitAt(a: nat, k: nat, unit: nat)
    requires Pow2(k) == unit
    ensures Bit(a, k) == (a / unit) % 2
  {
    BitIsDigit(a, k);
  }

  lemma RshBy(a: nat, k: nat, unit: nat)
    requires Pow2(k) == unit
    ensures Rsh(a, k) == a / unit
  {
    RshIsQuotient(a, k);
  }

  lemma LshBy(a: nat, k: nat, unit: nat)
    requires Pow2(k) == unit
    ensures Lsh(a, k) == a * unit
  {
    LshIsProduct(a, k);
  }

  lemma MaskLow(a: nat, k: nat, unit: nat)
    requires Pow2(k) == unit
    ensures SetBit(0, k) == unit
    ensures And(a, unit - 1) == a % unit
  {
    ZeroBits(k);
    SetBitAdds(0, k);
    AndMask(a, k);
  }

  lemma OrLow(hi: nat, k: nat, unit: nat, low: nat)
    requires Pow2(k) == unit && low < unit
    ensures Or(hi * unit, low) == hi * unit + low
  {
    OrDisjoint(hi, k, low);
  }

  // ----- each operation, bit by bit -----------------------------------------------------------

  lemma AndHalves(a: nat, b: nat)
    ensures And(a, b) / 2 == And(a / 2, b / 2)
    ensures And(a, b) % 2 == if a % 2 == 1 && b % 2 == 1 then 1 else 0
  {
  }

  lemma {:induction false} AndBits(a: nat, b: nat, k: nat)
    ensures Bit(And(a, b), k) == if Bit(a, k) == 1 && Bit(b, k) == 1 then 1 else 0
    decreases k
  {
    AndHalves(a, b);
    hide And;
    if k > 0 {
      AndBits(a / 2, b / 2, k - 1);
    }
  }

  lemma OrHalves(a: nat, b: nat)
    ensures Or(a, b) / 2 == Or(a / 2, b / 2)
    ensures Or(a, b) % 2 == if a % 2 == 1 || b % 2 == 1 then 1 else 0
  {
  }

  lemma {:induction false} OrBits(a: nat, b: nat, k: nat)
    ensures Bit(Or(a, b), k) == if Bit(a, k) == 1 || Bit(b, k) == 1 then 1 else 0
    decreases k
  {
    OrHalves(a, b);
    hide Or;
    if k > 0 {
      OrBits(a / 2, b / 2, k - 1);
    }
  }

  lemma {:induction false} SetBitBits(a: nat, j: nat, k: nat)
    ensures Bit(SetBit(a, j), k) == if k == j then 1 else Bit(a, k)
    decreases k
  {
    SetBitHalves(a, j);
    if j > 0 && k > 0 {
      SetBitBits(a / 2, j - 1, k - 1);
    }
    hide SetBit;
  }

  lemma SetBitHalves(a: nat, j: nat)
    ensures SetBit(a, j) % 2 == if j == 0 then 1 else a % 2
    ensures SetBit(a, j) / 2 == if j == 0 then a / 2 else SetBit(a / 2, j - 1)
  {
    if j > 0 {
      var half := SetBit(a / 2, j - 1);
      assert SetBit(a, j) == 2 * half + a % 2;
      hide SetBit;
      Halves(half, a % 2);
    } else {
      assert SetBit(a, 0) == if a % 2 == 0 then a + 1 else a;
      hide SetBit;
    }
  }

  lemma Halves(x: nat, r: nat)
    requires r < 2
    ensures (2 * x + r) / 2 == x && (2 * x + r) % 2 == r
  {
  }

  lemma {:induction false} LshBits(a: nat, j: nat, k: nat)
    ensures Bit(Lsh(a, j), k) == if k < j then 0 else Bit(a, k - j)
    decreases j
  {
    if j > 0 && k > 0 {
      LshBits(a, j - 1, k - 1);
      assert Lsh(a, j) / 2 == Lsh(a, j - 1);
    }
  }

  lemma {:induction false} RshBits(a: nat, j: nat, k: nat)
    ensures Bit(Rsh(a, j), k) == Bit(a, k + j)
    decreases j
  {
    if j > 0 {
      RshBits(a / 2, j - 1, k);
    }
  }
}
