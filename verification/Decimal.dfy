/** Decimal rendering of naturals, as used in reason strings and priority descriptions. */
module Decimal {

  predicate IsDigit(c: char) {
    '0' <= c <= '9'
  }

  function Print(n: nat): (s: string)
    ensures s != [] && forall i :: 0 <= i < |s| ==> IsDigit(s[i])
  {
    if n < 10 then [('0' as int + n) as char]
    else Print(n / 10) + [('0' as int + n % 10) as char]
  }

  function Value(s: string): nat
    requires forall i :: 0 <= i < |s| ==> IsDigit(s[i])
  {
    if s == [] then 0 else
      assert IsDigit(s[|s| - 1]);
      Value(s[..|s| - 1]) * 10 + (s[|s| - 1] as int - '0' as int)
  }

  lemma {:induction false} PrintRoundTrip(n: nat)
    ensures Value(Print(n)) == n
  {
    var s := Print(n);
    if n < 10 {
      assert s[..|s| - 1] == [];
    } else {
      PrintRoundTrip(n / 10);
      assert s[..|s| - 1] == Print(n / 10);
    }
  }

  /** Length of the longest prefix of digits. */
  function DigitRun(s: string): (k: nat)
    ensures k <= |s|
    ensures forall i :: 0 <= i < k ==> IsDigit(s[i])
    ensures k < |s| ==> !IsDigit(s[k])
  {
    if s == [] || !IsDigit(s[0]) then 0 else 1 + DigitRun(s[1..])
  }

  /** A printed number followed by a non-digit is split off exactly. */
  lemma DigitRunOfPrint(n: nat, rest: string)
    requires rest != [] && !IsDigit(rest[0])
    ensures DigitRun(Print(n) + rest) == |Print(n)|
    ensures (Print(n) + rest)[..|Print(n)|] == Print(n)
    ensures (Print(n) + rest)[|Print(n)|..] == rest
  {
    var s := Print(n) + rest;
    assert s[|Print(n)|] == rest[0];
    assert forall i :: 0 <= i < |Print(n)| ==> s[i] == Print(n)[i];
    assert !(DigitRun(s) < |Print(n)|);
  }

  lemma OneDigit(a: nat)
    requires a < 10
    ensures |Print(a)| == 1 && Print(a)[0] as int == '0' as int + a
  {
  }

  lemma TwoDigits(a: nat, b: nat)
    requires 0 < a < 10 && b < 10
    ensures |Print(10 * a + b)| == 2
    ensures Print(10 * a + b)[0] as int == '0' as int + a && Print(10 * a + b)[1] as int == '0' as int + b
  {
  }
}
