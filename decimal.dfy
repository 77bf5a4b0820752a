/**
 * Decimal digit strings: the canonical rendering of a natural number, the
 * zero padding of the .NET standard format "D<n>" (at least n digits,
 * more when the number needs them), and the value of a digit string,
 * which is the inverse of both.
 */
module Decimal {

  predicate IsDigit(c: char) {
    '0' <= c <= '9'
  }

  predicate AllDigits(s: string) {
    forall i :: 0 <= i < |s| ==> IsDigit(s[i])
  }

  function DigitValue(c: char): nat {
    if IsDigit(c) then c as int - '0' as int else 0
  }

  function DigitChar(d: nat): (c: char)
    requires d < 10
    ensures IsDigit(c) && DigitValue(c) == d
  {
    ('0' as int + d) as char
  }

  /** The number a string of decimal digits denotes, most significant first. */
  function Value(s: string): nat {
    if s == [] then 0 else 10 * Value(s[..|s| - 1]) + DigitValue(s[|s| - 1])
  }

  function Pow10(k: nat): (r: nat)
    ensures r > 0
  {
    if k == 0 then 1 else 10 * Pow10(k - 1)
  }

  /** The shortest decimal rendering of n (what n.ToString() prints). */
  function Digits(n: nat): (r: string)
    ensures r != [] && AllDigits(r)
    ensures Value(r) == n
  {
    if n < 10 then [DigitChar(n)]
    else
      var d := Digits(n / 10);
      var r := d + [DigitChar(n % 10)];
      assert r[..|r| - 1] == d;
      r
  }

  /** Digits(n) fits in k places exactly when n is below 10^k. */
  lemma {:induction false} DigitsFit(n: nat, k: nat)
    requires k >= 1
    ensures |Digits(n)| <= k <==> n < Pow10(k)
  {
    if n >= 10 {
      if k == 1 {
        assert |Digits(n)| == |Digits(n / 10)| + 1;
      } else {
        DigitsFit(n / 10, k - 1);
        assert n / 10 < Pow10(k - 1) <==> n < 10 * Pow10(k - 1);
      }
    } else if k > 1 {
      assert Pow10(k) == 10 * Pow10(k - 1);
    }
  }

  function Zeros(k: nat): (r: string)
    ensures |r| == k && forall i :: 0 <= i < k ==> r[i] == '0'
  {
    seq(k, _ => '0')
  }

  /** Zeros in front of a digit string do not change its value. */
  lemma {:induction false} LeadingZeros(z: string, d: string)
    requires forall i :: 0 <= i < |z| ==> z[i] == '0'
    ensures Value(z + d) == Value(d)
    decreases |z| + |d|
  {
    if d == [] {
      assert z + d == z;
      if z != [] {
        LeadingZeros(z[..|z| - 1], []);
        assert z[..|z| - 1] + [] == z[..|z| - 1];
      }
    } else {
      var d' := d[..|d| - 1];
      assert (z + d)[..|z + d| - 1] == z + d';
      LeadingZeros(z, d');
    }
  }

  /**
   * The .NET format "D<width>" of a non-negative number: the decimal digits
   * of n, left-padded with zeros to at least `width` characters. A number
   * with more digits than `width` is printed in full.
   */
  function PadLeft(n: nat, width: nat): (r: string)
    ensures |r| == if width > |Digits(n)| then width else |Digits(n)|
    ensures AllDigits(r) && r != []
    ensures Value(r) == n
  {
    var d := Digits(n);
    if |d| < width then
      var z := Zeros(width - |d|);
      LeadingZeros(z, d);
      z + d
    else d
  }

  /** The padded number has exactly `width` digits when it fits, and more otherwise. */
  lemma PadWidth(n: nat, width: nat)
    requires width >= 1
    ensures n < Pow10(width) ==> |PadLeft(n, width)| == width
    ensures n >= Pow10(width) ==> |PadLeft(n, width)| > width
  {
    DigitsFit(n, width);
  }

  /** The longest prefix of s made of decimal digits. */
  function DigitRun(s: string): (r: string)
    ensures |r| <= |s| && r == s[..|r|] && AllDigits(r)
    ensures |r| < |s| ==> !IsDigit(s[|r|])
  {
    if s == [] || !IsDigit(s[0]) then []
    else [s[0]] + DigitRun(s[1..])
  }

  /** A digit run stops at the first character that is not a digit. */
  lemma DigitRunStops(d: string, t: string)
    requires AllDigits(d) && t != [] && !IsDigit(t[0])
    ensures DigitRun(d + t) == d
  {
    assert (d + t)[..|d|] == d;
  }
}
