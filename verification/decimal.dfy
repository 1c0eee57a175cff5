/** Decimal digit strings: reading an ASCII digit run as a natural number,
    and a run with a fraction as an exact rational (the number of a time
    token), and writing a natural number in decimal (the `PC{i+1}` component
    labels). */
module Decimal {

  /** JavaScript's `\d` without the `u` flag: the ASCII digits only. */
  predicate IsDigit(c: char)
  {
    '0' <= c <= '9'
  }

  predicate AllDigits(s: string)
  {
    forall k :: 0 <= k < |s| ==> IsDigit(s[k])
  }

  function DigitValue(c: char): (d: nat)
    requires IsDigit(c)
    ensures d < 10
  {
    c as int - '0' as int
  }

  function DigitChar(d: nat): (c: char)
    requires d < 10
    ensures IsDigit(c) && DigitValue(c) == d
  {
    ('0' as int + d) as char
  }

  /** The value of a digit string read most significant digit first. */
  function DigitsToNat(s: string): nat
    requires AllDigits(s)
    decreases |s|
  {
    if |s| == 0 then 0 else DigitsToNat(s[..|s| - 1]) * 10 + DigitValue(s[|s| - 1])
  }

  function Pow10(k: nat): (p: nat)
    ensures p >= 1
  {
    if k == 0 then 1 else 10 * Pow10(k - 1)
  }

  /** A k-digit string reads as a number below 10^k. */
  lemma {:induction false} DigitsBelowPow10(s: string)
    requires AllDigits(s)
    ensures DigitsToNat(s) < Pow10(|s|)
    decreases |s|
  {
    if |s| > 0 {
      DigitsBelowPow10(s[..|s| - 1]);
    }
  }

  /** Reading `a` followed by `b` shifts `a` left by `|b|` places and adds `b`. */
  lemma {:induction false} DigitsToNatAppend(a: string, b: string)
    requires AllDigits(a) && AllDigits(b)
    ensures AllDigits(a + b) && DigitsToNat(a + b) == DigitsToNat(a) * Pow10(|b|) + DigitsToNat(b)
    decreases |b|
  {
    if |b| == 0 {
      assert a + b == a;
    } else {
      var front := b[..|b| - 1];
      assert (a + b)[..|a + b| - 1] == a + front;
      DigitsToNatAppend(a, front);
      ShiftStep(DigitsToNat(a), Pow10(|front|), DigitsToNat(front), DigitValue(b[|b| - 1]));
    }
  }

  /** One more digit on the right of `x * q + y`. */
  lemma ShiftStep(x: nat, q: nat, y: nat, d: nat)
    ensures (x * q + y) * 10 + d == x * (10 * q) + (y * 10 + d)
  {
  }

  /** The value of the decimal `whole.frac`, as `parseFloat` reads it but
      exact. */
  function DecimalValue(whole: string, frac: string): (v: real)
    requires AllDigits(whole) && AllDigits(frac)
    ensures DigitsToNat(whole) as real <= v < DigitsToNat(whole) as real + 1.0
    ensures |frac| == 0 ==> v == DigitsToNat(whole) as real
    ensures AllDigits(whole + frac) && ScalesTo(v, Pow10(|frac|), DigitsToNat(whole + frac))
  {
    DigitsBelowPow10(frac);
    DigitsToNatAppend(whole, frac);
    PlaceFraction(DigitsToNat(whole), DigitsToNat(frac), Pow10(|frac|), DigitsToNat(whole + frac))
  }

  /** `v` times `p` is exactly `n`. */
  predicate ScalesTo(v: real, p: nat, n: nat)
  {
    v * p as real == n as real
  }

  /** `w + f / p` for a fraction `f / p` below one, where `n` is `w`
      shifted left by `p` plus `f`: its integer part is `w`, and scaling it
      by `p` gives back `n`. */
  function PlaceFraction(w: nat, f: nat, p: nat, n: nat): (v: real)
    requires f < p && n == w * p + f
    ensures w as real <= v < w as real + 1.0
    ensures f == 0 ==> v == w as real
    ensures ScalesTo(v, p, n)
  {
    assert n as real == w as real * p as real + f as real;
    w as real + f as real / p as real
  }

  /** Decimal form of `n`, as JavaScript's `String(n)` writes a small
      non-negative integer: no sign, no leading zero. */
  function NatToString(n: nat): (r: string)
    ensures |r| >= 1 && AllDigits(r)
    ensures r[0] != '0' || n == 0
    ensures |r| == 1 <==> n < 10
  {
    if n < 10 then [DigitChar(n)] else NatToString(n / 10) + [DigitChar(n % 10)]
  }

  /** Reading back what `NatToString` wrote gives the number again. */
  lemma {:induction false} NatToStringRoundTrip(n: nat)
    ensures DigitsToNat(NatToString(n)) == n
  {
    var r := NatToString(n);
    if n >= 10 {
      var prefix := NatToString(n / 10);
      assert r == prefix + [DigitChar(n % 10)];
      assert r[..|r| - 1] == prefix;
      NatToStringRoundTrip(n / 10);
    }
  }

  /** Distinct numbers are written differently. */
  lemma NatToStringInjective(m: nat, n: nat)
    ensures NatToString(m) == NatToString(n) ==> m == n
  {
    NatToStringRoundTrip(m);
    NatToStringRoundTrip(n);
  }
}
