/**
 * Python's `round` on exact reals (round half to even), decimal rendering of
 * integers for f-strings, and the rounding to a fixed number of decimals used
 * for match scores and keyword weights.
 */
module Numeric {

  /** Python `round(x)`: the nearest integer, ties to the even neighbour. */
  function RoundHalfEven(x: real): (n: int)
    ensures x - 0.5 <= n as real <= x + 0.5
    ensures (n as real - x == 0.5 || x - n as real == 0.5) ==> n % 2 == 0
  {
    var f := x.Floor;
    var d := x - f as real;
    if d < 0.5 then f
    else if d > 0.5 then f + 1
    else if f % 2 == 0 then f else f + 1
  }

  lemma RoundOfInt(n: int)
    ensures RoundHalfEven(n as real) == n
  {
  }

  lemma RoundMonotone(x: real, y: real)
    requires x <= y
    ensures RoundHalfEven(x) <= RoundHalfEven(y)
  {
    if x < y {
      assert RoundHalfEven(y) as real > RoundHalfEven(x) as real - 1.0;
    }
  }

  lemma RoundBetweenInts(x: real, lo: int, hi: int)
    requires lo as real <= x <= hi as real
    ensures lo <= RoundHalfEven(x) <= hi
  {
    RoundMonotone(lo as real, x);
    RoundMonotone(x, hi as real);
    RoundOfInt(lo);
    RoundOfInt(hi);
  }

  /** Python `round(x, 2)` on an exact real. */
  function Round2(x: real): (r: real)
  {
    RoundHalfEven(x * 100.0) as real / 100.0
  }

  /** Python `round(x, 3)` on an exact real. */
  function Round3(x: real): (r: real)
  {
    RoundHalfEven(x * 1000.0) as real / 1000.0
  }

  lemma Round2Bounds(x: real, lo: real, hi: real)
    requires 0.0 <= lo <= x <= hi <= 1.0
    ensures lo - 0.005 <= Round2(x) <= hi + 0.005
    ensures hi == 0.9 ==> Round2(x) <= 0.9
    ensures hi == 0.7 ==> Round2(x) <= 0.7
  {
    RoundMonotone(x * 100.0, hi * 100.0);
    if hi == 0.9 { RoundOfInt(90); }
    if hi == 0.7 { RoundOfInt(70); }
  }

  lemma Round3OfOne()
    ensures Round3(1.0) == 1.0
  {
    RoundOfInt(1000);
  }

  function Min(a: int, b: int): (m: int)
    ensures m <= a && m <= b && (m == a || m == b)
  {
    if a <= b then a else b
  }

  function MinReal(a: real, b: real): (m: real)
    ensures m <= a && m <= b && (m == a || m == b)
  {
    if a <= b then a else b
  }

  function DigitChar(d: nat): (c: char)
    requires d < 10
    ensures '0' <= c <= '9'
  {
    ('0' as int + d) as char
  }

  /** Decimal rendering of a natural number, as `str(n)`. */
  function NatToString(n: nat): (s: string)
    ensures |s| > 0
    ensures forall i :: 0 <= i < |s| ==> '0' <= s[i] <= '9'
  {
    if n < 10 then [DigitChar(n)] else NatToString(n / 10) + [DigitChar(n % 10)]
  }

  /** Decimal rendering of an integer, as `str(n)`. */
  function IntToString(n: int): (s: string)
    ensures |s| > 0
  {
    if n < 0 then "-" + NatToString(-n) else NatToString(n)
  }

  /** Value of a run of ASCII digits, as `int(digits)`. */
  function DigitsValue(s: string): (v: nat)
    requires forall i :: 0 <= i < |s| ==> '0' <= s[i] <= '9'
  {
    if |s| == 0 then 0 else DigitsValue(s[..|s| - 1]) * 10 + (s[|s| - 1] as int - '0' as int)
  }

  lemma {:induction false} DigitsValueOfNatToString(n: nat)
    ensures DigitsValue(NatToString(n)) == n
  {
    if n >= 10 {
      DigitsValueOfNatToString(n / 10);
      var s := NatToString(n);
      assert s[..|s| - 1] == NatToString(n / 10);
    }
  }
}
