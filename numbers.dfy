/** Python's numeric conversions that the pipeline relies on, over exact reals. */
module Numbers {

  /** Python's `int()` applied to a float: truncation toward zero. */
  function Trunc(x: real): int
  {
    if x >= 0.0 then x.Floor else -((-x).Floor)
  }

  /** Truncation drops the fraction: it moves toward zero by less than one. */
  lemma TruncBounds(x: real)
    ensures 0.0 <= x ==> Trunc(x) as real <= x < Trunc(x) as real + 1.0
    ensures x < 0.0 ==> Trunc(x) as real - 1.0 < x <= Trunc(x) as real
  {
  }

  /** On non-negative values truncation and floor agree. */
  lemma TruncIsFloorWhenNonNegative(x: real)
    requires 0.0 <= x
    ensures Trunc(x) == x.Floor
  {
  }

  /** Rounding to the nearest integer, ties to the even neighbour, as Python's
      `'{:.0f}'` format does with the exact value of a float. */
  function RoundHalfEven(x: real): (n: int)
    ensures -0.5 <= x - n as real <= 0.5
    ensures (x - n as real == 0.5 || n as real - x == 0.5) ==> n % 2 == 0
    ensures 0.0 <= x ==> 0 <= n
  {
    var f := x.Floor;
    var frac := x - f as real;
    if frac < 0.5 then f
    else if frac > 0.5 then f + 1
    else if f % 2 == 0 then f
    else f + 1
  }

  predicate IsDigit(c: char) {
    '0' <= c <= '9'
  }

  function DigitChar(d: nat): (c: char)
    requires d < 10
    ensures IsDigit(c) && (c as int) - ('0' as int) == d
  {
    (('0' as int) + d) as char
  }

  /** Python's `str()` of a non-negative integer: its decimal digits. */
  function NatToDecimal(n: nat): (s: string)
    ensures |s| >= 1
    ensures forall i :: 0 <= i < |s| ==> IsDigit(s[i])
    ensures s[0] == '0' ==> n == 0 && |s| == 1
    decreases n
  {
    if n < 10 then [DigitChar(n)] else NatToDecimal(n / 10) + [DigitChar(n % 10)]
  }

  /** `digits` is the decimal rendering of n: digits only, at least one, no leading zero,
      and denoting n. */
  predicate Canonical(digits: string, n: nat) {
    |digits| >= 1
    && (forall k :: 0 <= k < |digits| ==> IsDigit(digits[k]))
    && (digits[0] == '0' ==> |digits| == 1)
    && DecimalValue(digits) == n
  }

  /** Python's `str()` of any integer: a '-' for a negative value, then the decimal
      digits of its magnitude (IntToDecimalCanonical). */
  function IntToDecimal(i: int): (s: string)
    ensures |s| >= 1
    ensures s[0] == '-' <==> i < 0
  {
    if i < 0 then "-" + NatToDecimal(-i) else NatToDecimal(i)
  }

  /** After the optional '-', `str()` gives the decimal rendering of the magnitude. */
  lemma IntToDecimalCanonical(i: int)
    ensures var s := IntToDecimal(i);
            Canonical(if i < 0 then s[1..] else s, if i < 0 then -i else i)
  {
    if i < 0 {
      DecimalRoundTrip(-i);
      assert IntToDecimal(i)[1..] == NatToDecimal(-i);
    } else {
      DecimalRoundTrip(i);
    }
  }

  /** The value a string of decimal digits denotes: the inverse of NatToDecimal. */
  function DecimalValue(s: string): nat
    requires forall i :: 0 <= i < |s| ==> IsDigit(s[i])
  {
    if |s| == 0 then 0
    else
      assert IsDigit(s[|s| - 1]);
      DecimalValue(s[..|s| - 1]) * 10 + ((s[|s| - 1] as int) - ('0' as int))
  }

  lemma {:induction false} DecimalRoundTrip(n: nat)
    ensures DecimalValue(NatToDecimal(n)) == n
    decreases n
  {
    if n >= 10 {
      var s := NatToDecimal(n);
      assert s[..|s| - 1] == NatToDecimal(n / 10);
      DecimalRoundTrip(n / 10);
    }
  }

  /** Python's `'{:.0f}'` of a confidence in [0, 100]. */
  function FormatFixed0(x: real): (s: string)
    requires 0.0 <= x
    ensures |s| >= 1 && (s[0] == '0' ==> |s| == 1)
    ensures forall i :: 0 <= i < |s| ==> IsDigit(s[i])
    ensures DecimalValue(s) == RoundHalfEven(x)
  {
    DecimalRoundTrip(RoundHalfEven(x));
    NatToDecimal(RoundHalfEven(x))
  }
}
