/**
 Decimal rendering of an integer, as Java's string concatenation `"RT" + n`
 produces it for an `int`: the digits of the absolute value, most significant
 first, without leading zeros, preceded by '-' when the value is negative.
 A parser for digit strings is the partner that shows the rendering loses
 nothing, so that a message naming "RT" + n names n and no other number.
 */
module Decimal {

  predicate IsDigit(c: char) {
    '0' <= c <= '9'
  }

  predicate AllDigits(s: string) {
    forall k :: 0 <= k < |s| ==> IsDigit(s[k])
  }

  function DigitChar(d: nat): (c: char)
    requires d < 10
    ensures IsDigit(c) && c as int - '0' as int == d
  {
    ('0' as int + d) as char
  }

  /** The decimal digits of `n`, most significant first. */
  function NatToDecimal(n: nat): (s: string)
    ensures |s| >= 1 && AllDigits(s)
    ensures |s| > 1 ==> s[0] != '0'
  {
    if n < 10 then [DigitChar(n)] else NatToDecimal(n / 10) + [DigitChar(n % 10)]
  }

  /** What Java writes for an `int` in a string concatenation. */
  function IntToDecimal(n: int): (s: string)
    ensures |s| >= 1
    ensures n < 0 <==> s[0] == '-'
  {
    if n < 0 then "-" + NatToDecimal(-n) else NatToDecimal(n)
  }

  /** The number a string of decimal digits denotes. */
  function DecimalValue(s: string): nat
    requires AllDigits(s)
  {
    if |s| == 0 then 0 else DecimalValue(s[..|s| - 1]) * 10 + (s[|s| - 1] as int - '0' as int)
  }

  /** Reading back the digits written for `n` gives `n`. */
  lemma {:induction false} DecimalRoundTrip(n: nat)
    ensures DecimalValue(NatToDecimal(n)) == n
  {
    if n >= 10 {
      DecimalRoundTrip(n / 10);
      var s := NatToDecimal(n);
      assert s[..|s| - 1] == NatToDecimal(n / 10);
    }
  }

  /** Reading back what is written for any `int`: the digits after the sign give its absolute value. */
  lemma IntDecimalRoundTrip(n: int)
    ensures var s := IntToDecimal(n);
            if n < 0 then AllDigits(s[1..]) && DecimalValue(s[1..]) == -n
            else AllDigits(s) && DecimalValue(s) == n
  {
    if n < 0 {
      assert IntToDecimal(n)[1..] == NatToDecimal(-n);
      DecimalRoundTrip(-n);
    } else {
      DecimalRoundTrip(n);
    }
  }

  /** Different integers are written differently. */
  lemma IntToDecimalInjective(a: int, b: int)
    ensures IntToDecimal(a) == IntToDecimal(b) ==> a == b
  {
    if IntToDecimal(a) == IntToDecimal(b) {
      if a < 0 && b < 0 {
        assert NatToDecimal(-a) == IntToDecimal(a)[1..];
        assert NatToDecimal(-b) == IntToDecimal(b)[1..];
        DecimalRoundTrip(-a);
        DecimalRoundTrip(-b);
      } else if a >= 0 && b >= 0 {
        DecimalRoundTrip(a);
        DecimalRoundTrip(b);
      }
    }
  }
}
