/** How a number is written into a CSS custom property: `--name` set to `${value}px`.
    For an integer, JavaScript's number-to-string conversion is its decimal numeral
    (with a leading minus sign when negative). */
module CssText {
  import opened Wrappers

  predicate IsDigit(c: char) {
    '0' <= c <= '9'
  }

  predicate AllDigits(s: string) {
    forall i :: 0 <= i < |s| ==> IsDigit(s[i])
  }

  function DigitChar(d: nat): (c: char)
    requires d < 10
    ensures IsDigit(c) && DigitValue(c) == d
  {
    (('0' as int) + d) as char
  }

  function DigitValue(c: char): nat
    requires IsDigit(c)
  {
    c as int - '0' as int
  }

  /** The decimal numeral of a natural number, most significant digit first. */
  function NatToDecimal(n: nat): (s: string)
    ensures |s| > 0 && AllDigits(s)
    ensures n >= 10 ==> s[0] != '0'
  {
    if n < 10 then [DigitChar(n)] else NatToDecimal(n / 10) + [DigitChar(n % 10)]
  }

  /** JavaScript's `String(n)` for an integer `n`. */
  function IntToDecimal(n: int): string {
    if n < 0 then "-" + NatToDecimal(-n) else NatToDecimal(n)
  }

  /** The value `${n}px` that is written for a height of `n` pixels. */
  function PxValue(n: int): string {
    IntToDecimal(n) + "px"
  }

  /** The name of the custom property that stands for variable `name`. */
  function CustomProperty(name: string): string {
    "--" + name
  }

  /** The number a string of digits denotes (the reading direction of a numeral). */
  function DigitsValue(s: string): nat
    requires AllDigits(s)
  {
    if |s| == 0 then 0 else DigitsValue(s[..|s| - 1]) * 10 + DigitValue(s[|s| - 1])
  }

  /** Reads an optionally signed decimal numeral; anything else is `None`. */
  function ParseDecimal(s: string): Option<int> {
    if |s| > 0 && s[0] == '-' then
      (if |s| > 1 && AllDigits(s[1..]) then Some(-(DigitsValue(s[1..]) as int)) else None)
    else if |s| > 0 && AllDigits(s) then Some(DigitsValue(s) as int)
    else None
  }

  /** Reads back a value of the form `${n}px`. */
  function ParsePx(s: string): Option<int> {
    if |s| >= 2 && s[|s| - 2..] == "px" then ParseDecimal(s[..|s| - 2]) else None
  }

  lemma {:induction false} NatToDecimalValue(n: nat)
    ensures DigitsValue(NatToDecimal(n)) == n
  {
    if n >= 10 {
      var s := NatToDecimal(n);
      assert s[..|s| - 1] == NatToDecimal(n / 10);
      NatToDecimalValue(n / 10);
    }
  }

  /** Reading the written numeral back gives the number that was written. */
  lemma IntToDecimalRoundTrip(n: int)
    ensures ParseDecimal(IntToDecimal(n)) == Some(n)
  {
    if n < 0 {
      var s := IntToDecimal(n);
      assert s[1..] == NatToDecimal(-n);
      NatToDecimalValue(-n);
    } else {
      NatToDecimalValue(n);
    }
  }

  /** A written pixel value reads back as the height it was written for. */
  lemma PxRoundTrip(n: int)
    ensures ParsePx(PxValue(n)) == Some(n)
  {
    var s := PxValue(n);
    assert s[|s| - 2..] == "px";
    assert s[..|s| - 2] == IntToDecimal(n);
    IntToDecimalRoundTrip(n);
  }

  /** Different heights are written as different values. */
  lemma PxValueInjective(a: int, b: int)
    requires PxValue(a) == PxValue(b)
    ensures a == b
  {
    PxRoundTrip(a);
    PxRoundTrip(b);
  }

  /** Different variable names are written to different custom properties. */
  lemma CustomPropertyInjective(a: string, b: string)
    requires CustomProperty(a) == CustomProperty(b)
    ensures a == b
  {
    assert a == CustomProperty(a)[2..];
    assert b == CustomProperty(b)[2..];
  }
}
