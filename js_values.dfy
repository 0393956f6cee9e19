/**
  The JavaScript values the worker converts with `String(...)` or a template
  literal: Telegram's numeric ids, the environment's string settings, and
  `undefined` for a setting or field that is absent.
*/
module JsValues {

  datatype Scalar = Undefined | Number(n: int) | Text(s: string)

  predicate IsDigit(c: char) {
    '0' <= c <= '9'
  }

  function DigitChar(d: nat): (c: char)
    requires d < 10
    ensures IsDigit(c)
  {
    (48 + d) as char
  }

  function DigitValue(c: char): int {
    c as int - 48
  }

  /** Decimal numeral of a natural number, most significant digit first, without leading zeros. */
  function NaturalDecimal(n: nat): (r: string)
    ensures |r| >= 1
    ensures forall i :: 0 <= i < |r| ==> IsDigit(r[i])
    ensures |r| > 1 ==> r[0] != '0'
  {
    if n < 10 then [DigitChar(n)] else NaturalDecimal(n / 10) + [DigitChar(n % 10)]
  }

  /** `String(n)` for an integer-valued number: a minus sign exactly for negatives, then digits. */
  function Decimal(n: int): (r: string)
    ensures |r| >= 1
    ensures r[0] == '-' <==> n < 0
    ensures forall i :: (if n < 0 then 1 else 0) <= i < |r| ==> IsDigit(r[i])
  {
    if n < 0 then "-" + NaturalDecimal(-n) else NaturalDecimal(n)
  }

  /** `String(v)`: a string is itself, a number its numeral, `undefined` the word. */
  function ToJsString(v: Scalar): (r: string)
    ensures v.Undefined? ==> r == "undefined"
    ensures v.Number? ==> r == Decimal(v.n) && DecimalValue(r) == v.n
    ensures v.Text? ==> r == v.s
  {
    match v
    case Undefined => "undefined"
    case Number(n) => DecimalRoundTrip(n); Decimal(n)
    case Text(s) => s
  }

  /** Reads back a string of decimal digits. */
  function DigitsValue(s: string): int {
    if s == [] then 0 else DigitsValue(s[..|s| - 1]) * 10 + DigitValue(s[|s| - 1])
  }

  /** Reads back an optionally signed decimal numeral. */
  function DecimalValue(s: string): int {
    if |s| > 0 && s[0] == '-' then -DigitsValue(s[1..]) else DigitsValue(s)
  }

  lemma {:induction false} NaturalDecimalRoundTrip(n: nat)
    ensures DigitsValue(NaturalDecimal(n)) == n
  {
    if n >= 10 {
      var init := NaturalDecimal(n / 10);
      var r := init + [DigitChar(n % 10)];
      assert r[..|r| - 1] == init;
      NaturalDecimalRoundTrip(n / 10);
    }
  }

  /** Rendering an integer in decimal and reading it back gives the integer. */
  lemma DecimalRoundTrip(n: int)
    ensures DecimalValue(Decimal(n)) == n
  {
    if n < 0 {
      var r := "-" + NaturalDecimal(-n);
      assert r[1..] == NaturalDecimal(-n);
      NaturalDecimalRoundTrip(-n);
    } else {
      NaturalDecimalRoundTrip(n);
    }
  }

  /** Two numbers have the same decimal rendering exactly when they are equal. */
  lemma DecimalInjective(a: int, b: int)
    ensures Decimal(a) == Decimal(b) <==> a == b
  {
    DecimalRoundTrip(a);
    DecimalRoundTrip(b);
  }

  /**
    Comparing stringified ids: two numeric ids match exactly when they are the
    same number, and a numeric id matches a string setting exactly when the
    setting is its decimal numeral.
  */
  lemma StringifiedIds(a: int, b: int, s: string)
    ensures ToJsString(Number(a)) == ToJsString(Number(b)) <==> a == b
    ensures ToJsString(Number(a)) == ToJsString(Text(s)) <==> s == Decimal(a)
  {
    DecimalInjective(a, b);
  }
}
