/**
 * PHP's loose `==` between two strings (PHP 7): when both are numeric
 * strings they are compared as numbers, otherwise as text. A numeric string
 * is optional leading whitespace, an optional sign, decimal digits with at
 * most one decimal point (at least one digit in all), and an optional
 * exponent; nothing may follow. Hexadecimal is not numeric.
 */
module Numeric {
  import opened Wrappers
  import opened Text

  /** The whitespace PHP skips in front of a number: space, `\t`, `\n`, `\r`, `\v`, `\f`. */
  predicate IsNumericSpace(c: char) {
    c == ' ' || c == '\t' || c == '\n' || c == '\r' || c as int == 0x0B || c as int == 0x0C
  }

  /** The value `(-1 if negative) * mantissa * 10^(-scale)` of a numeric string. */
  datatype Number = Number(negative: bool, mantissa: nat, scale: int)

  function Pow10(k: nat): (p: nat)
    ensures p >= 1
    ensures k > 0 ==> p >= 10
  {
    if k == 0 then 1 else 10 * Pow10(k - 1)
  }

  /** Drops the leading whitespace, and only that. */
  function SkipSpace(s: string): string {
    if s != [] && IsNumericSpace(s[0]) then SkipSpace(s[1..]) else s
  }

  /** The longest prefix of digits, and what follows it. */
  function SpanDigits(s: string): (string, string) {
    if s != [] && IsDigit(s[0]) then
      var rest := SpanDigits(s[1..]);
      ([s[0]] + rest.0, rest.1)
    else ([], s)
  }

  /** Strips an optional `+` or `-`, telling whether it was `-`. */
  function Sign(s: string): (bool, string) {
    if s != [] && (s[0] == '+' || s[0] == '-') then (s[0] == '-', s[1..]) else (false, s)
  }

  /** The tail of a numeric string: nothing (exponent 0), or `e`/`E`, a sign and digits. */
  function Exponent(s: string): Option<int> {
    if s == [] then Some(0)
    else if s[0] != 'e' && s[0] != 'E' then None
    else
      var signed := Sign(s[1..]);
      match ParseDecimal(signed.1)
      case None => None
      case Some(n) => Some(if signed.0 then 0 - (n as int) else n as int)
  }

  /** The number a numeric string denotes, or `None` for a string that is not numeric. */
  function ParseNumber(s: string): Option<Number> {
    var signed := Sign(SkipSpace(s));
    var whole := SpanDigits(signed.1);
    var fraction := if whole.1 != [] && whole.1[0] == '.' then SpanDigits(whole.1[1..]) else ([], whole.1);
    match ParseDecimal(whole.0 + fraction.0)
    case None => None
    case Some(m) =>
      match Exponent(fraction.1)
      case None => None
      case Some(e) => Some(Number(signed.0, m, |fraction.0| - e))
  }

  /** Two numbers are equal: both zero (whatever their signs), or the same sign and magnitude. */
  predicate SameValue(x: Number, y: Number) {
    var m := if x.scale >= y.scale then x.scale else y.scale;
    (x.mantissa == 0 && y.mantissa == 0) ||
    (x.negative == y.negative && x.mantissa * Pow10(m - x.scale) == y.mantissa * Pow10(m - y.scale))
  }

  /** PHP's `a == b` for two strings. */
  predicate LooseEquals(a: string, b: string) {
    match (ParseNumber(a), ParseNumber(b))
    case (Some(x), Some(y)) => SameValue(x, y)
    case _ => a == b
  }

  /** A number equal to one: not negative, and the mantissa is `10^scale`. */
  predicate IsOne(n: Number) {
    !n.negative && n.scale >= 0 && n.mantissa == Pow10(n.scale)
  }

  /** A numeric string whose value is one. */
  predicate NumericOne(t: string) {
    match ParseNumber(t)
    case Some(n) => IsOne(n)
    case None => false
  }

  /** A digit string is numeric, with its decimal value and no scale. */
  lemma NumberOfDigits(d: string)
    requires IsDigitString(d)
    ensures ParseNumber(d) == Some(Number(false, ParseDecimal(d).value, 0))
  {
    assert IsDigit(d[0]);
    assert SkipSpace(d) == d;
    assert Sign(d) == (false, d);
    SpanDigitsStop(d, []);
    assert d + [] == d;
    var whole := SpanDigits(d);
    assert whole == (d, []);
    assert ParseDecimal(whole.0 + []) == ParseDecimal(d);
    assert Exponent([]) == Some(0);
  }

  /** `1` is a numeric string with value one, and `0` one with value zero. */
  lemma NumberOfOne()
    ensures ParseNumber("1") == Some(Number(false, 1, 0))
    ensures ParseNumber("0") == Some(Number(false, 0, 0))
  {
    assert ParseDecimal("1") == Some(1);
    assert ParseDecimal("0") == Some(0);
    NumberOfDigits("1");
    NumberOfDigits("0");
  }

  /** The empty string is not numeric. */
  lemma EmptyNotNumber()
    ensures ParseNumber("") == None
  {
    assert SkipSpace("") == "";
    assert Sign("") == (false, "");
    assert SpanDigits("") == ([], []);
    assert ParseDecimal([] + []) == None;
  }

  /** Spanning digits stops at the first character that is not one. */
  lemma {:induction false} SpanDigitsStop(d: string, rest: string)
    requires AllDigits(d)
    requires rest == [] || !IsDigit(rest[0])
    ensures SpanDigits(d + rest) == (d, rest)
  {
    if d != [] {
      assert (d + rest)[1..] == d[1..] + rest;
      SpanDigitsStop(d[1..], rest);
      assert [d[0]] + d[1..] == d;
    } else {
      assert d + rest == rest;
    }
  }

  lemma ProductNotOne(a: nat, p: nat)
    requires p >= 10
    ensures a * p != 1
  {
    if a >= 1 {
      assert a * p >= p;
    }
  }

  /**
   * A string loosely equals `"1"` exactly when it is numeric and its value
   * is one: `01`, `1.0`, `+1`, `1e0` and `10e-1` all are.
   */
  lemma LooseEqualsOne(s: string)
    ensures LooseEquals(s, "1") <==> NumericOne(s)
  {
    NumberOfOne();
    if ParseNumber(s).Some? {
      SameValueOne(ParseNumber(s).value);
    } else {
      assert s != "1";
    }
  }

  /** Equal to one, in the sense of `SameValue`, is `IsOne`. */
  lemma SameValueOne(x: Number)
    ensures SameValue(x, Number(false, 1, 0)) <==> IsOne(x)
  {
    if x.scale >= 0 {
      assert Pow10(x.scale - x.scale) == 1 && Pow10(x.scale - 0) == Pow10(x.scale);
      assert x.mantissa * 1 == x.mantissa;
    } else {
      assert Pow10(0 - 0) == 1;
      ProductNotOne(x.mantissa, Pow10(0 - x.scale));
    }
  }

  /**
   * A digit string is one exactly when its decimal value is one, so by
   * `LooseEqualsOne` `01` and `001` are `==` to `1` while `10` is not.
   */
  lemma DigitsOne(d: string)
    requires IsDigitString(d)
    ensures NumericOne(d) <==> ParseDecimal(d) == Some(1)
  {
    NumberOfDigits(d);
  }

  /**
   * A decimal fraction `whole.fraction` is one exactly when its digits, read
   * as an integer, are `10` to the number of fraction digits: `1.0` and
   * `1.00` are, `1.5` is not.
   */
  lemma FractionOne(whole: string, fraction: string)
    requires AllDigits(whole) && AllDigits(fraction) && |whole + fraction| > 0
    ensures NumericOne(whole + "." + fraction) <==> ParseDecimal(whole + fraction) == Some(Pow10(|fraction|))
  {
    NumberOfFraction(whole, fraction);
  }

  /** `whole.fraction` is numeric, its digits read as an integer scaled by the fraction's length. */
  lemma NumberOfFraction(whole: string, fraction: string)
    requires AllDigits(whole) && AllDigits(fraction) && |whole + fraction| > 0
    ensures IsDigitString(whole + fraction)
    ensures ParseNumber(whole + "." + fraction) == Some(Number(false, ParseDecimal(whole + fraction).value, |fraction|))
  {
    var s := whole + "." + fraction;
    UnsignedFraction(whole, fraction);
    SpanFraction(whole, fraction);
    var rest := "." + fraction;
    assert rest != [] && rest[0] == '.' && rest[1..] == fraction;
    DigitsConcat(whole, fraction);
    assert ParseDecimal(whole + fraction).Some?;
    assert Exponent([]) == Some(0);
  }

  /** A string of digits and one point starts with neither whitespace nor a sign. */
  lemma UnsignedFraction(whole: string, fraction: string)
    requires AllDigits(whole)
    ensures Sign(SkipSpace(whole + "." + fraction)) == (false, whole + "." + fraction)
  {
    var s := whole + "." + fraction;
    assert s[0] == if whole == [] then '.' else whole[0];
  }

  /** Spanning digits over `whole.fraction` yields `whole`, then `fraction`. */
  lemma SpanFraction(whole: string, fraction: string)
    requires AllDigits(whole) && AllDigits(fraction)
    ensures SpanDigits(whole + "." + fraction) == (whole, "." + fraction)
    ensures SpanDigits(fraction) == (fraction, [])
  {
    assert whole + "." + fraction == whole + ("." + fraction);
    SpanDigitsStop(whole, "." + fraction);
    SpanDigitsStop(fraction, []);
    assert fraction + [] == fraction;
  }

  lemma DigitsConcat(a: string, b: string)
    requires AllDigits(a) && AllDigits(b)
    ensures AllDigits(a + b)
  {
    forall k | 0 <= k < |a + b| ensures IsDigit((a + b)[k]) {
      if k >= |a| { assert (a + b)[k] == b[k - |a|]; }
    }
  }

  /**
   * A number written with a minus sign, after any leading whitespace, is
   * never one: `-1`, `-1.0`, `-1e0` and ` -1` are all not `==` to `1`.
   */
  lemma NegativeNotOne(s: string)
    requires SkipSpace(s) != [] && SkipSpace(s)[0] == '-'
    ensures ParseNumber(s).Some? ==> ParseNumber(s).value.negative
    ensures !NumericOne(s)
  {
    assert Sign(SkipSpace(s)).0;
  }
}
