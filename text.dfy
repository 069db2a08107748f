/**
 * String helpers the server relies on: PHP's `trim` with its default
 * character set, ASCII digit strings (PCRE `\d` without the `u` flag),
 * decimal rendering of a length, and the UTF-8 byte length of a string.
 */
module Text {
  import opened Wrappers

  /** The characters PHP's `trim` strips by default: " \t\n\r\0\x0B". */
  predicate IsTrimChar(c: char) {
    c == ' ' || c == '\t' || c == '\n' || c == '\r' || c == '\0' || c as int == 0x0B
  }

  predicate AllTrimChars(s: string) {
    forall k :: 0 <= k < |s| ==> IsTrimChar(s[k])
  }

  /** `ltrim`: drops the leading trim characters, and only those. */
  function TrimLeft(s: string): (r: string)
    ensures |r| <= |s| && r == s[|s| - |r|..]
    ensures AllTrimChars(s[..|s| - |r|])
    ensures r != [] ==> !IsTrimChar(r[0])
  {
    if |s| > 0 && IsTrimChar(s[0]) then TrimLeft(s[1..]) else s
  }

  /** `rtrim`: drops the trailing trim characters, and only those. */
  function TrimRight(s: string): (r: string)
    ensures |r| <= |s| && r == s[..|r|]
    ensures AllTrimChars(s[|r|..])
    ensures r != [] ==> !IsTrimChar(r[|r| - 1])
  {
    if |s| > 0 && IsTrimChar(s[|s| - 1]) then
      var front := s[..|s| - 1];
      var r := TrimRight(front);
      assert front[..|r|] == s[..|r|];
      assert s[|r|..] == front[|r|..] + [s[|s| - 1]];
      r
    else s
  }

  /** The number of characters `trim` removes from the front of `s`. */
  function TrimOffset(s: string): nat {
    |s| - |TrimLeft(s)|
  }

  /**
   * PHP's `trim` with the default character set: the longest infix of `s`
   * that neither starts nor ends with a trim character, everything outside
   * it being trim characters.
   */
  function Trim(s: string): (r: string)
    ensures TrimOffset(s) + |r| <= |s|
    ensures r == s[TrimOffset(s)..TrimOffset(s) + |r|]
    ensures AllTrimChars(s[..TrimOffset(s)]) && AllTrimChars(s[TrimOffset(s) + |r|..])
    ensures r != [] ==> !IsTrimChar(r[0]) && !IsTrimChar(r[|r| - 1])
  {
    TrimRight(TrimLeft(s))
  }

  /** A string that already starts and ends with non-trim characters is left alone. */
  lemma TrimFixed(s: string)
    requires s == [] || (!IsTrimChar(s[0]) && !IsTrimChar(s[|s| - 1]))
    ensures Trim(s) == s
  {
  }

  /** Surrounding `s` with trim characters does not change what `trim` returns. */
  lemma TrimPadded(a: string, s: string, b: string)
    requires AllTrimChars(a) && AllTrimChars(b)
    requires s == [] || (!IsTrimChar(s[0]) && !IsTrimChar(s[|s| - 1]))
    ensures Trim(a + s + b) == s
  {
    if s == [] {
      assert a + s + b == a + b;
      AllTrimmedAway(a + b);
    } else {
      assert a + s + b == a + (s + b);
      LeftPadded(a, s + b);
      RightPadded(s, b);
    }
  }

  /** A string of trim characters only trims to the empty string. */
  lemma {:induction false} AllTrimmedAway(s: string)
    requires AllTrimChars(s)
    ensures TrimLeft(s) == []
  {
    if s != [] {
      AllTrimmedAway(s[1..]);
    }
  }

  lemma {:induction false} LeftPadded(a: string, t: string)
    requires AllTrimChars(a)
    requires t == [] || !IsTrimChar(t[0])
    ensures TrimLeft(a + t) == t
  {
    if a != [] {
      assert (a + t)[1..] == a[1..] + t;
      LeftPadded(a[1..], t);
    }
  }

  lemma {:induction false} RightPadded(s: string, b: string)
    requires AllTrimChars(b)
    requires s == [] || !IsTrimChar(s[|s| - 1])
    ensures TrimRight(s + b) == s
  {
    if b != [] {
      assert (s + b)[..|s + b| - 1] == s + b[..|b| - 1];
      RightPadded(s, b[..|b| - 1]);
    }
  }

  /** An ASCII decimal digit, what PCRE's `\d` matches without the `u` flag. */
  predicate IsDigit(c: char) {
    '0' <= c <= '9'
  }

  predicate AllDigits(s: string) {
    forall k :: 0 <= k < |s| ==> IsDigit(s[k])
  }

  /** A string `\d+` matches in full. */
  predicate IsDigitString(s: string) {
    |s| > 0 && AllDigits(s)
  }

  function DigitChar(d: nat): (c: char)
    requires d < 10
    ensures IsDigit(c) && c as int - '0' as int == d
  {
    ('0' as int + d) as char
  }

  /** The decimal text of `n`, without leading zeros (how PHP renders an integer). */
  function Decimal(n: nat): (s: string)
    ensures IsDigitString(s)
    ensures s[0] == '0' ==> n == 0
  {
    if n < 10 then [DigitChar(n)] else Decimal(n / 10) + [DigitChar(n % 10)]
  }

  /** Reads an unsigned decimal number, as an HTTP peer reads Content-Length. */
  function ParseDecimal(s: string): (r: Option<nat>)
    ensures r.Some? <==> IsDigitString(s)
  {
    if s == [] || !IsDigit(s[|s| - 1]) then None
    else if |s| == 1 then Some(s[0] as int - '0' as int)
    else match ParseDecimal(s[..|s| - 1])
      case None => None
      case Some(m) => Some(m * 10 + (s[|s| - 1] as int - '0' as int))
  }

  /** Rendering a number and reading it back gives the number. */
  lemma {:induction false} DecimalRoundTrip(n: nat)
    ensures ParseDecimal(Decimal(n)) == Some(n)
  {
    if n >= 10 {
      var s := Decimal(n);
      assert s[..|s| - 1] == Decimal(n / 10);
      DecimalRoundTrip(n / 10);
    }
  }

  /** The number of bytes `c` takes in UTF-8. */
  function Utf8Width(c: char): (w: nat)
    ensures 1 <= w <= 4
    ensures w == 1 <==> c as int < 0x80
  {
    if c as int < 0x80 then 1
    else if c as int < 0x800 then 2
    else if c as int < 0x10000 then 3
    else 4
  }

  /** The byte length of `s` encoded as UTF-8 (PHP's `strlen` of that text). */
  function Utf8Length(s: string): (n: nat) {
    if s == [] then 0 else Utf8Width(s[0]) + Utf8Length(s[1..])
  }

  predicate IsAscii(s: string) {
    forall k :: 0 <= k < |s| ==> s[k] as int < 0x80
  }

  /** Each character takes at least one byte, and ASCII text exactly one. */
  lemma {:induction false} Utf8LengthBounds(s: string)
    ensures |s| <= Utf8Length(s)
    ensures Utf8Length(s) == |s| <==> IsAscii(s)
  {
    if s != [] {
      var tail := s[1..];
      Utf8LengthBounds(tail);
      if IsAscii(s) {
        assert IsAscii(tail) by {
          forall j | 0 <= j < |tail| ensures tail[j] as int < 0x80 {
            assert tail[j] == s[j + 1];
          }
        }
      }
      if IsAscii(tail) && s[0] as int < 0x80 {
        forall j | 0 <= j < |s| ensures s[j] as int < 0x80 {
          if j > 0 { assert s[j] == tail[j - 1]; }
        }
      }
    }
  }
}
