/**
 * The JSON text the server sends for a pin route: PHP's `json_encode` with
 * default flags applied to the pin record, whose keys are `pin`,
 * `initialized` and, for an initialized pin only, `direction` and `value`,
 * in that order. Strings are escaped as PHP does by default: `"`, `\` and `/`
 * get a backslash, the usual control characters their short escapes, the
 * other control characters and every non-ASCII character `\u` with four
 * lower-case hex digits (a surrogate pair above U+FFFF).
 *
 * A decoder for exactly this record shape stands beside the encoder as its
 * reference: decoding the encoding gives the record back.
 */
module Json {
  import opened Wrappers
  import opened Text
  import opened Status

  function HexDigit(d: nat): (c: char)
    requires d < 16
    ensures c as int < 0x80
  {
    if d < 10 then ('0' as int + d) as char else ('a' as int + d - 10) as char
  }

  function HexValue(c: char): (r: Option<nat>)
    ensures r.Some? ==> r.value < 16
  {
    if '0' <= c <= '9' then Some(c as int - '0' as int)
    else if 'a' <= c <= 'f' then Some(c as int - 'a' as int + 10)
    else if 'A' <= c <= 'F' then Some(c as int - 'A' as int + 10)
    else None
  }

  /** Four lower-case hex digits, most significant first. */
  function Hex4(n: nat): (s: string)
    requires n < 0x10000
    ensures |s| == 4 && IsAscii(s)
  {
    [HexDigit(n / 16 / 16 / 16), HexDigit(n / 16 / 16 % 16), HexDigit(n / 16 % 16), HexDigit(n % 16)]
  }

  function ParseHex4(s: string): (r: Option<nat>)
    ensures r.Some? ==> |s| >= 4 && r.value < 0x10000
  {
    if |s| < 4 then None
    else match (HexValue(s[0]), HexValue(s[1]), HexValue(s[2]), HexValue(s[3]))
      case (Some(a), Some(b), Some(c), Some(d)) => Some(((a * 16 + b) * 16 + c) * 16 + d)
      case _ => None
  }

  lemma HexDigitRoundTrip(d: nat)
    requires d < 16
    ensures HexValue(HexDigit(d)) == Some(d)
  {
  }

  /** The four digits of `n`, put back together, give `n`. */
  lemma Hex4Digits(n: nat)
    requires n < 0x10000
    ensures n / 16 / 16 / 16 < 16
    ensures ((n / 16 / 16 / 16 * 16 + n / 16 / 16 % 16) * 16 + n / 16 % 16) * 16 + n % 16 == n
  {
    var q1 := n / 16;
    var q2 := q1 / 16;
    assert q1 * 16 + n % 16 == n;
    assert q2 * 16 + q1 % 16 == q1;
    assert q2 / 16 * 16 + q2 % 16 == q2;
  }

  lemma Hex4RoundTrip(n: nat, rest: string)
    requires n < 0x10000
    ensures ParseHex4(Hex4(n) + rest) == Some(n)
  {
    var s := Hex4(n) + rest;
    Hex4Digits(n);
    HexDigitRoundTrip(n / 16 / 16 / 16);
    HexDigitRoundTrip(n / 16 / 16 % 16);
    HexDigitRoundTrip(n / 16 % 16);
    HexDigitRoundTrip(n % 16);
    assert s[0] == HexDigit(n / 16 / 16 / 16) && s[1] == HexDigit(n / 16 / 16 % 16);
    assert s[2] == HexDigit(n / 16 % 16) && s[3] == HexDigit(n % 16);
  }

  /** The characters `json_encode` writes as a backslash and one letter. */
  function ShortEscapeOf(c: char): Option<char> {
    if c == '"' || c == '\\' || c == '/' then Some(c)
    else if c as int == 0x08 then Some('b')
    else if c as int == 0x0C then Some('f')
    else if c == '\n' then Some('n')
    else if c == '\r' then Some('r')
    else if c == '\t' then Some('t')
    else None
  }

  /** The escape `json_encode` writes for one character. */
  function EscapeChar(c: char): (e: string)
    ensures |e| > 0 && IsAscii(e)
  {
    var n := c as int;
    match ShortEscapeOf(c)
    case Some(letter) => ['\\', letter]
    case None =>
      if n < 0x20 || 0x80 <= n < 0x10000 then "\\u" + Hex4(n)
      else if n < 0x80 then [c]
      else "\\u" + Hex4(HighSurrogate(c)) + "\\u" + Hex4(LowSurrogate(c))
  }

  /** The first UTF-16 code unit of a character above U+FFFF. */
  function HighSurrogate(c: char): nat
    requires c as int >= 0x10000
  {
    0xD800 + (c as int - 0x10000) / 0x400
  }

  /** The second UTF-16 code unit of a character above U+FFFF. */
  function LowSurrogate(c: char): nat
    requires c as int >= 0x10000
  {
    0xDC00 + (c as int - 0x10000) % 0x400
  }

  /** The escaped body of a JSON string. */
  function Escape(s: string): (e: string)
    ensures IsAscii(e)
    decreases |s|
  {
    if s == [] then "" else EscapeChar(s[0]) + Escape(s[1..])
  }

  /** A JSON string literal: the escaped text between double quotes. */
  function Quote(s: string): (q: string)
    ensures IsAscii(q)
  {
    "\"" + Escape(s) + "\""
  }

  function BoolText(b: bool): string {
    if b then "true" else "false"
  }

  /**
   * The part of the record after `"initialized":`: `false}` for an absent
   * directory, otherwise `true` and the `direction` and `value` keys in that
   * order. It decodes back to the state.
   */
  function EncodeState(s: PinState): (r: string)
    ensures DecodeState(r) == Some(s)
  {
    match s
    case Uninitialized => BoolText(false) + "}"
    case Initialized(d, v) =>
      var rest := Quote(d) + ",\"value\":" + Quote(LevelText(v)) + "}";
      var r := BoolText(true) + ",\"direction\":" + rest;
      assert r != BoolText(false) + "}" by {
        assert r[0] == 't';
      }
      ConsumeLiteral(BoolText(true) + ",\"direction\":", rest);
      ReadingsRoundTrip(d, v);
      r
  }

  /**
   * `json_encode` of the pin record. The text decodes to that record: the
   * encoding loses nothing, keeps the keys in order, and distinct records
   * get distinct texts.
   */
  function EncodeStatus(st: PinStatus): (r: string)
    ensures DecodeStatus(r) == Some(st)
  {
    var tail := EncodeState(st.state);
    DecodeFields(st.pin, tail);
    "{\"pin\":" + (Quote(st.pin) + (",\"initialized\":" + tail))
  }

  // Decoding.

  function Prepend(c: char, r: Option<(string, string)>): Option<(string, string)> {
    match r
    case None => None
    case Some((s, rest)) => Some(([c] + s, rest))
  }

  /**
   * Reads the four hex digits after `\u` (and, for a high surrogate, the
   * `\u` escape of its low surrogate), giving the character and what follows.
   */
  function ParseUnicode(s: string): (r: Option<(char, string)>)
    ensures r.Some? ==> |r.value.1| <= |s| - 4
  {
    match ParseHex4(s)
    case None => None
    case Some(u) =>
      if 0xD800 <= u < 0xDC00 then
        if |s| >= 10 && s[4] == '\\' && s[5] == 'u' then
          match ParseHex4(s[6..])
          case Some(lo) =>
            if 0xDC00 <= lo < 0xE000 then
              Some(((0x10000 + (u - 0xD800) * 0x400 + (lo - 0xDC00)) as char, s[10..]))
            else None
          case None => None
        else None
      else if 0xDC00 <= u < 0xE000 then None
      else Some((u as char, s[4..]))
  }

  /** The character a backslash and one letter stand for. */
  function ShortEscape(e: char): Option<char> {
    if e == '"' || e == '\\' || e == '/' then Some(e)
    else if e == 'b' then Some(0x08 as char)
    else if e == 'f' then Some(0x0C as char)
    else if e == 'n' then Some('\n')
    else if e == 'r' then Some('\r')
    else if e == 't' then Some('\t')
    else None
  }

  /**
   * Reads the body of a JSON string up to its closing quote, giving the
   * decoded text and what follows the quote.
   */
  function ParseStringBody(t: string): Option<(string, string)>
    decreases |t|
  {
    if t == [] then None
    else if t[0] == '"' then Some(([], t[1..]))
    else if t[0] == '\\' then
      if |t| < 2 then None
      else if t[1] == 'u' then
        match ParseUnicode(t[2..])
        case None => None
        case Some((c, rest)) => Prepend(c, ParseStringBody(rest))
      else
        match ShortEscape(t[1])
        case None => None
        case Some(c) => Prepend(c, ParseStringBody(t[2..]))
    else if t[0] as int < 0x20 then None
    else Prepend(t[0], ParseStringBody(t[1..]))
  }

  function ParseString(t: string): Option<(string, string)> {
    if t != [] && t[0] == '"' then ParseStringBody(t[1..]) else None
  }

  /** Strips the literal `lit` from the front of `t`. */
  function Consume(lit: string, t: string): (r: Option<string>)
    ensures r.Some? ==> t == lit + r.value
  {
    if |lit| <= |t| && t[..|lit|] == lit then Some(t[|lit|..]) else None
  }

  /** Reads the pin record back from its JSON text. */
  function DecodeStatus(t: string): Option<PinStatus> {
    match Consume("{\"pin\":", t)
    case None => None
    case Some(t1) =>
      match ParseString(t1)
      case None => None
      case Some((pin, t2)) =>
        match Consume(",\"initialized\":", t2)
        case None => None
        case Some(t3) =>
          match DecodeState(t3)
          case None => None
          case Some(s) => Some(PinStatus(pin, s))
  }

  function DecodeState(t: string): Option<PinState> {
    if t == BoolText(false) + "}" then Some(Uninitialized)
    else
      match Consume(BoolText(true) + ",\"direction\":", t)
      case None => None
      case Some(t1) => DecodeReadings(t1)
  }

  /** Reads `direction` and `value` of an initialized pin and the closing brace. */
  function DecodeReadings(t: string): Option<PinState> {
    match ParseString(t)
    case None => None
    case Some((d, t1)) =>
      match Consume(",\"value\":", t1)
      case None => None
      case Some(t2) =>
        match ParseString(t2)
        case None => None
        case Some((v, t3)) =>
          if t3 != "}" then None
          else
            match DecodeLevel(v)
            case None => None
            case Some(l) => Some(Initialized(d, l))
  }

  function DecodeLevel(v: string): Option<Level> {
    if v == LevelText(High) then Some(High)
    else if v == LevelText(Low) then Some(Low)
    else None
  }

  // Round trip.

  lemma ConsumeLiteral(lit: string, rest: string)
    ensures Consume(lit, lit + rest) == Some(rest)
  {
    assert (lit + rest)[..|lit|] == lit;
  }

  /** Decoding one escaped character gives the character back. */
  lemma EscapeCharRoundTrip(c: char, rest: string)
    ensures ParseStringBody(EscapeChar(c) + rest) == Prepend(c, ParseStringBody(rest))
  {
    var n := c as int;
    if ShortEscapeOf(c).Some? {
      ShortEscapeRoundTrip(c, rest);
    } else if n < 0x20 || 0x80 <= n < 0x10000 {
      UnicodeEscapeRoundTrip(c, rest);
    } else if n < 0x80 {
      var t := EscapeChar(c) + rest;
      assert t[0] == c && t[1..] == rest;
    } else {
      SurrogatePairRoundTrip(c, rest);
    }
  }

  lemma ShortEscapeRoundTrip(c: char, rest: string)
    requires ShortEscapeOf(c).Some?
    ensures ParseStringBody(EscapeChar(c) + rest) == Prepend(c, ParseStringBody(rest))
  {
    var t := EscapeChar(c) + rest;
    assert t[0] == '\\' && t[1] == ShortEscapeOf(c).value && t[2..] == rest;
    assert ShortEscape(t[1]) == Some(c);
  }

  lemma UnicodeEscapeRoundTrip(c: char, rest: string)
    requires ShortEscapeOf(c).None?
    requires c as int < 0x20 || 0x80 <= c as int < 0x10000
    ensures ParseStringBody(EscapeChar(c) + rest) == Prepend(c, ParseStringBody(rest))
  {
    var n := c as int;
    var t := EscapeChar(c) + rest;
    assert t == "\\u" + (Hex4(n) + rest);
    assert t[2..] == Hex4(n) + rest;
    Hex4RoundTrip(n, rest);
    assert (Hex4(n) + rest)[4..] == rest;
    assert ParseUnicode(t[2..]) == Some((c, rest));
  }

  /** The escapes of a high and a low surrogate read back as the character they encode. */
  lemma SurrogateEscapes(hi: nat, lo: nat, c: char, rest: string)
    requires 0xD800 <= hi < 0xDC00 && 0xDC00 <= lo < 0xE000
    requires c as int == 0x10000 + (hi - 0xD800) * 0x400 + (lo - 0xDC00)
    ensures ParseUnicode(Hex4(hi) + ("\\u" + (Hex4(lo) + rest))) == Some((c, rest))
  {
    var s := Hex4(hi) + ("\\u" + (Hex4(lo) + rest));
    Hex4RoundTrip(hi, "\\u" + (Hex4(lo) + rest));
    assert s[4] == '\\' && s[5] == 'u';
    assert s[6..] == Hex4(lo) + rest;
    Hex4RoundTrip(lo, rest);
    assert s[10..] == rest;
    UnicodePair(s, hi, lo, c);
  }

  /** Two `\u` escapes holding a high and then a low surrogate decode to one character. */
  lemma UnicodePair(s: string, hi: nat, lo: nat, c: char)
    requires ParseHex4(s) == Some(hi) && 0xD800 <= hi < 0xDC00
    requires |s| >= 10 && s[4] == '\\' && s[5] == 'u'
    requires ParseHex4(s[6..]) == Some(lo) && 0xDC00 <= lo < 0xE000
    requires c as int == 0x10000 + (hi - 0xD800) * 0x400 + (lo - 0xDC00)
    ensures ParseUnicode(s) == Some((c, s[10..]))
  {
  }

  /** A `\u` escape, once its digits are read as `c`, decodes like `c` itself. */
  lemma UnicodeEscapeStep(t: string, c: char, rest: string)
    requires |t| >= 2 && t[0] == '\\' && t[1] == 'u'
    requires ParseUnicode(t[2..]) == Some((c, rest))
    ensures ParseStringBody(t) == Prepend(c, ParseStringBody(rest))
  {
  }

  /** The surrogate pair written for a character above U+FFFF reads back as that character. */
  lemma SurrogatePairDigits(c: char, rest: string)
    requires c as int >= 0x10000
    ensures ParseUnicode(Hex4(HighSurrogate(c)) + ("\\u" + (Hex4(LowSurrogate(c)) + rest))) == Some((c, rest))
  {
    SurrogatePairEscape(c);
    SurrogateEscapes(HighSurrogate(c), LowSurrogate(c), c, rest);
  }

  /**
   * Above U+FFFF the escape is two `\u` escapes: a high surrogate, then a
   * low one, which together give back the character's code point.
   */
  lemma SurrogatePairEscape(c: char)
    requires c as int >= 0x10000
    ensures EscapeChar(c) == "\\u" + Hex4(HighSurrogate(c)) + "\\u" + Hex4(LowSurrogate(c))
    ensures 0xD800 <= HighSurrogate(c) < 0xDC00 && 0xDC00 <= LowSurrogate(c) < 0xE000
    ensures 0x10000 + (HighSurrogate(c) - 0xD800) * 0x400 + (LowSurrogate(c) - 0xDC00) == c as int
  {
    assert ShortEscapeOf(c) == None;
  }

  /** Two `\u` escapes whose digits read back as `c` decode like `c` itself. */
  lemma UnicodePairStep(hi: string, lo: string, c: char, rest: string)
    requires ParseUnicode(hi + ("\\u" + (lo + rest))) == Some((c, rest))
    ensures ParseStringBody("\\u" + hi + "\\u" + lo + rest) == Prepend(c, ParseStringBody(rest))
  {
    var s := hi + ("\\u" + (lo + rest));
    Regroup("\\u", hi, "\\u", lo, rest);
    assert ("\\u" + s)[2..] == s;
    UnicodeEscapeStep("\\u" + s, c, rest);
  }

  lemma Regroup(a: string, b: string, c: string, d: string, e: string)
    ensures a + b + c + d + e == a + (b + (c + (d + e)))
  {
  }

  lemma SurrogatePairRoundTrip(c: char, rest: string)
    requires c as int >= 0x10000
    ensures ParseStringBody(EscapeChar(c) + rest) == Prepend(c, ParseStringBody(rest))
  {
    SurrogatePairEscape(c);
    SurrogatePairDigits(c, rest);
    UnicodePairStep(Hex4(HighSurrogate(c)), Hex4(LowSurrogate(c)), c, rest);
  }

  /** Decoding an escaped string up to its closing quote gives the string back. */
  lemma {:induction false} EscapeRoundTrip(s: string, rest: string)
    ensures ParseStringBody(Escape(s) + "\"" + rest) == Some((s, rest))
    decreases |s|
  {
    if s == [] {
      assert Escape(s) + "\"" + rest == "\"" + rest;
    } else {
      assert Escape(s) + "\"" + rest == EscapeChar(s[0]) + (Escape(s[1..]) + "\"" + rest);
      EscapeCharRoundTrip(s[0], Escape(s[1..]) + "\"" + rest);
      EscapeRoundTrip(s[1..], rest);
      assert [s[0]] + s[1..] == s;
    }
  }

  /** Decoding a quoted string gives the string back and leaves what follows. */
  lemma QuoteRoundTrip(s: string, rest: string)
    ensures ParseString(Quote(s) + rest) == Some((s, rest))
  {
    assert Quote(s) + rest == "\"" + (Escape(s) + "\"" + rest);
    EscapeRoundTrip(s, rest);
  }

  /** The pin and the `initialized` key are read back, the rest is left to the state. */
  lemma DecodeFields(pin: string, tail: string)
    ensures DecodeStatus("{\"pin\":" + (Quote(pin) + (",\"initialized\":" + tail)))
         == match DecodeState(tail) case None => None case Some(s) => Some(PinStatus(pin, s))
  {
    var after := ",\"initialized\":" + tail;
    ConsumeLiteral("{\"pin\":", Quote(pin) + after);
    QuoteRoundTrip(pin, after);
    ConsumeLiteral(",\"initialized\":", tail);
  }

  lemma ReadingsRoundTrip(d: string, v: Level)
    ensures DecodeReadings(Quote(d) + ",\"value\":" + Quote(LevelText(v)) + "}") == Some(Initialized(d, v))
  {
    var last := ",\"value\":" + Quote(LevelText(v)) + "}";
    assert Quote(d) + ",\"value\":" + Quote(LevelText(v)) + "}" == Quote(d) + last;
    QuoteRoundTrip(d, last);
    assert last == ",\"value\":" + (Quote(LevelText(v)) + "}");
    ConsumeLiteral(",\"value\":", Quote(LevelText(v)) + "}");
    QuoteRoundTrip(LevelText(v), "}");
    assert DecodeLevel(LevelText(v)) == Some(v);
  }

  lemma AsciiAppend(a: string, b: string)
    requires IsAscii(a) && IsAscii(b)
    ensures IsAscii(a + b)
  {
    assert forall k :: 0 <= k < |a + b| ==> (a + b)[k] == if k < |a| then a[k] else b[k - |a|];
  }

  /** The JSON text is pure ASCII, so its byte length is its length. */
  lemma EncodeIsAscii(st: PinStatus)
    ensures IsAscii(EncodeStatus(st))
    ensures Utf8Length(EncodeStatus(st)) == |EncodeStatus(st)|
  {
    StateIsAscii(st.state);
    FieldsAscii(st.pin, EncodeState(st.state));
    Utf8LengthBounds(EncodeStatus(st));
  }

  /** The record's text around its fields is ASCII when the fields are. */
  lemma FieldsAscii(pin: string, tail: string)
    requires IsAscii(tail)
    ensures IsAscii("{\"pin\":" + (Quote(pin) + (",\"initialized\":" + tail)))
  {
    KeysAscii();
    AsciiAppend(",\"initialized\":", tail);
    AsciiAppend(Quote(pin), ",\"initialized\":" + tail);
    AsciiAppend("{\"pin\":", Quote(pin) + (",\"initialized\":" + tail));
  }

  lemma KeysAscii()
    ensures IsAscii("{\"pin\":") && IsAscii(",\"initialized\":")
  {
  }

  lemma StateIsAscii(s: PinState)
    ensures IsAscii(EncodeState(s))
  {
    match s
    case Uninitialized =>
      assert IsAscii(BoolText(false) + "}");
    case Initialized(d, v) =>
      var rest := Quote(d) + ",\"value\":" + Quote(LevelText(v)) + "}";
      assert EncodeState(s) == BoolText(true) + ",\"direction\":" + rest;
      ReadingsAscii(d, v);
      HeadAscii();
      AsciiAppend(BoolText(true) + ",\"direction\":", rest);
  }

  lemma ReadingsAscii(d: string, v: Level)
    ensures IsAscii(Quote(d) + ",\"value\":" + Quote(LevelText(v)) + "}")
  {
    AsciiAppend(Quote(d), ",\"value\":");
    AsciiAppend(Quote(d) + ",\"value\":", Quote(LevelText(v)));
    AsciiAppend(Quote(d) + ",\"value\":" + Quote(LevelText(v)), "}");
  }

  lemma HeadAscii()
    ensures IsAscii(BoolText(true) + ",\"direction\":")
  {
    AsciiAppend(BoolText(true), ",\"direction\":");
  }
}
