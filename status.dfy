/**
 * The pin status record the server reports, and the two small conversions
 * around it: the action word of a pin-set route and the digit written to
 * the pin's `value` file, and the lenient reading of that file back.
 */
module Status {
  import opened Wrappers
  import opened Text
  import opened Numeric

  /** The state word of a pin: the `high|low` of a route and the reported `value`. */
  datatype Level = High | Low

  /** The word as it appears in a route and in the JSON record. */
  function LevelText(l: Level): (s: string)
    ensures s == "high" || s == "low"
  {
    match l
    case High => "high"
    case Low => "low"
  }

  /** What a pin-set writes to the `value` file: `0` for `low`, `1` otherwise. */
  function LevelDigit(l: Level): (s: string)
    ensures s == "0" || s == "1"
    ensures s[0] == '1' <==> l == High
  {
    match l
    case Low => "0"
    case High => assert "1"[0] == '1'; "1"
  }

  /**
   * The reported value of a pin, read from the raw contents of its `value`
   * file: `high` exactly when the trimmed contents are a numeric string
   * whose value is one, which is when they `==` the string `1` in PHP's
   * loose sense (`ValueLevelHigh`), so also `01`, `1.0`, `+1` or `1e0`;
   * `low` for every other content, including `0`, the empty string and
   * garbage.
   */
  function ValueLevel(raw: string): (l: Level)
    ensures Trim(raw) == "1" ==> l == High
    ensures Trim(raw) == "0" || Trim(raw) == "" ==> l == Low
  {
    NumberOfOne();
    EmptyNotNumber();
    if NumericOne(Trim(raw)) then High else Low
  }

  /** Whether the pin's directory exists, and what was read back if it does. */
  datatype PinState = Uninitialized | Initialized(direction: string, value: Level)

  /**
   * The record returned for a pin route. The pin is the digit string taken
   * from the path, never converted to a number, so leading zeros survive.
   */
  datatype PinStatus = PinStatus(pin: string, state: PinState)

  /** The value is `high` exactly when the trimmed contents `==` the string `1` in PHP. */
  lemma ValueLevelHigh(raw: string)
    ensures ValueLevel(raw) == High <==> LooseEquals(Trim(raw), "1")
  {
    LooseEqualsOne(Trim(raw));
  }

  /** A single `1` with only trim characters around it reads as `high`. */
  lemma ValueLevelPaddedOne(raw: string, i: nat)
    requires i < |raw| && raw[i] == '1'
    requires AllTrimChars(raw[..i]) && AllTrimChars(raw[i + 1..])
    ensures ValueLevel(raw) == High
  {
    assert raw == raw[..i] + "1" + raw[i + 1..];
    TrimPadded(raw[..i], "1", raw[i + 1..]);
  }

  /** Contents other than the text `1` that still read as `high`. */
  lemma ValueLevelLooseHigh()
    ensures ValueLevel("01\n") == High && ValueLevel("1.0") == High
  {
    TrimPadded("", "01", "\n");
    assert "" + "01" + "\n" == "01\n";
    assert ParseDecimal("01") == Some(1);
    DigitsOne("01");
    HighFraction();
  }

  lemma HighFraction()
    ensures ValueLevel("1.0") == High
  {
    TrimFixed("1.0");
    assert "1" + "." + "0" == "1.0" && "1" + "0" == "10";
    assert ParseDecimal("10") == Some(10);
    FractionOne("1", "0");
  }

  /** Numeric contents whose value is not one read as `low`. */
  lemma ValueLevelNumericLow()
    ensures ValueLevel("-1") == Low && ValueLevel("2") == Low
  {
    TrimFixed("2");
    assert ParseDecimal("2") == Some(2);
    DigitsOne("2");
    TrimFixed("-1");
    assert SkipSpace("-1") == "-1";
    NegativeNotOne("-1");
  }

  /**
   * Writing a level's digit to `value` and reading it back gives that level,
   * also when the file adds the trailing newline sysfs attributes carry.
   */
  lemma ValueLevelOfDigit(l: Level)
    ensures ValueLevel(LevelDigit(l)) == l
    ensures ValueLevel(LevelDigit(l) + "\n") == l
  {
    match l
    case Low => DigitTrims("0");
    case High => DigitTrims("1");
  }

  /** A single digit, alone or followed by a newline, trims to itself. */
  lemma DigitTrims(d: string)
    requires |d| == 1 && IsDigit(d[0])
    ensures Trim(d) == d && Trim(d + "\n") == d
  {
    TrimFixed(d);
    TrimPadded("", d, "\n");
    assert "" + d + "\n" == d + "\n";
  }
}
