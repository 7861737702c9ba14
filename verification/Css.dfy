/** The printer and the parser of the emitted `oklch(L C H)` strings. */
module Css {
  import opened BrandGrid
  import opened Colour
  import opened Decimal
  import opened Options
  import opened Rounding
  import opened Text

  // ---------------------------------------------------------------------------
  // The printer
  // ---------------------------------------------------------------------------

  // `f"{x:.2f}"` of a number of hundredths.
  function FormatHundredths(n: int): string {
    var magnitude := if n < 0 then -n else n;
    (if n < 0 then "-" else "")
    + Digits(magnitude / 100) + "." + [DigitChar(magnitude / 10 % 10), DigitChar(magnitude % 10)]
  }

  function FormatOklch(g: Grid): string {
    "oklch(" + (FormatHundredths(g.lightness) + (" " + (FormatHundredths(g.chroma)
    + (" " + (FormatHundredths(g.hue) + ")")))))
  }

  // ---------------------------------------------------------------------------
  // The parser
  // ---------------------------------------------------------------------------

  // How many characters of `\d*` match at the front.
  function DigitSpan(s: string): (n: nat)
    ensures n <= |s| && AllDigits(s[..n])
    ensures n < |s| ==> !IsDigit(s[n])
  {
    if s != [] && IsDigit(s[0]) then 1 + DigitSpan(s[1..]) else 0
  }

  datatype Parsed = NoMatch | Match(value: real, rest: string)

  // The value of digits after a decimal point.
  function Fraction(digits: string): real
    requires AllDigits(digits)
  {
    Pow10Positive(|digits|);
    Value(digits) as real / Pow10(|digits|) as real
  }

  // `(\.\d+)?` after the digits of `value`.
  function ParseFraction(value: real, s: string): Parsed {
    var digits := if s != [] && s[0] == '.' then DigitSpan(s[1..]) else 0;
    if digits == 0 then Match(value, s)
    else Match(value + Fraction(s[1..][..digits]), s[1..][digits..])
  }

  // `\d+(\.\d+)?` at the front of the string.
  function ParseUnsigned(s: string): Parsed {
    var digits := DigitSpan(s);
    if digits == 0 then NoMatch else ParseFraction(Value(s[..digits]) as real, s[digits..])
  }

  // `-?\d+(\.\d+)?` at the front of the string.
  function ParseNumber(s: string): Parsed {
    if s != [] && s[0] == '-' then
      match ParseUnsigned(s[1..])
      case NoMatch => NoMatch
      case Match(value, rest) => Match(-value, rest)
    else ParseUnsigned(s)
  }

  // `\s+` and then a number.
  function ParseSpacedNumber(s: string): Parsed {
    if s != [] && IsSpace(s[0]) then ParseNumber(SkipSpaces(s)) else NoMatch
  }

  function AfterPrefix(s: string): Option<string> {
    if "oklch(" <= s then Some(s[6..]) else None
  }

  // The pattern is deterministic: each repetition is followed by a character it cannot
  // itself match, so matching as much as possible never has to be undone.
  function ParseOklch(text: string): Option<Oklch> {
    match AfterPrefix(Strip(text))
    case None => None
    case Some(body) =>
      match ParseNumber(SkipSpaces(body))
      case NoMatch => None
      case Match(lightness, rest) =>
        match ParseSpacedNumber(rest)
        case NoMatch => None
        case Match(chroma, rest) =>
          match ParseSpacedNumber(rest)
          case NoMatch => None
          case Match(hue, rest) =>
            if SkipSpaces(rest) == ")" then Some(Oklch(lightness, chroma, hue)) else None
  }

  // ---------------------------------------------------------------------------
  // Round trip
  // ---------------------------------------------------------------------------

  lemma {:induction false} DigitSpanOfPrefix(digits: string, rest: string)
    requires AllDigits(digits) && (rest == [] || !IsDigit(rest[0]))
    ensures DigitSpan(digits + rest) == |digits|
  {
    if digits == [] {
      assert digits + rest == rest;
    } else {
      assert (digits + rest)[1..] == digits[1..] + rest;
      DigitSpanOfPrefix(digits[1..], rest);
    }
  }

  lemma TwoDigits(n: nat)
    requires n < 100
    ensures var s := [DigitChar(n / 10), DigitChar(n % 10)]; AllDigits(s) && Value(s) == n
  {
    var s := [DigitChar(n / 10), DigitChar(n % 10)];
    assert s[..1] == [DigitChar(n / 10)];
    assert s[..1][..0] == [];
    assert Value(s[..1]) == n / 10;
  }

  lemma ParseCents(value: real, cents: string, rest: string)
    requires AllDigits(cents) && cents != [] && rest != [] && !IsDigit(rest[0])
    ensures ParseFraction(value, "." + (cents + rest)) == Match(value + Fraction(cents), rest)
  {
    DigitSpanOfPrefix(cents, rest);
    hide Fraction, DigitSpan, AllDigits;
    assert ("." + (cents + rest))[1..] == cents + rest;
    assert (cents + rest)[..|cents|] == cents && (cents + rest)[|cents|..] == rest;
  }

  lemma ParseDecimal(whole: string, cents: string, rest: string)
    requires AllDigits(whole) && whole != [] && AllDigits(cents) && cents != []
    requires rest != [] && !IsDigit(rest[0])
    ensures ParseUnsigned(whole + ("." + (cents + rest))) == Match(Value(whole) as real + Fraction(cents), rest)
  {
    var tail := "." + (cents + rest);
    ParseCents(Value(whole) as real, cents, rest);
    DigitSpanOfPrefix(whole, tail);
    hide Value, Fraction, ParseFraction, DigitSpan, AllDigits;
    assert (whole + tail)[..|whole|] == whole && (whole + tail)[|whole|..] == tail;
  }

  lemma HundredthsOfParts(n: int, whole: int, rest: int)
    requires n == 100 * whole + rest
    ensures whole as real + rest as real / 100.0 == Hundredths(n)
  {
  }

  lemma LastDigits(n: nat)
    ensures n / 10 % 10 == n % 100 / 10 && n % 10 == n % 100 % 10
  {
    var hundreds, tens, units := n / 100, n % 100 / 10, n % 100 % 10;
    assert n == 10 * (10 * hundreds + tens) + units;
    assert n / 10 == 10 * hundreds + tens;
  }

  lemma HundredthsSplit(n: nat)
    ensures (n / 100) as real + (n % 100) as real / 100.0 == Hundredths(n)
    ensures n / 10 % 10 == n % 100 / 10 && n % 10 == n % 100 % 10
  {
    hide Hundredths;
    LastDigits(n);
    HundredthsOfParts(n, n / 100, n % 100);
  }

  lemma UnsignedRoundTrip(n: nat, rest: string)
    requires rest != [] && !IsDigit(rest[0])
    ensures ParseUnsigned(FormatHundredths(n) + rest) == Match(Hundredths(n), rest)
    ensures FormatHundredths(n) != [] && IsDigit(FormatHundredths(n)[0])
  {
    hide ParseUnsigned, Digits, Value;
    var whole, cents := Digits(n / 100), [DigitChar(n % 100 / 10), DigitChar(n % 100 % 10)];
    DigitsSpellTheNumber(n / 100);
    TwoDigits(n % 100);
    HundredthsSplit(n);
    assert Pow10(2) == 100 by { assert Pow10(1) == 10; }
    assert Fraction(cents) == (n % 100) as real / 100.0;
    hide Fraction;
    ParseDecimal(whole, cents, rest);
    assert FormatHundredths(n) + rest == whole + ("." + (cents + rest));
    assert FormatHundredths(n)[0] == whole[0];
  }

  lemma NumberRoundTrip(n: int, rest: string)
    requires rest != [] && !IsDigit(rest[0])
    ensures ParseNumber(FormatHundredths(n) + rest) == Match(Hundredths(n), rest)
    ensures FormatHundredths(n) != [] && !IsSpace(FormatHundredths(n)[0])
  {
    hide ParseUnsigned, Digits;
    var magnitude := if n < 0 then -n else n;
    var printed := FormatHundredths(magnitude);
    UnsignedRoundTrip(magnitude, rest);
    assert (printed + rest)[0] == printed[0];
    if n < 0 {
      assert FormatHundredths(n) == "-" + printed;
      assert FormatHundredths(n) + rest == "-" + (printed + rest);
      assert (FormatHundredths(n) + rest)[1..] == printed + rest;
    }
  }

  lemma SpacedNumberRoundTrip(n: int, rest: string)
    requires rest != [] && !IsDigit(rest[0])
    ensures ParseSpacedNumber(" " + (FormatHundredths(n) + rest)) == Match(Hundredths(n), rest)
  {
    NumberRoundTrip(n, rest);
    hide ParseNumber, FormatHundredths;
    var s := FormatHundredths(n) + rest;
    assert (" " + s)[1..] == s;
    assert s[0] == FormatHundredths(n)[0];
    assert SkipSpaces(s) == s;
    assert SkipSpaces(" " + s) == s;
  }

  /** Parser and printer undo each other: every colour of the grid, negative components
      included, is read back exactly. */
  lemma OklchRoundTrip(g: Grid)
    ensures ParseOklch(FormatOklch(g)) == Some(g.Exact())
  {
    hide ParseNumber, ParseSpacedNumber, FormatHundredths;
    var hue := FormatHundredths(g.hue) + ")";
    var chroma := FormatHundredths(g.chroma) + (" " + hue);
    var body := FormatHundredths(g.lightness) + (" " + chroma);
    var text := FormatOklch(g);
    assert text == "oklch(" + body;
    assert SkipSpaces(text) == text by { assert text[0] == 'o'; }
    assert DropTrailingSpaces(text) == text by {
      assert hue[|hue| - 1] == ')' && text[|text| - 1] == hue[|hue| - 1];
    }
    assert text[6..] == body;
    NumberRoundTrip(g.lightness, " " + chroma);
    assert SkipSpaces(body) == body by { assert body[0] == FormatHundredths(g.lightness)[0]; }
    SpacedNumberRoundTrip(g.chroma, " " + hue);
    SpacedNumberRoundTrip(g.hue, ")");
  }
}
