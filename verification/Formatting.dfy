/** The append functions that the formatters share, and the strings they append. */
module Formatting {
  import opened Basics
  import opened Records
  import opened Decimal

  // ----- Escaping

  function HexDigit(d: nat): char
    requires d < 16
  {
    "0123456789abcdef"[d]
  }

  function HexByte(value: nat): string
    requires value < 256
  {
    [HexDigit(value / 16), HexDigit(value % 16)]
  }

  function EscapedChar(c: char): string {
    if c == '\\' then "\\\\"
    else if c == '\n' then "\\n"
    else if c == '\r' then "\\r"
    else if c == '\t' then "\\t"
    else if c == '\"' then "\\\""
    else if c as nat < 0x20 then "\\x" + HexByte(c as nat)
    else [c]
  }

  function JsonEscapedChar(c: char): string {
    if c == '\\' then "\\\\"
    else if c == '\"' then "\\\""
    else if c as nat == 8 then "\\b"
    else if c as nat == 12 then "\\f"
    else if c == '\n' then "\\n"
    else if c == '\r' then "\\r"
    else if c == '\t' then "\\t"
    else if c as nat < 0x20 then "\\u00" + HexByte(c as nat)
    else [c]
  }

  /** Every character replaced by its image. */
  function Mapped(image: char -> string, text: string): string {
    if text == "" then "" else Mapped(image, text[..|text| - 1]) + image(text[|text| - 1])
  }

  lemma {:induction false} MappedConcat(image: char -> string, a: string, b: string)
    ensures Mapped(image, a + b) == Mapped(image, a) + Mapped(image, b)
  {
    if b == "" {
      assert a + b == a;
    } else {
      MappedConcat(image, a, b[..|b| - 1]);
      assert (a + b)[..|a + b| - 1] == a + b[..|b| - 1];
    }
  }

  lemma MappedFront(image: char -> string, c: char, text: string)
    ensures Mapped(image, [c] + text) == image(c) + Mapped(image, text)
  {
    MappedConcat(image, [c], text);
    assert [c][..0] == "";
  }

  lemma {:induction false} MappedStays(image: char -> string, text: string)
    requires forall i :: 0 <= i < |text| ==> image(text[i]) == [text[i]]
    ensures Mapped(image, text) == text
  {
    if text != "" { MappedStays(image, text[..|text| - 1]); }
  }

  function Escaped(text: string): string { Mapped(EscapedChar, text) }

  function JsonEscaped(text: string): string { Mapped(JsonEscapedChar, text) }

  predicate IsPlain(c: char) { c as nat >= 0x20 && c != '\\' && c != '\"' }

  lemma PlainStays(text: string)
    requires forall i :: 0 <= i < |text| ==> IsPlain(text[i])
    ensures Escaped(text) == text && JsonEscaped(text) == text
  {
    forall i | 0 <= i < |text| ensures EscapedChar(text[i]) == [text[i]] && JsonEscapedChar(text[i]) == [text[i]] {
      assert IsPlain(text[i]);
    }
    MappedStays(EscapedChar, text);
    MappedStays(JsonEscapedChar, text);
  }

  /** The characters that have a short escape in both kinds of text, those that have one in JSON only, the other
      control characters, and all the rest. */
  lemma {:induction false} EscapesAre(c: char)
    ensures Escaped("\\") == JsonEscaped("\\") == "\\\\" && Escaped("\"") == JsonEscaped("\"") == "\\\""
    ensures Escaped("\n") == JsonEscaped("\n") == "\\n" && Escaped("\r") == JsonEscaped("\r") == "\\r"
    ensures Escaped("\t") == JsonEscaped("\t") == "\\t"
    ensures c as nat == 8 ==> JsonEscaped([c]) == "\\b"
    ensures c as nat == 12 ==> JsonEscaped([c]) == "\\f"
    ensures c as nat == 27 ==> Escaped([c]) == "\\x1b" && JsonEscaped([c]) == "\\u001b"
    ensures IsPlain(c) ==> Escaped([c]) == JsonEscaped([c]) == [c]
  {
    OneCharacter('\\');
    OneCharacter('\"');
    OneCharacter('\n');
    OneCharacter('\r');
    OneCharacter('\t');
    OneCharacter(c);
  }

  lemma OneCharacter(c: char)
    ensures Escaped([c]) == EscapedChar(c) && JsonEscaped([c]) == JsonEscapedChar(c)
  {
    assert [c][..0] == "";
    assert Mapped(EscapedChar, [c]) == "" + EscapedChar(c) && Mapped(JsonEscapedChar, [c]) == "" + JsonEscapedChar(c);
  }

  // ----- Undoing the text escape

  function HexValue(c: char): Option<nat> {
    if '0' <= c <= '9' then Some(c as nat - '0' as nat)
    else if 'a' <= c <= 'f' then Some(c as nat - 'a' as nat + 10)
    else None
  }

  lemma HexDigitValue(d: nat)
    requires d < 16
    ensures HexValue(HexDigit(d)) == Some(d)
  {
  }

  function Prepend(c: char, r: Option<string>): Option<string> {
    if r.Some? then Some([c] + r.value) else None
  }

  /** The inverse of Escaped: None if the input is not an escaped text. */
  function Unescaped(s: string): Option<string>
    decreases |s|
  {
    if s == "" then Some("")
    else if s[0] != '\\' then
      if IsPlain(s[0]) then Prepend(s[0], Unescaped(s[1..])) else None
    else if |s| < 2 then None
    else match s[1]
      case '\\' => Prepend('\\', Unescaped(s[2..]))
      case 'n' => Prepend('\n', Unescaped(s[2..]))
      case 'r' => Prepend('\r', Unescaped(s[2..]))
      case 't' => Prepend('\t', Unescaped(s[2..]))
      case '\"' => Prepend('\"', Unescaped(s[2..]))
      case 'x' =>
        if |s| < 4 || HexValue(s[2]).None? || HexValue(s[3]).None? then None
        else Prepend((HexValue(s[2]).value * 16 + HexValue(s[3]).value) as char, Unescaped(s[4..]))
      case _ => None
  }

  lemma UnescapedChar(c: char, rest: string)
    ensures Unescaped(EscapedChar(c) + rest) == Prepend(c, Unescaped(rest))
  {
    var s := EscapedChar(c) + rest;
    assert s[|EscapedChar(c)|..] == rest;
    if |EscapedChar(c)| == 4 {
      HexDigitValue(c as nat / 16);
      HexDigitValue(c as nat % 16);
      assert s[2] == HexDigit(c as nat / 16) && s[3] == HexDigit(c as nat % 16);
    }
  }

  /** The text escape loses nothing. */
  lemma {:induction false} UnescapeEscape(text: string)
    ensures Unescaped(Escaped(text)) == Some(text)
  {
    if text != "" {
      assert text == [text[0]] + text[1..];
      MappedFront(EscapedChar, text[0], text[1..]);
      UnescapedChar(text[0], Escaped(text[1..]));
      UnescapeEscape(text[1..]);
    }
  }

  // ----- Timestamps

  datatype TimestampStyle = EpochNanoseconds | EpochMilliseconds | Iso8601Utc | Iso8601Local

  datatype TimeParts = TimeParts(prefix: string, suffix: string)

  /** The calendar: date and time of a second up to the fraction, and the zone behind it. */
  type Calendar = (TimestampStyle, nat) -> TimeParts

  predicate IsIso(style: TimestampStyle) { style.Iso8601Utc? || style.Iso8601Local? }

  const BILLION := 1_000_000_000

  lemma BillionIsPow10()
    ensures Pow10(9) == BILLION
  {
    assert Pow10(3) == 1000 && Pow10(5) == 100 * Pow10(3) && Pow10(7) == 100 * Pow10(5) && Pow10(9) == 100 * Pow10(7);
  }

  function PartsOf(calendar: Calendar, style: TimestampStyle, second: nat): TimeParts {
    if IsIso(style) then calendar(style, second) else TimeParts("", "")
  }

  /** The fraction of a second, padded with zeros to nine digits. */
  function Fraction(nanoseconds: nat): string {
    var digits := Dec(nanoseconds);
    seq(9 - Min(|digits|, 9), i => '0') + digits
  }

  /** What a formatter that caches nothing prints. */
  function TimestampText(calendar: Calendar, style: TimestampStyle, timestamp: nat): string {
    match style
    case EpochNanoseconds => Dec(timestamp)
    case EpochMilliseconds => Dec(timestamp / 1_000_000)
    case _ =>
      var parts := PartsOf(calendar, style, timestamp / BILLION);
      parts.prefix + "." + Fraction(timestamp % BILLION) + parts.suffix
  }

  /** An ISO fraction has nine digits, and with the seconds it gives the timestamp back. */
  lemma FractionIsExact(timestamp: nat)
    ensures var fraction := Fraction(timestamp % BILLION);
      && |fraction| == 9 && AllDigits(fraction)
      && (timestamp / BILLION) * BILLION + NumberOf(fraction) == timestamp
  {
    var nanoseconds := timestamp % BILLION;
    var digits := Dec(nanoseconds);
    BillionIsPow10();
    DecLength(nanoseconds, 9);
    LeadingZeros(9 - |digits|, digits);
    NumberOfDec(nanoseconds);
  }

  /** A timestamp as it is read back: in an epoch style the text is the numeral of its nanoseconds or of its whole
      milliseconds; in an ISO style it is what the calendar says of a second, a dot, nine digits and the zone, and
      the second and the digits together are the timestamp. */
  ghost predicate TimestampTold(calendar: Calendar, style: TimestampStyle, timestamp: nat, text: string) {
    match style
    case EpochNanoseconds => AllDigits(text) && NumberOf(text) == timestamp
    case EpochMilliseconds =>
      AllDigits(text) && NumberOf(text) * 1_000_000 <= timestamp < (NumberOf(text) + 1) * 1_000_000
    case _ => exists second: nat, digits :: IsoTold(calendar, style, timestamp, text, second, digits)
  }

  ghost predicate IsoTold(calendar: Calendar, style: TimestampStyle, timestamp: nat, text: string,
                          second: nat, digits: string) {
    && |digits| == 9 && AllDigits(digits) && second * BILLION + NumberOf(digits) == timestamp
    && text == calendar(style, second).prefix + "." + digits + calendar(style, second).suffix
  }

  lemma {:induction false} TimestampExactly(calendar: Calendar, style: TimestampStyle, timestamp: nat)
    ensures TimestampTold(calendar, style, timestamp, TimestampText(calendar, style, timestamp))
  {
    match style {
      case EpochNanoseconds => NumberOfDec(timestamp);
      case EpochMilliseconds => NumberOfDec(timestamp / 1_000_000);
      case _ =>
        FractionIsExact(timestamp);
        assert IsoTold(calendar, style, timestamp, TimestampText(calendar, style, timestamp),
                       timestamp / BILLION, Fraction(timestamp % BILLION));
    }
  }

  // ----- The append functions

  /** The string that a formatter fills. */
  class Output {
    var text: string

    constructor ()
      ensures text == ""
    {
      text := "";
    }
  }

  method AppendString(output: Output, value: string)
    modifies output
    ensures output.text == old(output.text) + value
  {
    output.text := output.text + value;
  }

  /** A 64-bit number needs at most 20 digits, so the buffer of 32 never fails. */
  lemma BufferIsLargeEnough(value: u64)
    ensures |Dec(value)| <= 20
  {
    assert Pow10(10) == 10 * Pow10(9) && Pow10(12) == 100 * Pow10(10) && Pow10(14) == 100 * Pow10(12);
    assert Pow10(16) == 100 * Pow10(14) && Pow10(18) == 100 * Pow10(16) && Pow10(20) == 100 * Pow10(18);
    BillionIsPow10();
    DecLength(value, 20);
  }

  method AppendUnsigned(output: Output, value: u64)
    modifies output
    ensures output.text == old(output.text) + Dec(value)
  {
    var digits := Dec(value);
    BufferIsLargeEnough(value);
    if |digits| <= 32 {
      output.text := output.text + digits;
    }
  }

  method AppendSigned(output: Output, value: i64)
    modifies output
    ensures output.text == old(output.text) + SignedDec(value)
  {
    var digits := SignedDec(value);
    BufferIsLargeEnough(if value < 0 then -(value as int) else value as int);
    if |digits| <= 32 {
      output.text := output.text + digits;
    }
  }

  method AppendHexByte(output: Output, value: nat)
    requires value < 256
    modifies output
    ensures output.text == old(output.text) + HexByte(value)
  {
    output.text := output.text + [HexDigit(value / 16 % 16)];
    output.text := output.text + [HexDigit(value % 16)];
  }

  method AppendEscapedChar(output: Output, c: char)
    modifies output
    ensures output.text == old(output.text) + EscapedChar(c)
  {
    match c {
      case '\\' => output.text := output.text + "\\\\";
      case '\n' => output.text := output.text + "\\n";
      case '\r' => output.text := output.text + "\\r";
      case '\t' => output.text := output.text + "\\t";
      case '\"' => output.text := output.text + "\\\"";
      case _ =>
        if c as nat < 0x20 {
          output.text := output.text + "\\x";
          AppendHexByte(output, c as nat);
        } else {
          output.text := output.text + [c];
        }
    }
  }

  method AppendEscapedText(output: Output, text: string)
    modifies output
    ensures output.text == old(output.text) + Escaped(text)
  {
    var i := 0;
    while i < |text|
      invariant i <= |text|
      invariant output.text == old(output.text) + Escaped(text[..i])
    {
      assert text[..i + 1][..i] == text[..i];
      AppendEscapedChar(output, text[i]);
      i := i + 1;
    }
    assert text[..i] == text;
  }

  method AppendJsonEscapedChar(output: Output, c: char)
    modifies output
    ensures output.text == old(output.text) + JsonEscapedChar(c)
  {
    match c {
      case '\\' => output.text := output.text + "\\\\";
      case '\"' => output.text := output.text + "\\\"";
      case '\n' => output.text := output.text + "\\n";
      case '\r' => output.text := output.text + "\\r";
      case '\t' => output.text := output.text + "\\t";
      case _ =>
        if c as nat == 8 {
          output.text := output.text + "\\b";
        } else if c as nat == 12 {
          output.text := output.text + "\\f";
        } else if c as nat < 0x20 {
          output.text := output.text + "\\u00";
          AppendHexByte(output, c as nat);
        } else {
          output.text := output.text + [c];
        }
    }
  }

  method AppendJsonEscapedText(output: Output, text: string)
    modifies output
    ensures output.text == old(output.text) + JsonEscaped(text)
  {
    var i := 0;
    while i < |text|
      invariant i <= |text|
      invariant output.text == old(output.text) + JsonEscaped(text[..i])
    {
      assert text[..i + 1][..i] == text[..i];
      AppendJsonEscapedChar(output, text[i]);
      i := i + 1;
    }
    assert text[..i] == text;
  }

  /** Prints from the cached parts, unless both are empty. */
  method AppendTimestamp(output: Output, calendar: Calendar, timestamp: u64, style: TimestampStyle, cached: TimeParts)
    requires cached == TimeParts("", "") || cached == PartsOf(calendar, style, timestamp / BILLION)
    modifies output
    ensures output.text == old(output.text) + TimestampText(calendar, style, timestamp)
  {
    match style {
      case EpochNanoseconds => AppendUnsigned(output, timestamp);
      case EpochMilliseconds => AppendUnsigned(output, timestamp / 1_000_000);
      case _ =>
        var parts := cached;
        if cached.prefix == "" && cached.suffix == "" {
          parts := PartsOf(calendar, style, timestamp / BILLION);
        }
        AppendString(output, parts.prefix);
        AppendString(output, ".");
        AppendFraction(output, timestamp % BILLION);
        AppendString(output, parts.suffix);
        var fraction := Fraction(timestamp % BILLION);
        assert output.text == old(output.text) + parts.prefix + "." + fraction + parts.suffix;
        assert old(output.text) + parts.prefix + "." + fraction + parts.suffix
            == old(output.text) + (parts.prefix + "." + fraction + parts.suffix);
    }
  }

  method AppendFraction(output: Output, nanoseconds: nat)
    requires nanoseconds < BILLION
    modifies output
    ensures output.text == old(output.text) + Fraction(nanoseconds)
  {
    var digits := Dec(nanoseconds);
    BillionIsPow10();
    DecLength(nanoseconds, 9);
    var i := |digits|;
    while i < 9
      invariant |digits| <= i <= 9
      invariant output.text == old(output.text) + seq(i - |digits|, k => '0')
    {
      output.text := output.text + "0";
      i := i + 1;
    }
    output.text := output.text + digits;
    assert output.text == old(output.text) + (seq(9 - |digits|, k => '0') + digits);
  }
}
