/** The two line formatters: human-readable text, with its cache of calendar parts, and logfmt. */
module TextFormatters {
  import opened Records
  import opened Decimal
  import opened Formatting
  import opened JsonFormatter

  // ----- The text line

  function TextValue(lib: Library, v: Value): string {
    match v
    case Signed(i) => SignedDec(i)
    case Unsigned(n) => Dec(n)
    case Double(bits) => lib.doubleText(bits)
    case Boolean(b) => if b then "true" else "false"
    case Text(t) => "\"" + Escaped(t) + "\""
  }

  function TextAttribute(lib: Library, a: Attribute): string {
    Escaped(a.key) + "=" + TextValue(lib, a.value)
  }

  function TextAttributes(lib: Library, attributes: seq<Attribute>): string {
    if attributes == [] then ""
    else
      var n := |attributes| - 1;
      TextAttributes(lib, attributes[..n]) + (if n > 0 then ", " else "") + TextAttribute(lib, attributes[n])
  }

  predicate IsTruncated(r: Record) { r.truncatedAttributes > 0 || r.truncatedBytes > 0 }

  function TextHead(lib: Library, style: TimestampStyle, r: Record): string {
    "[" + TimestampText(lib.calendar, style, r.timestamp) + "][" + LevelName(r.level) + "]["
    + Escaped(r.logger) + "] " + Escaped(r.message)
  }

  function TextAttributePart(lib: Library, r: Record): string {
    if r.attributes == [] then "" else " {" + TextAttributes(lib, r.attributes) + "}"
  }

  function TextTruncation(r: Record): string {
    if !IsTruncated(r) then ""
    else " [truncated attrs=" + Dec(r.truncatedAttributes) + ", bytes=" + Dec(r.truncatedBytes) + "]"
  }

  function TextSource(includeSource: bool, r: Record): string {
    if !includeSource then "" else " (" + Escaped(r.source.file) + ":" + Dec(r.source.line) + ")"
  }

  function TextTail(lib: Library, includeSource: bool, r: Record): string {
    TextAttributePart(lib, r) + TextTruncation(r) + TextSource(includeSource, r)
  }

  /** What a text formatter without a cache prints. */
  function TextLine(lib: Library, style: TimestampStyle, includeSource: bool, r: Record): string {
    TextHead(lib, style, r) + TextTail(lib, includeSource, r) + "\n"
  }

  method AppendAttributeValue(output: Output, lib: Library, value: Value)
    modifies output
    ensures output.text == old(output.text) + TextValue(lib, value)
  {
    match value {
      case Signed(i) => AppendSigned(output, i);
      case Unsigned(n) => AppendUnsigned(output, n);
      case Double(bits) => AppendString(output, lib.doubleText(bits));
      case Boolean(b) => AppendString(output, if b then "true" else "false");
      case Text(t) =>
        Behind(output.text, "\"", Escaped(t), "\"");
        AppendString(output, "\"");
        AppendEscapedText(output, t);
        AppendString(output, "\"");
    }
  }

  method AppendTextAttributes(output: Output, lib: Library, attributes: seq<Attribute>)
    modifies output
    ensures output.text == old(output.text) + TextAttributes(lib, attributes)
  {
    var i := 0;
    while i < |attributes|
      invariant i <= |attributes|
      invariant output.text == old(output.text) + TextAttributes(lib, attributes[..i])
    {
      ghost var shown, comma := TextAttributes(lib, attributes[..i]), if i > 0 then ", " else "";
      ghost var key, value := Escaped(attributes[i].key), TextValue(lib, attributes[i].value);
      assert attributes[..i + 1][..i] == attributes[..i];
      Behind(old(output.text), shown, comma, key + "=" + value);
      Behind(old(output.text) + shown + comma, key, "=", value);
      assert old(output.text) + shown + "" == old(output.text) + shown;
      if i > 0 {
        AppendString(output, ", ");
      }
      AppendEscapedText(output, attributes[i].key);
      AppendString(output, "=");
      AppendAttributeValue(output, lib, attributes[i].value);
      i := i + 1;
    }
    assert attributes[..i] == attributes;
  }

  class TextRecordFormatter {
    const lib: Library
    const style: TimestampStyle
    const includeSource: bool
    var cachedSecond: int
    var cachedParts: TimeParts

    /** What is cached is what the calendar says of that second. */
    ghost predicate Valid()
      reads this
    {
      && (IsIso(style) && cachedSecond >= 0 ==> cachedParts == PartsOf(lib.calendar, style, cachedSecond))
      && (!IsIso(style) ==> cachedParts == TimeParts("", ""))
    }

    constructor (lib: Library, style: TimestampStyle, includeSource: bool)
      ensures Valid() && this.lib == lib && this.style == style && this.includeSource == includeSource
    {
      this.lib, this.style, this.includeSource := lib, style, includeSource;
      cachedSecond, cachedParts := -1, TimeParts("", "");
    }

    method AppendCachedTimestamp(output: Output, timestamp: u64)
      requires Valid()
      modifies this`cachedSecond, this`cachedParts, output
      ensures Valid() && output.text == old(output.text) + TimestampText(lib.calendar, style, timestamp)
    {
      var second := timestamp / BILLION;
      if IsIso(style) && cachedSecond != second {
        cachedParts := PartsOf(lib.calendar, style, second);
        cachedSecond := second;
      }
      AppendTimestamp(output, lib.calendar, timestamp, style, cachedParts);
    }

    method FormatHead(output: Output, r: Record)
      requires Valid() && output.text == ""
      modifies this`cachedSecond, this`cachedParts, output
      ensures Valid() && output.text == TextHead(lib, style, r)
    {
      AppendString(output, "[");
      AppendCachedTimestamp(output, r.timestamp);
      AppendString(output, "][");
      AppendString(output, LevelName(r.level));
      AppendString(output, "][");
      AppendEscapedText(output, r.logger);
      AppendString(output, "] ");
      AppendEscapedText(output, r.message);
      assert "" + "[" == "[";
    }

    method FormatAttributes(output: Output, r: Record)
      modifies output
      ensures output.text == old(output.text) + TextAttributePart(lib, r)
    {
      if r.attributes != [] {
        Behind(output.text, " {", TextAttributes(lib, r.attributes), "}");
        AppendString(output, " {");
        AppendTextAttributes(output, lib, r.attributes);
        AppendString(output, "}");
      } else {
        assert output.text + "" == output.text;
      }
    }

    method FormatTruncation(output: Output, r: Record)
      modifies output
      ensures output.text == old(output.text) + TextTruncation(r)
    {
      if r.truncatedAttributes > 0 || r.truncatedBytes > 0 {
        Behind(output.text, " [truncated attrs=", Dec(r.truncatedAttributes), ", bytes=");
        Behind(output.text, " [truncated attrs=" + Dec(r.truncatedAttributes) + ", bytes=", Dec(r.truncatedBytes), "]");
        AppendString(output, " [truncated attrs=");
        AppendUnsigned(output, r.truncatedAttributes);
        AppendString(output, ", bytes=");
        AppendUnsigned(output, r.truncatedBytes);
        AppendString(output, "]");
      } else {
        assert output.text + "" == output.text;
      }
    }

    method FormatSource(output: Output, r: Record)
      modifies output
      ensures output.text == old(output.text) + TextSource(includeSource, r)
    {
      if includeSource {
        Behind(output.text, " (", Escaped(r.source.file), ":");
        Behind(output.text, " (" + Escaped(r.source.file) + ":", Dec(r.source.line), ")");
        AppendString(output, " (");
        AppendEscapedText(output, r.source.file);
        AppendString(output, ":");
        AppendUnsigned(output, r.source.line);
        AppendString(output, ")");
      } else {
        assert output.text + "" == output.text;
      }
    }

    /** Whatever was formatted before, the line is the one that a formatter without a cache prints. */
    method Format(output: Output, r: Record)
      requires Valid()
      modifies this`cachedSecond, this`cachedParts, output
      ensures Valid() && output.text == TextLine(lib, style, includeSource, r)
    {
      output.text := "";
      FormatHead(output, r);
      ghost var head := output.text;
      FormatAttributes(output, r);
      FormatTruncation(output, r);
      FormatSource(output, r);
      AppendString(output, "\n");
      Behind(head, TextAttributePart(lib, r), TextTruncation(r), TextSource(includeSource, r));
    }
  }

  // ----- The logfmt line

  function LogFmtAttributes(lib: Library, attributes: seq<Attribute>): string {
    if attributes == [] then ""
    else
      var n := |attributes| - 1;
      LogFmtAttributes(lib, attributes[..n]) + " " + TextAttribute(lib, attributes[n])
  }

  function LogFmtHead(lib: Library, style: TimestampStyle, r: Record): string {
    "ts=" + TimestampText(lib.calendar, style, r.timestamp) + " level=" + Escaped(LevelName(r.level))
    + " logger=\"" + Escaped(r.logger) + "\" msg=\"" + Escaped(r.message) + "\"" + " thread_id=" + Dec(r.thread)
  }

  function LogFmtSource(includeSource: bool, r: Record): string {
    if !includeSource then "" else " source=\"" + Escaped(r.source.file) + ":" + Dec(r.source.line) + "\""
  }

  function LogFmtTruncation(r: Record): string {
    if !IsTruncated(r) then ""
    else " truncated_attrs=" + Dec(r.truncatedAttributes) + " truncated_bytes=" + Dec(r.truncatedBytes)
  }

  function LogFmtLine(lib: Library, style: TimestampStyle, includeSource: bool, r: Record): string {
    LogFmtHead(lib, style, r) + LogFmtSource(includeSource, r) + LogFmtAttributes(lib, r.attributes)
    + LogFmtTruncation(r) + "\n"
  }

  method FormatLogFmtSource(output: Output, includeSource: bool, r: Record)
    modifies output
    ensures output.text == old(output.text) + LogFmtSource(includeSource, r)
  {
    if includeSource {
      Behind(output.text, " source=\"", Escaped(r.source.file), ":");
      Behind(output.text, " source=\"" + Escaped(r.source.file) + ":", Dec(r.source.line), "\"");
      AppendString(output, " source=\"");
      AppendEscapedText(output, r.source.file);
      AppendString(output, ":");
      AppendUnsigned(output, r.source.line);
      AppendString(output, "\"");
    } else {
      assert output.text + "" == output.text;
    }
  }

  method FormatLogFmtTruncation(output: Output, r: Record)
    modifies output
    ensures output.text == old(output.text) + LogFmtTruncation(r)
  {
    if r.truncatedAttributes > 0 || r.truncatedBytes > 0 {
      var first, middle := Dec(r.truncatedAttributes), " truncated_bytes=";
      Behind(output.text, " truncated_attrs=", first, middle);
      assert output.text + (" truncated_attrs=" + first + middle) + Dec(r.truncatedBytes)
          == output.text + (" truncated_attrs=" + first + middle + Dec(r.truncatedBytes));
      AppendString(output, " truncated_attrs=");
      AppendUnsigned(output, r.truncatedAttributes);
      AppendString(output, " truncated_bytes=");
      AppendUnsigned(output, r.truncatedBytes);
    } else {
      assert output.text + "" == output.text;
    }
  }

  method FormatLogFmt(output: Output, lib: Library, style: TimestampStyle, includeSource: bool, r: Record)
    modifies output
    ensures output.text == LogFmtLine(lib, style, includeSource, r)
  {
    output.text := "";
    FormatLogFmtHead(output, lib, style, r);
    FormatLogFmtSource(output, includeSource, r);
    AppendLogFmtAttributes(output, lib, r.attributes);
    FormatLogFmtTruncation(output, r);
    AppendString(output, "\n");
  }

  method FormatLogFmtHead(output: Output, lib: Library, style: TimestampStyle, r: Record)
    requires output.text == ""
    modifies output
    ensures output.text == LogFmtHead(lib, style, r)
  {
    AppendString(output, "ts=");
    AppendTimestamp(output, lib.calendar, r.timestamp, style, TimeParts("", ""));
    AppendString(output, " level=");
    AppendEscapedText(output, LevelName(r.level));
    AppendString(output, " logger=\"");
    AppendEscapedText(output, r.logger);
    AppendString(output, "\" msg=\"");
    AppendEscapedText(output, r.message);
    AppendString(output, "\"");
    AppendString(output, " thread_id=");
    AppendUnsigned(output, r.thread);
    assert "" + "ts=" == "ts=";
  }

  method AppendLogFmtAttributes(output: Output, lib: Library, attributes: seq<Attribute>)
    modifies output
    ensures output.text == old(output.text) + LogFmtAttributes(lib, attributes)
  {
    var i := 0;
    while i < |attributes|
      invariant i <= |attributes|
      invariant output.text == old(output.text) + LogFmtAttributes(lib, attributes[..i])
    {
      ghost var shown := LogFmtAttributes(lib, attributes[..i]);
      ghost var key, value := Escaped(attributes[i].key), TextValue(lib, attributes[i].value);
      assert attributes[..i + 1][..i] == attributes[..i];
      Behind(old(output.text), shown, " ", key + "=" + value);
      Behind(old(output.text) + shown + " ", key, "=", value);
      AppendString(output, " ");
      AppendEscapedText(output, attributes[i].key);
      AppendString(output, "=");
      AppendAttributeValue(output, lib, attributes[i].value);
      i := i + 1;
    }
    assert attributes[..i] == attributes;
  }

  // ----- One record, one line

  predicate NoNewline(s: string) { forall i :: 0 <= i < |s| ==> s[i] != '\n' }

  /** A text that ends in its only newline. */
  predicate IsLine(s: string) { |s| > 0 && s[|s| - 1] == '\n' && NoNewline(s[..|s| - 1]) }

  /** Neither calendar nor double texts contain a newline. */
  ghost predicate LibraryIsPlain(lib: Library) {
    && (forall style, second: nat ::
          NoNewline(lib.calendar(style, second).prefix) && NoNewline(lib.calendar(style, second).suffix))
    && (forall bits :: NoNewline(lib.doubleText(bits)))
  }

  lemma {:induction false} EscapedIsPlain(text: string)
    ensures NoNewline(Escaped(text))
  {
    if text != "" {
      EscapedIsPlain(text[..|text| - 1]);
    }
  }

  lemma DecIsPlain(n: nat)
    ensures NoNewline(Dec(n))
  {
    forall i | 0 <= i < |Dec(n)| ensures Dec(n)[i] != '\n' { assert IsDigit(Dec(n)[i]); }
  }

  lemma ValueIsPlain(lib: Library, v: Value)
    requires LibraryIsPlain(lib)
    ensures NoNewline(TextValue(lib, v))
  {
    match v {
      case Signed(i) => DecIsPlain(if i < 0 then -(i as int) else i as int);
      case Unsigned(n) => DecIsPlain(n);
      case Double(_) => case Boolean(_) =>
      case Text(t) => EscapedIsPlain(t);
    }
  }

  lemma AttributeIsPlain(lib: Library, a: Attribute)
    requires LibraryIsPlain(lib)
    ensures NoNewline(TextAttribute(lib, a))
  {
    EscapedIsPlain(a.key);
    ValueIsPlain(lib, a.value);
  }

  lemma {:induction false} AttributesArePlain(lib: Library, attributes: seq<Attribute>)
    requires LibraryIsPlain(lib)
    ensures NoNewline(TextAttributes(lib, attributes)) && NoNewline(LogFmtAttributes(lib, attributes))
  {
    if attributes != [] {
      AttributesArePlain(lib, attributes[..|attributes| - 1]);
      AttributeIsPlain(lib, attributes[|attributes| - 1]);
    }
  }

  lemma TimestampIsPlain(lib: Library, style: TimestampStyle, timestamp: u64)
    requires LibraryIsPlain(lib)
    ensures NoNewline(TimestampText(lib.calendar, style, timestamp))
  {
    DecIsPlain(timestamp);
    DecIsPlain(timestamp / 1_000_000);
    DecIsPlain(timestamp % BILLION);
    assert IsIso(style) ==> NoNewline(lib.calendar(style, timestamp / BILLION).prefix);
  }

  lemma Glued(a: string, b: string)
    requires NoNewline(a) && NoNewline(b)
    ensures NoNewline(a + b)
  {
  }

  lemma TextHeadIsPlain(lib: Library, style: TimestampStyle, r: Record)
    requires LibraryIsPlain(lib)
    ensures NoNewline(TextHead(lib, style, r))
  {
    TimestampIsPlain(lib, style, r.timestamp);
    TextHeadPartsArePlain(TimestampText(lib.calendar, style, r.timestamp), r);
  }

  lemma TextHeadPartsArePlain(ts: string, r: Record)
    requires NoNewline(ts)
    ensures NoNewline("[" + ts + "][" + LevelName(r.level) + "][" + Escaped(r.logger) + "] " + Escaped(r.message))
  {
    HeadWordsArePlain(r.level);
    EscapedIsPlain(r.logger);
    EscapedIsPlain(r.message);
    Glued("[", ts);
    Glued("[" + ts, "][");
    Glued("[" + ts + "][", LevelName(r.level));
    var front := "[" + ts + "][" + LevelName(r.level);
    Glued(front, "][");
    Glued(front + "][", Escaped(r.logger));
    Glued(front + "][" + Escaped(r.logger), "] ");
    Glued(front + "][" + Escaped(r.logger) + "] ", Escaped(r.message));
  }

  lemma HeadWordsArePlain(level: LogLevel)
    ensures NoNewline("[") && NoNewline("][") && NoNewline("] ") && NoNewline(LevelName(level))
  {
  }

  lemma LogFmtHeadIsPlain(lib: Library, style: TimestampStyle, r: Record)
    requires LibraryIsPlain(lib)
    ensures NoNewline(LogFmtHead(lib, style, r))
  {
    var level := "ts=" + TimestampText(lib.calendar, style, r.timestamp) + " level=" + Escaped(LevelName(r.level));
    assert NoNewline(level) by {
      TimestampIsPlain(lib, style, r.timestamp);
      EscapedIsPlain(LevelName(r.level));
    }
    LogFmtTextsArePlain(level, r);
  }

  lemma LogFmtTextsArePlain(level: string, r: Record)
    requires NoNewline(level)
    ensures NoNewline(level + " logger=\"" + Escaped(r.logger) + "\" msg=\"" + Escaped(r.message) + "\""
                      + " thread_id=" + Dec(r.thread))
  {
    EscapedIsPlain(r.logger);
    EscapedIsPlain(r.message);
    DecIsPlain(r.thread);
    Glued(level + " logger=\"", Escaped(r.logger));
    var texts := level + " logger=\"" + Escaped(r.logger) + "\" msg=\"";
    Glued(texts, Escaped(r.message));
    Glued(texts + Escaped(r.message) + "\"" + " thread_id=", Dec(r.thread));
  }

  lemma TruncationsArePlain(r: Record)
    ensures NoNewline(TextTruncation(r)) && NoNewline(LogFmtTruncation(r))
  {
    var a, b := Dec(r.truncatedAttributes), Dec(r.truncatedBytes);
    DecIsPlain(r.truncatedAttributes);
    DecIsPlain(r.truncatedBytes);
    LossWordsArePlain();
    Glued(" [truncated attrs=", a);
    Glued(" [truncated attrs=" + a, ", bytes=");
    Glued(" [truncated attrs=" + a + ", bytes=", b);
    Glued(" [truncated attrs=" + a + ", bytes=" + b, "]");
    Glued(" truncated_attrs=", a);
    Glued(" truncated_attrs=" + a, " truncated_bytes=");
    Glued(" truncated_attrs=" + a + " truncated_bytes=", b);
  }

  lemma LossWordsArePlain()
    ensures NoNewline(" [truncated attrs=") && NoNewline(", bytes=") && NoNewline("]")
    ensures NoNewline(" truncated_attrs=") && NoNewline(" truncated_bytes=")
  {
  }

  lemma SourcesArePlain(includeSource: bool, r: Record)
    ensures NoNewline(TextSource(includeSource, r)) && NoNewline(LogFmtSource(includeSource, r))
  {
    var file, line := Escaped(r.source.file), Dec(r.source.line);
    EscapedIsPlain(r.source.file);
    DecIsPlain(r.source.line);
    SourceWordsArePlain();
    Glued(" (", file);
    Glued(" (" + file, ":");
    Glued(" (" + file + ":", line);
    Glued(" (" + file + ":" + line, ")");
    Glued(" source=\"", file);
    Glued(" source=\"" + file, ":");
    Glued(" source=\"" + file + ":", line);
    Glued(" source=\"" + file + ":" + line, "\"");
  }

  lemma SourceWordsArePlain()
    ensures NoNewline(" (") && NoNewline(":") && NoNewline(")") && NoNewline(" source=\"") && NoNewline("\"")
  {
  }

  lemma TextTailIsPlain(lib: Library, includeSource: bool, r: Record)
    requires LibraryIsPlain(lib)
    ensures NoNewline(TextTail(lib, includeSource, r))
  {
    AttributesArePlain(lib, r.attributes);
    TruncationsArePlain(r);
    SourcesArePlain(includeSource, r);
    Glued(TextAttributePart(lib, r), TextTruncation(r));
    Glued(TextAttributePart(lib, r) + TextTruncation(r), TextSource(includeSource, r));
  }

  lemma LogFmtTailIsPlain(lib: Library, includeSource: bool, r: Record)
    requires LibraryIsPlain(lib)
    ensures NoNewline(LogFmtSource(includeSource, r) + LogFmtAttributes(lib, r.attributes) + LogFmtTruncation(r))
  {
    AttributesArePlain(lib, r.attributes);
    TruncationsArePlain(r);
    SourcesArePlain(includeSource, r);
    Glued(LogFmtSource(includeSource, r), LogFmtAttributes(lib, r.attributes));
    Glued(LogFmtSource(includeSource, r) + LogFmtAttributes(lib, r.attributes), LogFmtTruncation(r));
  }

  /** Every record becomes exactly one line, whatever its texts contain. */
  lemma OneLinePerRecord(lib: Library, style: TimestampStyle, includeSource: bool, r: Record)
    requires LibraryIsPlain(lib)
    ensures IsLine(TextLine(lib, style, includeSource, r)) && IsLine(LogFmtLine(lib, style, includeSource, r))
  {
    TextHeadIsPlain(lib, style, r);
    TextTailIsPlain(lib, includeSource, r);
    EndsLine(TextHead(lib, style, r) + TextTail(lib, includeSource, r));
    LogFmtHeadIsPlain(lib, style, r);
    LogFmtTailIsPlain(lib, includeSource, r);
    EndsLine(LogFmtHead(lib, style, r)
             + (LogFmtSource(includeSource, r) + LogFmtAttributes(lib, r.attributes) + LogFmtTruncation(r)));
    Behind(LogFmtHead(lib, style, r), LogFmtSource(includeSource, r), LogFmtAttributes(lib, r.attributes),
           LogFmtTruncation(r));
  }

  lemma EndsLine(s: string)
    requires NoNewline(s)
    ensures IsLine(s + "\n")
  {
  }
}
