/** A reader for logfmt lines, and when it recovers what was printed. */
module LogFmtReader {
  import opened Basics
  import opened Records
  import opened Decimal
  import opened Formatting
  import opened JsonFormatter
  import opened TextFormatters
  import Json

  datatype FieldValue = Bare(text: string) | Quoted(text: string)

  datatype Field = Field(name: string, value: FieldValue)

  // ----- The fields of a line

  function AttributeField(lib: Library, a: Attribute): Field {
    Field(a.key, if a.value.Text? then Quoted(a.value.t) else Bare(TextValue(lib, a.value)))
  }

  function AttributeFields(lib: Library, attributes: seq<Attribute>): (r: seq<Field>)
    ensures |r| == |attributes| && forall i :: 0 <= i < |r| ==> r[i] == AttributeField(lib, attributes[i])
  {
    seq(|attributes|, i requires 0 <= i < |attributes| => AttributeField(lib, attributes[i]))
  }

  function SourceFields(includeSource: bool, r: Record): seq<Field> {
    if includeSource then [Field("source", Quoted(SourceText(r.source)))] else []
  }

  function TruncationFields(r: Record): seq<Field> {
    if !IsTruncated(r) then []
    else [Field("truncated_attrs", Bare(Dec(r.truncatedAttributes))),
          Field("truncated_bytes", Bare(Dec(r.truncatedBytes)))]
  }

  function HeadFields(lib: Library, style: TimestampStyle, r: Record): seq<Field> {
    [ Field("ts", Bare(TimestampText(lib.calendar, style, r.timestamp))), Field("level", Bare(LevelName(r.level))),
      Field("logger", Quoted(r.logger)), Field("msg", Quoted(r.message)), Field("thread_id", Bare(Dec(r.thread))) ]
  }

  function TailFields(lib: Library, includeSource: bool, r: Record): seq<Field> {
    SourceFields(includeSource, r) + (AttributeFields(lib, r.attributes) + TruncationFields(r))
  }

  function LineFields(lib: Library, style: TimestampStyle, includeSource: bool, r: Record): seq<Field> {
    HeadFields(lib, style, r) + TailFields(lib, includeSource, r)
  }

  // ----- A printer for fields

  function ShowValue(v: FieldValue): string {
    match v
    case Bare(t) => t
    case Quoted(t) => "\"" + Escaped(t) + "\""
  }

  function ShowField(f: Field): string { Escaped(f.name) + "=" + ShowValue(f.value) }

  /** Fields behind others, and the end of the line. */
  function ShowRest(fields: seq<Field>): string {
    if fields == [] then "\n" else " " + ShowField(fields[0]) + ShowRest(fields[1..])
  }

  // ----- The reader

  datatype Read<+T> = Malformed | Read(value: T, rest: string)

  /** How far to the first of some characters. */
  function UpTo(stop: char -> bool, s: string): (n: nat)
    ensures n <= |s| && (n < |s| ==> stop(s[n]))
  {
    if s == "" || stop(s[0]) then 0 else 1 + UpTo(stop, s[1..])
  }

  function IsEquals(c: char): bool { c == '=' }

  function IsEnd(c: char): bool { c == ' ' || c == '\n' }

  /** How far to the first quotation mark that is not escaped. */
  function QuoteEnd(s: string): (n: nat)
    ensures n <= |s|
  {
    if s == "" || s[0] == '\"' then 0
    else if s[0] == '\\' && |s| > 1 then 2 + QuoteEnd(s[2..])
    else 1 + QuoteEnd(s[1..])
  }

  /** A value in quotation marks, or everything up to a character that ends a field. */
  function ReadValue(end: char -> bool, s: string): (r: Read<FieldValue>)
    ensures r.Read? ==> |r.rest| <= |s|
  {
    if s != "" && s[0] == '\"' then
      var n := QuoteEnd(s[1..]);
      var text := Unescaped(s[1..][..n]);
      if n == |s[1..]| || text.None? then Malformed else Read(Quoted(text.value), s[1..][n + 1..])
    else
      var n := UpTo(end, s);
      Read(Bare(s[..n]), s[n..])
  }

  function ReadField(end: char -> bool, s: string): (r: Read<Field>)
    ensures r.Read? ==> |r.rest| < |s|
  {
    var n := UpTo(IsEquals, s);
    var name := Unescaped(s[..n]);
    if n == |s| || name.None? then Malformed
    else
      var value := ReadValue(end, s[n + 1..]);
      if value.Malformed? then Malformed else Read(Field(name.value, value.value), value.rest)
  }

  function ReadFields(s: string): Option<seq<Field>>
    decreases |s|
  {
    var first := ReadField(IsEnd, s);
    if first.Malformed? then None
    else if first.rest == "\n" then Some([first.value])
    else if first.rest == "" || first.rest[0] != ' ' then None
    else
      var more := ReadFields(first.rest[1..]);
      if more.None? then None else Some([first.value] + more.value)
  }

  // ----- What a field needs to be read back

  predicate Without(stop: char -> bool, s: string) { forall i :: 0 <= i < |s| ==> !stop(s[i]) }

  function IsQuote(c: char): bool { c == '\"' }

  predicate IsDelimiter(c: char) { IsEnd(c) || IsQuote(c) }

  /** A bare value ends where its field does. */
  predicate Sound(f: Field) { f.value.Bare? ==> Without(IsDelimiter, f.value.text) }

  predicate Readable(f: Field) { Without(IsEquals, f.name) && Sound(f) }

  /** The same for fields that end in other ways. */
  predicate SoundWith(end: char -> bool, f: Field) {
    f.value.Bare? ==> Without(end, f.value.text) && Without(IsQuote, f.value.text)
  }

  lemma {:induction false} UpToStop(stop: char -> bool, s: string, rest: string)
    requires Without(stop, s) && (rest == "" || stop(rest[0]))
    ensures UpTo(stop, s + rest) == |s|
  {
    if s == "" {
      assert s + rest == rest;
    } else {
      assert (s + rest)[1..] == s[1..] + rest && (s + rest)[0] == s[0];
      UpToStop(stop, s[1..], rest);
    }
  }

  lemma {:induction false} EscapedWithoutEquals(s: string)
    requires Without(IsEquals, s)
    ensures Without(IsEquals, Escaped(s))
  {
    if s != "" {
      EscapedWithoutEquals(s[..|s| - 1]);
      CharWithoutEquals(s[|s| - 1]);
    }
  }

  lemma CharWithoutEquals(c: char)
    requires c != '='
    ensures Without(IsEquals, EscapedChar(c))
  {
  }

  lemma SkipPlain(c: char, s: string)
    requires c != '\\' && c != '\"'
    ensures QuoteEnd([c] + s) == 1 + QuoteEnd(s)
  {
    assert ([c] + s)[1..] == s;
  }

  lemma QuoteEndBehindChar(c: char, s: string)
    ensures QuoteEnd(EscapedChar(c) + s) == |EscapedChar(c)| + QuoteEnd(s)
  {
    var all := EscapedChar(c) + s;
    if |EscapedChar(c)| == 1 {
      assert all[1..] == s;
    } else if |EscapedChar(c)| == 2 {
      assert all[2..] == s;
    } else {
      var h, l := HexDigit(c as nat / 16), HexDigit(c as nat % 16);
      assert all[2..] == [h] + ([l] + s);
      SkipPlain(h, [l] + s);
      SkipPlain(l, s);
    }
  }

  // Small facts about strings, so that larger proofs need not look inside them.

  lemma Assoc(a: string, b: string, c: string)
    ensures (a + b) + c == a + (b + c)
  {
  }

  lemma SplitAt(a: string, rest: string)
    ensures (a + rest)[..|a|] == a && (a + rest)[|a|..] == rest
  {
  }

  lemma SplitBehind(a: string, c: char, rest: string)
    ensures var s := a + ([c] + rest); |s| > |a| && s[..|a|] == a && s[|a|] == c && s[|a| + 1..] == rest
  {
  }

  lemma BehindBlank(a: string, rest: string)
    ensures var s := " " + a + rest; s != "" && s[0] == ' ' && s[1..] == a + rest
  {
  }

  lemma InQuotes(a: string, rest: string)
    ensures var s := ("\"" + a + "\"") + rest; s != "" && s[0] == '\"' && s[1..] == a + ("\"" + rest)
  {
  }

  lemma AroundEquals(a: string, b: string, rest: string)
    ensures (a + "=" + b) + rest == a + (['='] + (b + rest))
  {
  }

  lemma {:induction false} QuoteEndOf(text: string, rest: string)
    ensures QuoteEnd(Escaped(text) + ("\"" + rest)) == |Escaped(text)|
  {
    var tail := "\"" + rest;
    if text == "" {
      assert "" + tail == tail;
    } else {
      assert text == [text[0]] + text[1..];
      MappedFront(EscapedChar, text[0], text[1..]);
      QuoteEndOf(text[1..], rest);
      QuoteEndBehindChar(text[0], Escaped(text[1..]) + tail);
      Assoc(EscapedChar(text[0]), Escaped(text[1..]), tail);
    }
  }

  lemma ReadQuotedFrom(end: char -> bool, s: string, text: string, escaped: string, rest: string)
    requires s != "" && s[0] == '\"' && s[1..] == escaped + ("\"" + rest)
    requires QuoteEnd(s[1..]) == |escaped| && Unescaped(escaped) == Some(text)
    ensures ReadValue(end, s) == Read(Quoted(text), rest)
  {
    SplitBehind(escaped, '\"', rest);
  }

  lemma ReadQuoted(end: char -> bool, text: string, rest: string)
    ensures ReadValue(end, ShowValue(Quoted(text)) + rest) == Read(Quoted(text), rest)
  {
    InQuotes(Escaped(text), rest);
    QuoteEndOf(text, rest);
    UnescapeEscape(text);
    ReadQuotedFrom(end, ShowValue(Quoted(text)) + rest, text, Escaped(text), rest);
  }

  lemma ReadBare(end: char -> bool, text: string, rest: string)
    requires Without(end, text) && Without(IsQuote, text) && rest != "" && end(rest[0]) && !IsQuote(rest[0])
    ensures ReadValue(end, text + rest) == Read(Bare(text), rest)
  {
    UpToStop(end, text, rest);
    SplitAt(text, rest);
    assert text != "" ==> !IsQuote(text[0]) && (text + rest)[0] == text[0];
  }

  lemma ReadFieldFrom(end: char -> bool, s: string, name: string, escaped: string, tail: string,
                      value: FieldValue, rest: string)
    requires |escaped| < |s| && UpTo(IsEquals, s) == |escaped| && s[..|escaped|] == escaped
    requires Unescaped(escaped) == Some(name) && s[|escaped| + 1..] == tail
    requires ReadValue(end, tail) == Read(value, rest)
    ensures ReadField(end, s) == Read(Field(name, value), rest)
  {
  }

  lemma ReadOneWith(end: char -> bool, f: Field, rest: string)
    requires Without(IsEquals, f.name) && SoundWith(end, f) && rest != "" && end(rest[0]) && !IsQuote(rest[0])
    ensures ReadField(end, ShowField(f) + rest) == Read(f, rest)
  {
    var name, value := Escaped(f.name), ShowValue(f.value);
    AroundEquals(name, value, rest);
    EscapedWithoutEquals(f.name);
    UpToStop(IsEquals, name, ['='] + (value + rest));
    SplitBehind(name, '=', value + rest);
    UnescapeEscape(f.name);
    match f.value {
      case Bare(t) => ReadBare(end, t, rest);
      case Quoted(t) => ReadQuoted(end, t, rest);
    }
    ReadFieldFrom(end, ShowField(f) + rest, f.name, name, value + rest, f.value, rest);
  }

  lemma SoundEnds(f: Field)
    requires Sound(f)
    ensures SoundWith(IsEnd, f)
  {
    if f.value.Bare? {
      var text := f.value.text;
      forall i | 0 <= i < |text| ensures !IsEnd(text[i]) && !IsQuote(text[i]) { assert !IsDelimiter(text[i]); }
    }
  }

  lemma ReadOne(f: Field, rest: string)
    requires Readable(f) && rest != "" && IsEnd(rest[0])
    ensures ReadField(IsEnd, ShowField(f) + rest) == Read(f, rest)
  {
    SoundEnds(f);
    ReadOneWith(IsEnd, f, rest);
  }

  lemma ReadLast(s: string, f: Field)
    requires ReadField(IsEnd, s) == Read(f, "\n")
    ensures ReadFields(s) == Some([f])
  {
  }

  lemma ReadMore(s: string, f: Field, rest: string, more: seq<Field>)
    requires rest != "" && rest[0] == ' '
    ensures ReadField(IsEnd, s) == Read(f, rest) && ReadFields(rest[1..]) == Some(more) ==>
              ReadFields(s) == Some([f] + more)
  {
  }

  lemma RestBegins(fields: seq<Field>)
    requires fields != []
    ensures ShowRest(fields) != "" && ShowRest(fields)[0] == ' '
    ensures ShowRest(fields)[1..] == ShowField(fields[0]) + ShowRest(fields[1..])
  {
    BehindBlank(ShowField(fields[0]), ShowRest(fields[1..]));
  }

  lemma FirstAndMore(fields: seq<Field>)
    requires fields != []
    ensures fields == [fields[0]] + fields[1..]
    ensures fields[1..] == [] ==> fields == [fields[0]] && ShowRest(fields[1..]) == "\n"
  {
  }

  /** The reader undoes the printer. */
  lemma {:induction false} ReadShown(fields: seq<Field>)
    requires fields != [] && forall i :: 0 <= i < |fields| ==> Readable(fields[i])
    ensures ReadFields(ShowField(fields[0]) + ShowRest(fields[1..])) == Some(fields)
    decreases |fields|
  {
    var f, more := fields[0], fields[1..];
    FirstAndMore(fields);
    if more == [] {
      ReadOne(f, "\n");
      ReadLast(ShowField(f) + "\n", f);
    } else {
      RestBegins(more);
      ReadOne(f, ShowRest(more));
      ReadShown(more);
      ReadMore(ShowField(f) + ShowRest(more), f, ShowRest(more), more);
    }
  }

  // ----- What happens to a name with an equals sign

  lemma {:induction false} UpToIsFirst(stop: char -> bool, s: string)
    ensures Without(stop, s[..UpTo(stop, s)])
    ensures UpTo(stop, s) < |s| <==> !Without(stop, s)
  {
    if s != "" && !stop(s[0]) {
      UpToIsFirst(stop, s[1..]);
      var n := UpTo(stop, s[1..]);
      assert s[..n + 1] == [s[0]] + s[1..][..n];
      assert s == [s[0]] + s[1..];
      WithoutConcat(stop, [s[0]], s[1..][..n]);
      WithoutConcat(stop, [s[0]], s[1..]);
    }
  }

  lemma WithoutConcat(stop: char -> bool, a: string, b: string)
    ensures Without(stop, a + b) <==> Without(stop, a) && Without(stop, b)
  {
    forall i | 0 <= i < |a| ensures (a + b)[i] == a[i] { }
    forall i | 0 <= i < |b| ensures (a + b)[|a| + i] == b[i] { }
    if Without(stop, a + b) {
      forall i | 0 <= i < |a| ensures !stop(a[i]) { assert !stop((a + b)[i]); }
      forall i | 0 <= i < |b| ensures !stop(b[i]) { assert !stop((a + b)[|a| + i]); }
    }
  }

  /** A name with an equals sign, split at the first one. */
  lemma SplitName(name: string) returns (front: string, back: string)
    requires !Without(IsEquals, name)
    ensures name == front + "=" + back && Without(IsEquals, front) && |front| < |name|
  {
    UpToIsFirst(IsEquals, name);
    var n := UpTo(IsEquals, name);
    front, back := name[..n], name[n + 1..];
    assert name == front + [name[n]] + back;
  }

  lemma EscapedSplits(front: string, back: string)
    ensures Escaped(front + "=" + back) == Escaped(front) + "=" + Escaped(back)
  {
    MappedConcat(EscapedChar, front + "=", back);
    MappedConcat(EscapedChar, front, "=");
    PlainStays("=");
  }

  lemma Tail(front: string, back: string, value: string, rest: string)
    ensures ((front + "=" + back) + "=" + value) + rest == front + (['='] + (back + "=" + value + rest))
  {
  }

  /** The name that is read from s is what comes before its first equals sign. */
  lemma ReadName(end: char -> bool, s: string, name: string, escaped: string)
    requires UpTo(IsEquals, s) == |escaped| && |escaped| <= |s| && s[..|escaped|] == escaped
    requires Unescaped(escaped) == Some(name)
    ensures ReadField(end, s).Read? ==> ReadField(end, s).value.name == name
  {
  }

  lemma MisreadName(end: char -> bool, f: Field, rest: string)
    requires !Without(IsEquals, f.name)
    ensures ReadField(end, ShowField(f) + rest).Read? ==> ReadField(end, ShowField(f) + rest).value.name != f.name
  {
    var front, back := SplitName(f.name);
    var tail := Escaped(back) + "=" + ShowValue(f.value) + rest;
    EscapedSplits(front, back);
    Tail(Escaped(front), Escaped(back), ShowValue(f.value), rest);
    EscapedWithoutEquals(front);
    UpToStop(IsEquals, Escaped(front), ['='] + tail);
    SplitBehind(Escaped(front), '=', tail);
    UnescapeEscape(front);
    ReadName(end, ShowField(f) + rest, front, Escaped(front));
  }

  /** What is read first is what was printed first, or else nothing is read right. */
  lemma FirstMisread(s: string, f: Field, fields: seq<Field>)
    requires fields != [] && fields[0] == f
    requires ReadField(IsEnd, s).Read? ==> ReadField(IsEnd, s).value.name != f.name
    ensures ReadFields(s) != Some(fields)
  {
  }

  lemma FirstRead(s: string, f: Field, rest: string, more: seq<Field>)
    requires ReadField(IsEnd, s) == Read(f, rest) && rest != "" && rest[0] == ' ' && ReadFields(rest[1..]) != Some(more)
    ensures ReadFields(s) != Some([f] + more)
  {
    var read := ReadFields(rest[1..]);
    if read.Some? {
      assert ([f] + read.value)[1..] == read.value && ([f] + more)[1..] == more;
    }
  }

  /** Fields whose values are sound are read back exactly if no name contains an equals sign. */
  lemma {:induction false} ReadShownExactly(fields: seq<Field>)
    requires fields != [] && forall i :: 0 <= i < |fields| ==> Sound(fields[i])
    ensures ReadFields(ShowField(fields[0]) + ShowRest(fields[1..])) == Some(fields) <==> AllReadable(fields)
    decreases |fields|
  {
    var f, more := fields[0], fields[1..];
    if AllReadable(fields) {
      ReadShown(fields);
    } else if !Readable(f) {
      MisreadName(IsEnd, f, ShowRest(more));
      FirstMisread(ShowField(f) + ShowRest(more), f, fields);
    } else {
      FirstAndMore(fields);
      assert AllReadable(more) ==> AllReadable(fields);
      RestBegins(more);
      ReadOne(f, ShowRest(more));
      ReadShownExactly(more);
      FirstRead(ShowField(f) + ShowRest(more), f, ShowRest(more), more);
    }
  }

  ghost predicate AllReadable(fields: seq<Field>) {
    forall i :: 0 <= i < |fields| ==> Readable(fields[i])
  }

  // ----- A line is the text of its fields

  lemma RestAppend(fields: seq<Field>, f: Field, before: string, more: seq<Field>)
    requires before + ShowRest([f] + more) == ShowRest(fields + ([f] + more))
    ensures (before + " " + ShowField(f)) + ShowRest(more) == ShowRest((fields + [f]) + more)
  {
    assert ([f] + more)[1..] == more;
    assert fields + ([f] + more) == (fields + [f]) + more;
    Behind(before, " ", ShowField(f), ShowRest(more));
  }

  lemma OneMoreAttribute(lib: Library, attributes: seq<Attribute>)
    requires attributes != []
    ensures var front, f := attributes[..|attributes| - 1], AttributeField(lib, attributes[|attributes| - 1]);
      && LogFmtAttributes(lib, attributes) == LogFmtAttributes(lib, front) + " " + ShowField(f)
      && AttributeFields(lib, attributes) == AttributeFields(lib, front) + [f]
  {
    var front, last := attributes[..|attributes| - 1], attributes[|attributes| - 1];
    assert TextAttribute(lib, last) == ShowField(AttributeField(lib, last));
    FieldsAppend(lib, front, last);
    assert front + [last] == attributes;
  }

  lemma FieldsAppend(lib: Library, attributes: seq<Attribute>, a: Attribute)
    ensures AttributeFields(lib, attributes + [a]) == AttributeFields(lib, attributes) + [AttributeField(lib, a)]
  {
  }

  lemma {:induction false} AttributesShown(lib: Library, attributes: seq<Attribute>, more: seq<Field>)
    ensures LogFmtAttributes(lib, attributes) + ShowRest(more) == ShowRest(AttributeFields(lib, attributes) + more)
  {
    if attributes == [] {
      assert AttributeFields(lib, attributes) + more == more;
      Nothing(ShowRest(more));
    } else {
      var front, last := attributes[..|attributes| - 1], attributes[|attributes| - 1];
      AttributesShown(lib, front, [AttributeField(lib, last)] + more);
      OneMoreAttribute(lib, attributes);
      RestAppend(AttributeFields(lib, front), AttributeField(lib, last), LogFmtAttributes(lib, front), more);
    }
  }

  lemma Nothing(s: string)
    ensures "" + s == s
  {
  }

  predicate PlainText(s: string) { forall i :: 0 <= i < |s| ==> IsPlain(s[i]) }

  lemma NamedField(name: string, value: FieldValue)
    requires PlainText(name)
    ensures ShowField(Field(name, value)) == name + "=" + ShowValue(value)
  {
    PlainStays(name);
  }

  lemma ShowTwo(f: Field, g: Field)
    ensures ShowRest([f, g]) == " " + ShowField(f) + (" " + ShowField(g) + "\n")
  {
    assert [f, g][1..] == [g] && [g][1..] == [];
    assert ShowRest([]) == "\n" && ShowRest([g]) == " " + ShowField(g) + "\n";
  }

  lemma TwoParts(first: string, a: string, second: string, b: string)
    ensures " " + (first + "=" + a) + (" " + (second + "=" + b) + "\n")
         == (" " + first + "=") + a + (" " + second + "=") + b + "\n"
  {
  }

  lemma LossNames()
    ensures " " + "truncated_attrs" + "=" == " truncated_attrs=" && " " + "truncated_bytes" + "=" == " truncated_bytes="
    ensures PlainText("truncated_attrs") && PlainText("truncated_bytes") && PlainText("source")
  {
  }

  lemma TruncationShown(r: Record)
    ensures LogFmtTruncation(r) + "\n" == ShowRest(TruncationFields(r))
  {
    if IsTruncated(r) {
      var fields := TruncationFields(r);
      LossNames();
      NamedField("truncated_attrs", fields[0].value);
      NamedField("truncated_bytes", fields[1].value);
      ShowTwo(fields[0], fields[1]);
      TwoParts("truncated_attrs", Dec(r.truncatedAttributes), "truncated_bytes", Dec(r.truncatedBytes));
    } else {
      Nothing("\n");
    }
  }

  lemma SourceParts(file: string, line: string)
    ensures " source=\"" + file + ":" + line + "\"" == " " + ("source" + "=" + ("\"" + (file + ":" + line) + "\""))
  {
  }

  lemma SourceShown(includeSource: bool, r: Record, more: seq<Field>)
    ensures LogFmtSource(includeSource, r) + ShowRest(more) == ShowRest(SourceFields(includeSource, r) + more)
  {
    if includeSource {
      var f := Field("source", Quoted(SourceText(r.source)));
      SourceEscapes(r.source);
      LossNames();
      NamedField("source", f.value);
      SourceParts(Escaped(r.source.file), Dec(r.source.line));
      assert ([f] + more)[1..] == more;
    } else {
      assert [] + more == more;
      Nothing(ShowRest(more));
    }
  }

  lemma TailShown(lib: Library, includeSource: bool, r: Record)
    ensures LogFmtSource(includeSource, r) + (LogFmtAttributes(lib, r.attributes) + (LogFmtTruncation(r) + "\n"))
         == ShowRest(TailFields(lib, includeSource, r))
  {
    TruncationShown(r);
    AttributesShown(lib, r.attributes, TruncationFields(r));
    SourceShown(includeSource, r, AttributeFields(lib, r.attributes) + TruncationFields(r));
  }

  lemma LineNames()
    ensures PlainText("ts") && PlainText("level") && PlainText("logger") && PlainText("msg") && PlainText("thread_id")
  {
  }

  lemma LevelStays(level: LogLevel)
    ensures Escaped(LevelName(level)) == LevelName(level)
  {
    PlainStays(LevelName(level));
  }

  lemma HeadNames(lib: Library, style: TimestampStyle, r: Record)
    ensures var fs := HeadFields(lib, style, r);
      && ShowField(fs[0]) == "ts=" + TimestampText(lib.calendar, style, r.timestamp)
      && ShowField(fs[1]) == "level=" + LevelName(r.level)
      && ShowField(fs[2]) == "logger=" + ("\"" + Escaped(r.logger) + "\"")
      && ShowField(fs[3]) == "msg=" + ("\"" + Escaped(r.message) + "\"")
      && ShowField(fs[4]) == "thread_id=" + Dec(r.thread)
  {
    var fs := HeadFields(lib, style, r);
    LineNames();
    NamedField("ts", fs[0].value);
    NamedField("level", fs[1].value);
    NamedField("logger", fs[2].value);
    NamedField("msg", fs[3].value);
    NamedField("thread_id", fs[4].value);
  }

  /** A line's head, whose first field has no blank in front, and what follows it. */
  lemma HeadRest(fs: seq<Field>, more: seq<Field>)
    requires |fs| == 5
    ensures ShowRest((fs + more)[1..]) ==
      " " + ShowField(fs[1])
      + (" " + ShowField(fs[2]) + (" " + ShowField(fs[3]) + (" " + ShowField(fs[4]) + ShowRest(more))))
  {
    var all := fs + more;
    assert all[1..][1..] == all[2..] && all[2..][1..] == all[3..] && all[3..][1..] == all[4..] && all[4..][1..] == more;
    assert ShowRest(all[4..]) == " " + ShowField(fs[4]) + ShowRest(more);
    assert ShowRest(all[3..]) == " " + ShowField(fs[3]) + ShowRest(all[4..]);
    assert ShowRest(all[2..]) == " " + ShowField(fs[2]) + ShowRest(all[3..]);
  }

  lemma HeadParts(ts: string, level: string, logger: string, msg: string, thread: string, tail: string)
    ensures ("ts=" + ts + " level=" + level + " logger=\"" + logger + "\" msg=\"" + msg + "\""
             + " thread_id=" + thread) + tail
         == ("ts=" + ts) + (" " + ("level=" + level) + (" " + ("logger=" + ("\"" + logger + "\""))
            + (" " + ("msg=" + ("\"" + msg + "\"")) + (" " + ("thread_id=" + thread) + tail))))
  {
    var a := "ts=" + ts + " level=" + level;
    var b := " logger=\"" + logger + "\"";
    var c := " msg=\"" + msg + "\"";
    var d := " thread_id=" + thread;
    assert b == " " + ("logger=" + ("\"" + logger + "\""));
    assert c == " " + ("msg=" + ("\"" + msg + "\""));
    assert d == " " + ("thread_id=" + thread);
    assert a == ("ts=" + ts) + (" " + ("level=" + level));
    assert "ts=" + ts + " level=" + level + " logger=\"" + logger + "\" msg=\"" + msg + "\"" + " thread_id=" + thread
        == a + b + c + d;
    FourAndTail("ts=" + ts, " " + ("level=" + level), b, c, d, tail);
  }

  lemma FourAndTail(x: string, a: string, b: string, c: string, d: string, tail: string)
    ensures ((x + a) + b + c + d) + tail == x + (a + (b + (c + (d + tail))))
  {
  }

  /** A logfmt line is the text of its fields. */
  lemma LineShown(lib: Library, style: TimestampStyle, includeSource: bool, r: Record)
    ensures var fields := LineFields(lib, style, includeSource, r);
      LogFmtLine(lib, style, includeSource, r) == ShowField(fields[0]) + ShowRest(fields[1..])
  {
    var fs, tail := HeadFields(lib, style, r), TailFields(lib, includeSource, r);
    HeadNames(lib, style, r);
    LevelStays(r.level);
    HeadRest(fs, tail);
    TailShown(lib, includeSource, r);
    HeadParts(TimestampText(lib.calendar, style, r.timestamp), LevelName(r.level),
              Escaped(r.logger), Escaped(r.message), Dec(r.thread), ShowRest(tail));
    FourAndTail("", LogFmtHead(lib, style, r), LogFmtSource(includeSource, r), LogFmtAttributes(lib, r.attributes),
                LogFmtTruncation(r), "\n");
    Nothing(LogFmtHead(lib, style, r));
    Nothing(LogFmtHead(lib, style, r) + ShowRest(tail));
  }

  // ----- What a logfmt reader recovers

  /** Neither calendar nor double texts contain a blank, a newline or a quotation mark. */
  ghost predicate LibraryIsBare(lib: Library) {
    && (forall style, second: nat ::
          Without(IsDelimiter, lib.calendar(style, second).prefix)
          && Without(IsDelimiter, lib.calendar(style, second).suffix))
    && (forall bits :: Without(IsDelimiter, lib.doubleText(bits)))
  }

  predicate KeysWithoutEquals(r: Record) {
    forall i :: 0 <= i < |r.attributes| ==> Without(IsEquals, r.attributes[i].key)
  }

  lemma DecIsBare(n: nat)
    ensures Without(IsDelimiter, Dec(n))
  {
    forall i | 0 <= i < |Dec(n)| ensures !IsDelimiter(Dec(n)[i]) { assert IsDigit(Dec(n)[i]); }
  }

  lemma TimestampIsBare(lib: Library, style: TimestampStyle, timestamp: u64)
    requires LibraryIsBare(lib)
    ensures Without(IsDelimiter, TimestampText(lib.calendar, style, timestamp))
  {
    DecIsBare(timestamp);
    DecIsBare(timestamp / 1_000_000);
    DecIsBare(timestamp % BILLION);
    assert Without(IsDelimiter, lib.calendar(style, timestamp / BILLION).prefix);
  }

  lemma AttributeIsSound(lib: Library, a: Attribute)
    requires LibraryIsBare(lib)
    ensures Sound(AttributeField(lib, a))
  {
    match a.value {
      case Signed(i) => DecIsBare(if i < 0 then -(i as int) else i as int);
      case Unsigned(n) => DecIsBare(n);
      case Double(_) => case Boolean(_) => case Text(_) =>
    }
  }

  ghost predicate AllSound(fields: seq<Field>) {
    forall i :: 0 <= i < |fields| ==> Sound(fields[i])
  }

  /** The fields of both, and those alone. */
  lemma FieldsOfBoth(a: seq<Field>, b: seq<Field>)
    ensures AllReadable(a + b) <==> AllReadable(a) && AllReadable(b)
    ensures AllSound(a) && AllSound(b) ==> AllSound(a + b)
  {
    if AllReadable(a + b) {
      forall i | 0 <= i < |a| ensures Readable(a[i]) { assert Readable((a + b)[i]); }
      forall i | 0 <= i < |b| ensures Readable(b[i]) { assert Readable((a + b)[|a| + i]); }
    }
  }

  lemma HeadIsReadable(lib: Library, style: TimestampStyle, r: Record)
    requires LibraryIsBare(lib)
    ensures AllReadable(HeadFields(lib, style, r))
  {
    TimestampIsBare(lib, style, r.timestamp);
    DecIsBare(r.thread);
  }

  lemma LossesAreReadable(includeSource: bool, r: Record)
    ensures AllReadable(SourceFields(includeSource, r)) && AllReadable(TruncationFields(r))
  {
    DecIsBare(r.truncatedAttributes);
    DecIsBare(r.truncatedBytes);
  }

  lemma AttributesReadable(lib: Library, r: Record)
    requires LibraryIsBare(lib)
    ensures AllSound(AttributeFields(lib, r.attributes))
    ensures AllReadable(AttributeFields(lib, r.attributes)) <==> KeysWithoutEquals(r)
  {
    var fields := AttributeFields(lib, r.attributes);
    forall i | 0 <= i < |fields| ensures Sound(fields[i]) && fields[i].name == r.attributes[i].key {
      AttributeIsSound(lib, r.attributes[i]);
    }
    if AllReadable(fields) {
      forall i | 0 <= i < |r.attributes| ensures Without(IsEquals, r.attributes[i].key) { assert Readable(fields[i]); }
    }
  }

  lemma ReadableAreSound(fields: seq<Field>)
    requires AllReadable(fields)
    ensures AllSound(fields)
  {
    forall i | 0 <= i < |fields| ensures Sound(fields[i]) { assert Readable(fields[i]); }
  }

  lemma FieldsReadable(lib: Library, style: TimestampStyle, includeSource: bool, r: Record)
    requires LibraryIsBare(lib)
    ensures var fields := LineFields(lib, style, includeSource, r);
      AllSound(fields) && (AllReadable(fields) <==> KeysWithoutEquals(r))
  {
    var head, attributes := HeadFields(lib, style, r), AttributeFields(lib, r.attributes);
    var source, losses := SourceFields(includeSource, r), TruncationFields(r);
    HeadIsReadable(lib, style, r);
    AttributesReadable(lib, r);
    LossesAreReadable(includeSource, r);
    ReadableAreSound(head);
    ReadableAreSound(source);
    ReadableAreSound(losses);
    FieldsOfBoth(attributes, losses);
    FieldsOfBoth(source, attributes + losses);
    FieldsOfBoth(head, source + (attributes + losses));
  }

  // ----- What the fields tell

  /** A numeral, and the number it denotes. */
  predicate Numeral(v: FieldValue, n: int) {
    v.Bare? && Json.ParseNumber(v.text) == Json.Parsed(n, "")
  }

  /** A field tells an attribute: its key, and the same text, truth value or number; a double by its own text. */
  predicate AttributeTold(lib: Library, a: Attribute, f: Field) {
    && f.name == a.key
    && match a.value
       case Signed(i) => Numeral(f.value, i)
       case Unsigned(n) => Numeral(f.value, n)
       case Double(bits) => f.value == Bare(lib.doubleText(bits))
       case Boolean(b) => f.value == Bare(if b then "true" else "false")
       case Text(t) => f.value == Quoted(t)
  }

  lemma NumeralOf(i: int)
    ensures Numeral(Bare(SignedDec(i)), i)
  {
    Json.ParseSigned(i, "");
    assert SignedDec(i) + "" == SignedDec(i);
  }

  lemma AttributeFieldTells(lib: Library, a: Attribute)
    ensures AttributeTold(lib, a, AttributeField(lib, a))
  {
    match a.value {
      case Signed(i) => NumeralOf(i);
      case Unsigned(n) => NumeralOf(n);
      case Double(_) => case Boolean(_) => case Text(_) =>
    }
  }

  /** The five fields that every line begins with. */
  ghost predicate HeadTold(lib: Library, style: TimestampStyle, r: Record, fs: seq<Field>) {
    && |fs| >= 5
    && fs[0].name == "ts" && fs[0].value.Bare?
    && TimestampTold(lib.calendar, style, r.timestamp, fs[0].value.text)
    && fs[1].name == "level" && fs[1].value.Bare? && LevelOf(fs[1].value.text) == Some(r.level)
    && fs[2] == Field("logger", Quoted(r.logger)) && fs[3] == Field("msg", Quoted(r.message))
    && fs[4].name == "thread_id" && Numeral(fs[4].value, r.thread)
  }

  ghost predicate AttributesTold(lib: Library, attributes: seq<Attribute>, fs: seq<Field>) {
    |fs| == |attributes| && forall i :: 0 <= i < |fs| ==> AttributeTold(lib, attributes[i], fs[i])
  }

  ghost predicate SourceTold(r: Record, fs: seq<Field>) {
    |fs| == 1 && fs[0].name == "source" && fs[0].value.Quoted? && SplitSource(fs[0].value.text) == Some(r.source)
  }

  /** Both losses, or nothing if there is none. */
  ghost predicate LossesTold(r: Record, fs: seq<Field>) {
    if fs == [] then r.truncatedAttributes == r.truncatedBytes == 0
    else
      && |fs| == 2 && fs[0].name == "truncated_attrs" && fs[1].name == "truncated_bytes"
      && Numeral(fs[0].value, r.truncatedAttributes) && Numeral(fs[1].value, r.truncatedBytes)
  }

  /** The whole record, in the order of the line. */
  ghost predicate LineTold(lib: Library, style: TimestampStyle, includeSource: bool, r: Record, fs: seq<Field>) {
    var head := if includeSource then 6 else 5;
    var all := head + |r.attributes|;
    && |fs| >= all
    && HeadTold(lib, style, r, fs)
    && (includeSource ==> SourceTold(r, fs[5..6]))
    && AttributesTold(lib, r.attributes, fs[head..all])
    && LossesTold(r, fs[all..])
  }

  lemma HeadTells(lib: Library, style: TimestampStyle, r: Record)
    ensures HeadTold(lib, style, r, HeadFields(lib, style, r))
  {
    TimestampExactly(lib.calendar, style, r.timestamp);
    NamesAreLevels(LevelName(r.level), r.level);
    NumeralOf(r.thread);
  }

  lemma LossesTell(r: Record)
    ensures LossesTold(r, TruncationFields(r))
  {
    NumeralOf(r.truncatedAttributes);
    NumeralOf(r.truncatedBytes);
  }

  lemma AttributesTell(lib: Library, attributes: seq<Attribute>)
    ensures AttributesTold(lib, attributes, AttributeFields(lib, attributes))
  {
    forall i | 0 <= i < |attributes|
      ensures AttributeTold(lib, attributes[i], AttributeFields(lib, attributes)[i])
    {
      AttributeFieldTells(lib, attributes[i]);
    }
  }

  /** A piece at the front of what comes behind another. */
  lemma SecondPiece<T>(a: seq<T>, b: seq<T>, c: seq<T>)
    ensures var all := a + (b + c); all[..|a|] == a && all[|a|..|a| + |b|] == b && all[|a| + |b|..] == c
  {
    var all := a + (b + c);
    assert all[..|a|] == a;
    assert all[|a|..|a| + |b|] == b;
    assert all[|a| + |b|..] == c;
  }

  lemma Regrouped<T>(a: seq<T>, b: seq<T>, c: seq<T>)
    ensures a + (b + c) == (a + b) + c
  {
  }

  lemma FourPieces<T>(a: seq<T>, b: seq<T>, c: seq<T>, d: seq<T>)
    ensures var all := a + (b + (c + d));
      && |all| == |a| + |b| + |c| + |d| && all[..|a|] == a && all[|a|..|a| + |b|] == b
      && all[|a| + |b|..|a| + |b| + |c|] == c && all[|a| + |b| + |c|..] == d
  {
    SecondPiece(a, b, c + d);
    Regrouped(a, b, c + d);
    SecondPiece(a + b, c, d);
  }

  /** The fields of a line tell the whole record. */
  lemma LineFieldsTell(lib: Library, style: TimestampStyle, includeSource: bool, r: Record)
    ensures LineTold(lib, style, includeSource, r, LineFields(lib, style, includeSource, r))
  {
    var fs := LineFields(lib, style, includeSource, r);
    FourPieces(HeadFields(lib, style, r), SourceFields(includeSource, r), AttributeFields(lib, r.attributes),
               TruncationFields(r));
    HeadTells(lib, style, r);
    assert forall i :: 0 <= i < 5 ==> fs[..5][i] == fs[i];
    SplitSourceText(r.source);
    AttributesTell(lib, r.attributes);
    LossesTell(r);
  }

  /** A reader recovers every field of a line, in order, the times and numbers as printed and all texts as
      they were logged, exactly if no key contains an equals sign. */
  lemma ReadsLogFmtExactly(lib: Library, style: TimestampStyle, includeSource: bool, r: Record)
    requires LibraryIsBare(lib)
    ensures ReadFields(LogFmtLine(lib, style, includeSource, r)) == Some(LineFields(lib, style, includeSource, r))
       <==> KeysWithoutEquals(r)
  {
    LineShown(lib, style, includeSource, r);
    FieldsReadable(lib, style, includeSource, r);
    ReadShownExactly(LineFields(lib, style, includeSource, r));
  }

  /** Then what is read tells the whole record: time, level, texts, thread, source, attributes and losses. */
  lemma ReadUndoesLogFmt(lib: Library, style: TimestampStyle, includeSource: bool, r: Record)
    requires LibraryIsBare(lib) && KeysWithoutEquals(r)
    ensures var read := ReadFields(LogFmtLine(lib, style, includeSource, r));
      && read == Some(LineFields(lib, style, includeSource, r))
      && LineTold(lib, style, includeSource, r, read.value)
  {
    ReadsLogFmtExactly(lib, style, includeSource, r);
    LineFieldsTell(lib, style, includeSource, r);
  }

  /** So lines of records whose keys have no equals signs differ if any field does. */
  lemma LogFmtIsInjective(lib: Library, style: TimestampStyle, includeSource: bool, a: Record, b: Record)
    requires LibraryIsBare(lib) && KeysWithoutEquals(a) && KeysWithoutEquals(b)
    ensures LogFmtLine(lib, style, includeSource, a) == LogFmtLine(lib, style, includeSource, b) ==>
              LineFields(lib, style, includeSource, a) == LineFields(lib, style, includeSource, b)
  {
    ReadUndoesLogFmt(lib, style, includeSource, a);
    ReadUndoesLogFmt(lib, style, includeSource, b);
  }

  lemma NumberAttribute(lib: Library, key: string, digit: nat)
    requires PlainText(key) && digit < 10
    ensures TextAttribute(lib, Attribute(key, Unsigned(digit), Default)) == key + "=" + [DigitChar(digit)]
  {
    PlainStays(key);
  }

  lemma TwoAttributes(lib: Library, a: Attribute, b: Attribute)
    ensures LogFmtAttributes(lib, [a]) == " " + TextAttribute(lib, a)
    ensures LogFmtAttributes(lib, [a, b]) == " " + TextAttribute(lib, a) + " " + TextAttribute(lib, b)
  {
    assert [a][..0] == [] && [a, b][..1] == [a];
    assert LogFmtAttributes(lib, []) + " " == " ";
  }

  /** Keys are printed without quotation marks, so one that contains an equals sign can pass for two attributes. */
  lemma KeyForgesFields(lib: Library, style: TimestampStyle, includeSource: bool, r: Record)
    ensures var one := r.(attributes := [Attribute("a=1 b", Unsigned(2), Default)]);
      var two := r.(attributes := [Attribute("a", Unsigned(1), Default), Attribute("b", Unsigned(2), Default)]);
      LogFmtLine(lib, style, includeSource, one) == LogFmtLine(lib, style, includeSource, two)
  {
    var a, b := Attribute("a", Unsigned(1), Default), Attribute("b", Unsigned(2), Default);
    NumberAttribute(lib, "a=1 b", 2);
    NumberAttribute(lib, "a", 1);
    NumberAttribute(lib, "b", 2);
    TwoAttributes(lib, Attribute("a=1 b", Unsigned(2), Default), b);
    TwoAttributes(lib, a, b);
    ForgedText([DigitChar(1)], [DigitChar(2)]);
    assert [DigitChar(1)] == "1";
  }

  lemma ForgedText(one: string, two: string)
    requires one == "1"
    ensures " " + ("a=1 b" + "=" + two) == " " + ("a" + "=" + one) + " " + ("b" + "=" + two)
  {
  }
}
