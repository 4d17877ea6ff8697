/** The JSON formatter: one record, one line, one JSON text. */
module JsonFormatter {
  import opened Basics
  import opened Records
  import opened Decimal
  import opened Formatting
  import opened Json

  function LevelName(level: LogLevel): string {
    match level
    case Trace => "Trace"
    case Debug => "Debug"
    case Info => "Info"
    case Warn => "Warn"
    case Error => "Error"
    case Fatal => "Fatal"
    case Off => "Off"
  }

  /** The level that a name stands for. */
  function LevelOf(name: string): Option<LogLevel> {
    if name == "Trace" then Some(Trace)
    else if name == "Debug" then Some(Debug)
    else if name == "Info" then Some(Info)
    else if name == "Warn" then Some(Warn)
    else if name == "Error" then Some(Error)
    else if name == "Fatal" then Some(Fatal)
    else if name == "Off" then Some(Off)
    else None
  }

  /** Every level has the name of its own that stands for it, and only these names stand for one. */
  lemma NamesAreLevels(name: string, level: LogLevel)
    ensures LevelOf(name) == Some(level) <==> name == LevelName(level)
  {
  }

  /** What the C++ library decides: the calendar, and the text of a double. */
  datatype Library = Library(calendar: Calendar, doubleText: u64 -> string)

  // ----- The JSON value of a record

  /** The text of a double is put in as it is: a number of JSON, if it is finite. */
  function DoubleJson(text: string): Json {
    var j := NumberJson(text);
    if j.Some? then j.value else Raw(text)
  }

  lemma DoubleShows(text: string)
    ensures Show(DoubleJson(text)) == text
  {
    if NumberJson(text).Some? { NumberShows(text); }
  }

  function ValueJson(lib: Library, v: Value): Json {
    match v
    case Signed(i) => Number(i)
    case Unsigned(n) => Number(n)
    case Double(bits) => DoubleJson(lib.doubleText(bits))
    case Boolean(b) => Json.Boolean(b)
    case Text(t) => String(t)
  }

  function AttributeMember(lib: Library, a: Attribute): Member {
    Member(a.key, ValueJson(lib, a.value))
  }

  function AttributeMembers(lib: Library, attributes: seq<Attribute>): (r: seq<Member>)
    ensures |r| == |attributes|
    ensures forall i :: 0 <= i < |r| ==> r[i] == AttributeMember(lib, attributes[i])
  {
    seq(|attributes|, i requires 0 <= i < |attributes| => AttributeMember(lib, attributes[i]))
  }

  function TimestampJson(lib: Library, style: TimestampStyle, timestamp: u64): Json {
    match style
    case EpochNanoseconds => Number(timestamp)
    case EpochMilliseconds => Number(timestamp / 1_000_000)
    case _ => Raw(TimestampText(lib.calendar, style, timestamp))
  }

  function SourceText(source: Source): string { source.file + ":" + Dec(source.line) }

  /** The members of the line's object, in order. */
  function RecordMembers(lib: Library, style: TimestampStyle, r: Record): seq<Member> {
    [ Member("timestamp", TimestampJson(lib, style, r.timestamp)),
      Member("level", String(LevelName(r.level))),
      Member("logger", String(r.logger)),
      Member("message", String(r.message)),
      Member("source", String(SourceText(r.source))),
      Member("thread_id", Number(r.thread)),
      Member("attributes", Object(AttributeMembers(lib, r.attributes))),
      Member("truncated_attributes", Number(r.truncatedAttributes)),
      Member("truncated_bytes", Number(r.truncatedBytes)) ]
  }

  function RecordJson(lib: Library, style: TimestampStyle, r: Record): Json {
    Object(RecordMembers(lib, style, r))
  }

  // ----- Printing it piece by piece

  lemma FirstShown(members: seq<Member>)
    requires |members| > 1
    ensures ShowMembers(members) == ShowMember(members[0]) + "," + ShowMembers(members[1..])
  {
  }

  lemma ThreeShown(first: string, rest: string, last: string)
    ensures first + "," + (rest + "," + last) == (first + "," + rest) + "," + last
  {
  }

  lemma {:induction false} ShowOneMore(members: seq<Member>, m: Member)
    ensures ShowMembers(members + [m]) ==
              if members == [] then ShowMember(m) else ShowMembers(members) + "," + ShowMember(m)
  {
    if |members| == 0 {
      assert members + [m] == [m];
    } else {
      assert (members + [m])[1..] == members[1..] + [m] && (members + [m])[0] == members[0];
      FirstShown(members + [m]);
      ShowOneMore(members[1..], m);
      if |members| > 1 {
        FirstShown(members);
        ThreeShown(ShowMember(members[0]), ShowMembers(members[1..]), ShowMember(m));
      }
    }
  }

  predicate PlainName(name: string) { forall i :: 0 <= i < |name| ==> IsPlain(name[i]) }

  /** What comes before a member's value. */
  function Label(name: string): string { "\"" + name + "\":" }

  /** The same, behind a comma unless the member is the first. */
  function Lead(first: bool, name: string): string { (if first then "" else ",") + Label(name) }

  lemma Regroup(shown: string, comma: string, name: string, value: string)
    ensures shown + (comma + name) + value == shown + comma + (name + value)
  {
  }

  lemma Behind(start: string, shown: string, comma: string, one: string)
    ensures start + (shown + comma + one) == start + shown + comma + one
  {
  }

  lemma Wrapped(start: string, shown: string, lead: string, open: string, inner: string, close: string)
    ensures start + shown + (lead + open) + inner + close == start + (shown + lead + (open + inner + close))
  {
  }

  lemma LeadThenValue(members: seq<Member>, name: string, value: Json)
    requires PlainName(name)
    ensures ShowMembers(members) + Lead(members == [], name) + Show(value)
            == ShowMembers(members + [Member(name, value)])
  {
    PlainStays(name);
    ShowOneMore(members, Member(name, value));
    Regroup(ShowMembers(members), if members == [] then "" else ",", Label(name), Show(value));
    assert ShowMember(Member(name, value)) == Label(name) + Show(value);
    assert ShowMembers([]) + "" + ShowMember(Member(name, value)) == ShowMember(Member(name, value));
  }

  method AppendTextMember(output: Output, start: string, ghost members: seq<Member>, name: string, value: string)
    requires PlainName(name) && members != [] && output.text == start + ShowMembers(members)
    modifies output
    ensures output.text == start + ShowMembers(members + [Member(name, String(value))])
  {
    ghost var shown := ShowMembers(members);
    LeadThenValue(members, name, String(value));
    Wrapped(start, shown, Lead(false, name), "\"", JsonEscaped(value), "\"");
    AppendString(output, Lead(false, name) + "\"");
    AppendJsonEscapedText(output, value);
    AppendString(output, "\"");
  }

  /** A colon and digits need no escape. */
  lemma SourceEscapes(source: Source)
    ensures JsonEscaped(SourceText(source)) == JsonEscaped(source.file) + ":" + Dec(source.line)
    ensures Escaped(SourceText(source)) == Escaped(source.file) + ":" + Dec(source.line)
  {
    var digits := Dec(source.line);
    MappedConcat(JsonEscapedChar, source.file + ":", digits);
    MappedConcat(JsonEscapedChar, source.file, ":");
    MappedConcat(EscapedChar, source.file + ":", digits);
    MappedConcat(EscapedChar, source.file, ":");
    forall i | 0 <= i < |digits| ensures IsPlain(digits[i]) { assert IsDigit(digits[i]); }
    PlainStays(digits);
    PlainStays(":");
  }

  method AppendSourceMember(output: Output, start: string, ghost members: seq<Member>, source: Source)
    requires members != [] && output.text == start + ShowMembers(members)
    modifies output
    ensures output.text == start + ShowMembers(members + [Member("source", String(SourceText(source)))])
  {
    ghost var shown := ShowMembers(members);
    LeadThenValue(members, "source", String(SourceText(source)));
    SourceEscapes(source);
    var lead := Lead(false, "source") + "\"";
    Wrapped(start, shown, Lead(false, "source"), "\"", JsonEscaped(SourceText(source)), "\"");
    AppendString(output, lead);
    AppendJsonEscapedText(output, source.file);
    AppendString(output, ":");
    AppendUnsigned(output, source.line);
    Behind(start + shown + lead, JsonEscaped(source.file), ":", Dec(source.line));
    AppendString(output, "\"");
  }

  method AppendNumberMember(output: Output, start: string, ghost members: seq<Member>, name: string, value: u64)
    requires PlainName(name) && members != [] && output.text == start + ShowMembers(members)
    modifies output
    ensures output.text == start + ShowMembers(members + [Member(name, Number(value))])
  {
    LeadThenValue(members, name, Number(value));
    Wrapped(start, ShowMembers(members), Lead(false, name), "", Dec(value), "");
    AppendString(output, Lead(false, name));
    AppendUnsigned(output, value);
    assert Lead(false, name) + "" == Lead(false, name) && "" + Dec(value) + "" == Dec(value);
  }

  method AppendJsonAttributeValue(output: Output, lib: Library, value: Value)
    modifies output
    ensures output.text == old(output.text) + Show(ValueJson(lib, value))
  {
    match value {
      case Signed(i) => AppendSigned(output, i);
      case Unsigned(n) => AppendUnsigned(output, n);
      case Double(bits) =>
        DoubleShows(lib.doubleText(bits));
        AppendString(output, lib.doubleText(bits));
      case Boolean(b) => AppendString(output, if b then "true" else "false");
      case Text(t) =>
        AppendString(output, "\"");
        AppendJsonEscapedText(output, t);
        AppendString(output, "\"");
        assert old(output.text) + "\"" + JsonEscaped(t) + "\"" == old(output.text) + ("\"" + JsonEscaped(t) + "\"");
    }
  }

  method AppendAttribute(output: Output, lib: Library, a: Attribute)
    modifies output
    ensures output.text == old(output.text) + ShowMember(AttributeMember(lib, a))
  {
    AppendString(output, "\"");
    AppendJsonEscapedText(output, a.key);
    AppendString(output, "\":");
    AppendJsonAttributeValue(output, lib, a.value);
    MemberBehind(old(output.text), JsonEscaped(a.key), Show(ValueJson(lib, a.value)));
  }

  lemma MemberBehind(start: string, name: string, value: string)
    ensures start + "\"" + name + "\":" + value == start + ("\"" + name + "\":" + value)
  {
  }

  method AppendAttributes(output: Output, lib: Library, attributes: seq<Attribute>)
    modifies output
    ensures output.text == old(output.text) + ShowMembers(AttributeMembers(lib, attributes))
  {
    ghost var members := AttributeMembers(lib, attributes);
    var i := 0;
    while i < |attributes|
      invariant i <= |attributes|
      invariant output.text == old(output.text) + ShowMembers(members[..i])
    {
      ghost var start, shown, one := old(output.text), ShowMembers(members[..i]), ShowMember(members[i]);
      OneMoreBehind(start, members, i);
      if i > 0 {
        AppendString(output, ",");
      }
      AppendAttribute(output, lib, attributes[i]);
      i := i + 1;
    }
    assert members[..i] == members;
  }

  lemma OneMoreBehind(start: string, members: seq<Member>, i: nat)
    requires i < |members|
    ensures start + ShowMembers(members[..i + 1]) ==
              (start + ShowMembers(members[..i])) + (if i > 0 then "," else "") + ShowMember(members[i])
  {
    assert members[..i + 1] == members[..i] + [members[i]];
    ShowOneMore(members[..i], members[i]);
    Behind(start, ShowMembers(members[..i]), if i > 0 then "," else "", ShowMember(members[i]));
    assert ShowMembers([]) + "" + ShowMember(members[i]) == ShowMember(members[i]);
  }

  method AppendAttributesMember(output: Output, lib: Library, start: string, ghost members: seq<Member>,
                                attributes: seq<Attribute>)
    requires members != [] && output.text == start + ShowMembers(members)
    modifies output
    ensures output.text
            == start + ShowMembers(members + [Member("attributes", Object(AttributeMembers(lib, attributes)))])
  {
    ghost var inner := AttributeMembers(lib, attributes);
    LeadThenValue(members, "attributes", Object(inner));
    Wrapped(start, ShowMembers(members), Lead(false, "attributes"), "{", ShowMembers(inner), "}");
    AppendString(output, Lead(false, "attributes") + "{");
    AppendAttributes(output, lib, attributes);
    AppendString(output, "}");
  }

  lemma TimestampShown(lib: Library, style: TimestampStyle, timestamp: u64)
    ensures Show(TimestampJson(lib, style, timestamp)) == TimestampText(lib.calendar, style, timestamp)
  {
  }

  method AppendTimestampMember(output: Output, lib: Library, style: TimestampStyle, timestamp: u64, ghost value: Json)
    requires output.text == "{" && Show(value) == TimestampText(lib.calendar, style, timestamp)
    modifies output
    ensures output.text == "{" + ShowMembers([Member("timestamp", value)])
  {
    AppendString(output, Lead(true, "timestamp"));
    AppendTimestamp(output, lib.calendar, timestamp, style, TimeParts("", ""));
    LeadThenValue([], "timestamp", value);
    assert [] + [Member("timestamp", value)] == [Member("timestamp", value)];
    assert output.text == "{" + (ShowMembers([]) + Lead(true, "timestamp") + Show(value));
  }

  lemma NamesArePlain()
    ensures PlainName("level") && PlainName("logger") && PlainName("message") && PlainName("source")
    ensures PlainName("thread_id") && PlainName("attributes")
    ensures PlainName("truncated_attributes") && PlainName("truncated_bytes")
  {
  }

  method FormatTexts(output: Output, lib: Library, style: TimestampStyle, r: Record, ghost all: seq<Member>)
    requires all == RecordMembers(lib, style, r) && output.text == "{" + ShowMembers(all[..1])
    modifies output
    ensures output.text == "{" + ShowMembers(all[..5])
  {
    NamesArePlain();
    AppendTextMember(output, "{", all[..1], "level", LevelName(r.level));
    assert all[..2] == all[..1] + [all[1]];
    AppendTextMember(output, "{", all[..2], "logger", r.logger);
    assert all[..3] == all[..2] + [all[2]];
    AppendTextMember(output, "{", all[..3], "message", r.message);
    assert all[..4] == all[..3] + [all[3]];
    AppendSourceMember(output, "{", all[..4], r.source);
    assert all[..5] == all[..4] + [all[4]];
  }

  method FormatNumbers(output: Output, lib: Library, style: TimestampStyle, r: Record, ghost all: seq<Member>)
    requires all == RecordMembers(lib, style, r) && output.text == "{" + ShowMembers(all[..5])
    modifies output
    ensures output.text == "{" + ShowMembers(all)
  {
    NamesArePlain();
    AppendNumberMember(output, "{", all[..5], "thread_id", r.thread);
    assert all[..6] == all[..5] + [all[5]];
    AppendAttributesMember(output, lib, "{", all[..6], r.attributes);
    assert all[..7] == all[..6] + [all[6]];
    AppendNumberMember(output, "{", all[..7], "truncated_attributes", r.truncatedAttributes);
    assert all[..8] == all[..7] + [all[7]];
    AppendNumberMember(output, "{", all[..8], "truncated_bytes", r.truncatedBytes);
    assert all == all[..8] + [all[8]];
  }

  /** The line is the text of the record's JSON value, and a newline. */
  method Format(output: Output, lib: Library, style: TimestampStyle, r: Record)
    modifies output
    ensures output.text == Show(RecordJson(lib, style, r)) + "\n"
  {
    ghost var all := RecordMembers(lib, style, r);
    output.text := "{";
    TimestampShown(lib, style, r.timestamp);
    AppendTimestampMember(output, lib, style, r.timestamp, all[0].value);
    assert all[..1] == [all[0]];
    FormatTexts(output, lib, style, r, all);
    FormatNumbers(output, lib, style, r, all);
    AppendString(output, "}\n");
    assert output.text == "{" + ShowMembers(all) + "}" + "\n";
  }

  // ----- Reading the line back

  /** The last colon of a text that ends in digits splits it. */
  function SplitSource(s: string): Option<Source>
  {
    var n := TrailingDigits(s);
    if n == 0 || n >= |s| || s[|s| - n - 1] != ':' || NumberOf(s[|s| - n..]) >= WIDE then None
    else Some(Source(s[..|s| - n - 1], NumberOf(s[|s| - n..])))
  }

  function TrailingDigits(s: string): (n: nat)
    ensures n <= |s| && AllDigits(s[|s| - n..]) && (n < |s| ==> !IsDigit(s[|s| - n - 1]))
  {
    if s == "" || !IsDigit(s[|s| - 1]) then 0
    else
      var n := TrailingDigits(s[..|s| - 1]);
      OneDigitMore(s, n);
      n + 1
  }

  lemma OneDigitMore(s: string, n: nat)
    requires s != "" && n < |s| && AllDigits(s[..|s| - 1][|s| - 1 - n..]) && IsDigit(s[|s| - 1])
    ensures AllDigits(s[|s| - (n + 1)..])
  {
    assert s[|s| - (n + 1)..] == s[..|s| - 1][|s| - 1 - n..] + [s[|s| - 1]];
  }

  lemma {:induction false} TrailingDigitsOf(before: string, digits: string)
    requires AllDigits(digits) && before != "" && !IsDigit(before[|before| - 1])
    ensures TrailingDigits(before + digits) == |digits|
  {
    if digits == "" {
      assert before + digits == before;
    } else {
      TrailingDigitsOf(before, digits[..|digits| - 1]);
      assert (before + digits)[..|before + digits| - 1] == before + digits[..|digits| - 1];
    }
  }

  lemma SplitSourceText(source: Source)
    ensures SplitSource(SourceText(source)) == Some(source)
  {
    var s, digits := SourceText(source), Dec(source.line);
    assert s == (source.file + ":") + digits;
    TrailingDigitsOf(source.file + ":", digits);
    NumberOfDec(source.line);
    assert s[|s| - |digits|..] == digits && s[..|s| - |digits| - 1] == source.file;
  }

  /** What a reader recovers from a line. The number of a signed and of an unsigned attribute look alike. */
  datatype Facts = Facts(
    timestamp: int, level: string, logger: string, message: string, source: Source, thread: int,
    attributes: seq<Member>, truncatedAttributes: int, truncatedBytes: int)

  function FactsOf(lib: Library, style: TimestampStyle, r: Record): Facts {
    Facts(if style.EpochMilliseconds? then r.timestamp / 1_000_000 else r.timestamp,
          LevelName(r.level), r.logger, r.message, r.source, r.thread,
          AttributeMembers(lib, r.attributes), r.truncatedAttributes, r.truncatedBytes)
  }

  /** A value read back is the value logged: the same truth value, the same integer, the same text, and of a double
      the number that its text denotes. */
  predicate ValueRecovered(lib: Library, v: Value, j: Json) {
    match v
    case Signed(i) => j == Number(i)
    case Unsigned(n) => j == Number(n)
    case Double(bits) => NumberJson(lib.doubleText(bits)) == Some(j)
    case Boolean(b) => j.Boolean? && (j.b <==> b)
    case Text(t) => j == String(t)
  }

  /** Every field of the record stands in what was read: level, texts, source, thread and losses as they were, the
      time in the unit of the style, and each attribute under its key. */
  ghost predicate Recovered(lib: Library, style: TimestampStyle, r: Record, f: Facts) {
    && (style.EpochNanoseconds? ==> f.timestamp == r.timestamp)
    && (style.EpochMilliseconds? ==> f.timestamp * 1_000_000 <= r.timestamp < (f.timestamp + 1) * 1_000_000)
    && LevelOf(f.level) == Some(r.level)
    && f.logger == r.logger && f.message == r.message && f.source == r.source && f.thread == r.thread
    && |f.attributes| == |r.attributes|
    && (forall i :: 0 <= i < |r.attributes| ==>
          f.attributes[i].name == r.attributes[i].key
          && ValueRecovered(lib, r.attributes[i].value, f.attributes[i].value))
    && f.truncatedAttributes == r.truncatedAttributes && f.truncatedBytes == r.truncatedBytes
  }

  lemma FactsAreRecovered(lib: Library, style: TimestampStyle, r: Record)
    requires DoublesAreNumbers(lib, r) && !IsIso(style)
    ensures Recovered(lib, style, r, FactsOf(lib, style, r))
  {
    NamesAreLevels(LevelName(r.level), r.level);
    forall i | 0 <= i < |r.attributes|
      ensures FactsOf(lib, style, r).attributes[i].name == r.attributes[i].key
      ensures ValueRecovered(lib, r.attributes[i].value, FactsOf(lib, style, r).attributes[i].value)
    {
    }
  }

  lemma RecoveredDoubles(lib: Library, style: TimestampStyle, r: Record, f: Facts)
    requires Recovered(lib, style, r, f)
    ensures DoublesAreNumbers(lib, r)
  {
  }

  function ReadLine(line: string): Option<Facts> {
    var parsed := ParseValue(line);
    if parsed.Failed? || parsed.rest != "\n" then None
    else ReadObject(parsed.value)
  }

  predicate IsNumber(m: Member, name: string) { m.name == name && m.value.Number? }

  predicate IsString(m: Member, name: string) { m.name == name && m.value.String? }

  predicate IsRecord(members: seq<Member>) {
    && |members| == 9
    && IsNumber(members[0], "timestamp") && IsString(members[1], "level") && IsString(members[2], "logger")
    && IsString(members[3], "message") && IsString(members[4], "source") && IsNumber(members[5], "thread_id")
    && members[6].name == "attributes" && members[6].value.Object?
    && IsNumber(members[7], "truncated_attributes") && IsNumber(members[8], "truncated_bytes")
  }

  function ReadObject(j: Json): Option<Facts> {
    if !j.Object? || !IsRecord(j.members) then None
    else
      var m := j.members;
      var source := SplitSource(m[4].value.s);
      if source.None? then None
      else Some(Facts(m[0].value.i, m[1].value.s, m[2].value.s, m[3].value.s, source.value, m[5].value.i,
                      m[6].value.members, m[7].value.i, m[8].value.i))
  }

  /** Every double among the attributes is printed as a number. */
  predicate DoublesAreNumbers(lib: Library, r: Record) {
    forall i :: 0 <= i < |r.attributes| && r.attributes[i].value.Double? ==>
      NumberJson(lib.doubleText(r.attributes[i].value.bits)).Some?
  }

  lemma ValueIsClean(lib: Library, v: Value)
    requires v.Double? ==> NumberJson(lib.doubleText(v.bits)).Some?
    ensures Clean(ValueJson(lib, v))
  {
  }

  lemma RecordIsClean(lib: Library, style: TimestampStyle, r: Record)
    requires DoublesAreNumbers(lib, r) && !IsIso(style)
    ensures Clean(RecordJson(lib, style, r))
  {
    var attributes := AttributeMembers(lib, r.attributes);
    assert Clean(Object(attributes)) by {
      forall i | 0 <= i < |attributes| ensures Clean(attributes[i].value) {
        ValueIsClean(lib, r.attributes[i].value);
      }
    }
    var members := RecordMembers(lib, style, r);
    forall i | 0 <= i < |members| ensures Clean(members[i].value) {
    }
  }

  /** With an epoch timestamp style and finite doubles, reading a printed line gives back every field. */
  lemma ReadUndoesFormat(lib: Library, style: TimestampStyle, r: Record)
    requires DoublesAreNumbers(lib, r) && !IsIso(style)
    ensures ReadLine(Show(RecordJson(lib, style, r)) + "\n") == Some(FactsOf(lib, style, r))
    ensures Recovered(lib, style, r, FactsOf(lib, style, r))
  {
    FactsAreRecovered(lib, style, r);
    RecordIsClean(lib, style, r);
    ParseShow(RecordJson(lib, style, r), "\n");
    ReadRecordJson(lib, style, r);
  }

  lemma ReadRecordJson(lib: Library, style: TimestampStyle, r: Record)
    requires !IsIso(style)
    ensures ReadObject(RecordJson(lib, style, r)) == Some(FactsOf(lib, style, r))
  {
    IsRecordJson(lib, style, r);
    SplitSourceText(r.source);
  }

  lemma IsRecordJson(lib: Library, style: TimestampStyle, r: Record)
    requires !IsIso(style)
    ensures IsRecord(RecordMembers(lib, style, r))
  {
  }

  /** So two records that print alike agree in every field. */
  lemma LinesAreInjective(lib: Library, style: TimestampStyle, a: Record, b: Record)
    requires DoublesAreNumbers(lib, a) && DoublesAreNumbers(lib, b) && !IsIso(style)
    requires Show(RecordJson(lib, style, a)) == Show(RecordJson(lib, style, b))
    ensures FactsOf(lib, style, a) == FactsOf(lib, style, b)
    ensures |a.attributes| == |b.attributes|
    ensures forall i :: 0 <= i < |a.attributes| ==>
              a.attributes[i].key == b.attributes[i].key
              && ValueJson(lib, a.attributes[i].value) == ValueJson(lib, b.attributes[i].value)
  {
    ReadUndoesFormat(lib, style, a);
    ReadUndoesFormat(lib, style, b);
    var ms, ns := FactsOf(lib, style, a).attributes, FactsOf(lib, style, b).attributes;
    forall i | 0 <= i < |a.attributes|
      ensures a.attributes[i].key == b.attributes[i].key
              && ValueJson(lib, a.attributes[i].value) == ValueJson(lib, b.attributes[i].value)
    {
      assert ms[i] == ns[i];
    }
  }

  // ----- Where the line is no JSON

  /** No reader of JSON finds raw text in a line. */
  lemma RawIsMisread(lib: Library, style: TimestampStyle, r: Record, line: string)
    requires !DoublesAreNumbers(lib, r)
    ensures ReadLine(line) != Some(FactsOf(lib, style, r))
  {
    var i :| 0 <= i < |r.attributes| && r.attributes[i].value.Double?
             && NumberJson(lib.doubleText(r.attributes[i].value.bits)).None?;
    var facts := FactsOf(lib, style, r);
    assert facts.attributes[i].value == Raw(lib.doubleText(r.attributes[i].value.bits));
    assert !Clean(facts.attributes[i].value);
    CleanAttributes(line);
  }

  lemma CleanAttributes(line: string)
    ensures ReadLine(line).Some? ==>
              forall i :: 0 <= i < |ReadLine(line).value.attributes| ==> Clean(ReadLine(line).value.attributes[i].value)
  {
    if ReadLine(line).Some? {
      ParsedIsClean(line);
      var members := ParseValue(line).value.members;
      assert Clean(members[6].value);
    }
  }

  /** A text that begins with digits and a minus sign, as every date does. */
  predicate BeginsAsDate(s: string) {
    var n := Digits(s);
    0 < n < |s| && s[n] == '-'
  }

  ghost predicate CalendarIsDated(lib: Library) {
    forall style, second: nat :: IsIso(style) ==> BeginsAsDate(lib.calendar(style, second).prefix)
  }

  lemma {:induction false} RunCovers(s: string, m: nat)
    requires m <= |s| && NumberChars(s[..m])
    ensures NumberRun(s) >= m
  {
    if m > 0 {
      assert s[..m][0] == s[0];
      assert s[1..][..m - 1] == s[..m][1..];
      RunCovers(s[1..], m - 1);
    }
  }

  /** Digits are as many at the front of any longer piece. */
  lemma DigitsBeforeDash(s: string, n: nat)
    requires n < |s| && AllDigits(s[..n]) && s[n] == '-'
    ensures Digits(s) == n
  {
    DigitsOf(s[..n], s[n..]);
    assert s == s[..n] + s[n..];
  }

  lemma DateIsNoNumeral(t: string, n: nat)
    requires 0 < n < |t| && AllDigits(t[..n]) && t[n] == '-'
    ensures NumberJson(t).None?
  {
    DigitsBeforeDash(t, n);
    assert IsDigit(t[..n][0]);
    assert t[n..][0] == '-';
  }

  lemma DateRuns(s: string, n: nat)
    requires n < |s| && AllDigits(s[..n]) && s[n] == '-'
    ensures NumberRun(s) > n
  {
    var front := s[..n + 1];
    forall i | 0 <= i < |front| ensures NumberChar(front[i]) {
      if i < n { assert IsDigit(s[..n][i]); }
    }
    RunCovers(s, n + 1);
  }

  lemma BadNumeral(s: string, t: string)
    requires s != "" && IsDigit(s[0]) && t == s[..NumberRun(s)] && NumberJson(t) == None
    ensures ParseValue(s).Failed?
  {
  }

  lemma DateIsNoValue(date: string, rest: string)
    requires BeginsAsDate(date)
    ensures ParseValue(date + rest).Failed?
  {
    var s, n := date + rest, Digits(date);
    assert s[..n] == date[..n] && s[n] == '-';
    DateRuns(s, n);
    var t := s[..NumberRun(s)];
    assert t[..n] == s[..n] && t[n] == '-';
    DateIsNoNumeral(t, n);
    assert IsDigit(s[..n][0]);
    BadNumeral(s, t);
  }

  lemma BadMember(m: Member, tail: string)
    requires ParseValue(Show(m.value) + tail).Failed?
    ensures ParseMembers(ShowMember(m) + tail).Failed?
  {
    Quoted(JsonEscaped(m.name), Show(m.value), tail);
    ParseEscaped(m.name, ":" + Show(m.value) + tail);
    Uncons(':', Show(m.value), tail);
  }

  lemma BadObject(s: string)
    requires |s| > 1 && s[0] == '{' && s[1] == '\"' && ParseMembers(s[1..]).Failed?
    ensures ParseValue(s).Failed?
  {
  }

  lemma Opened(first: string, more: string)
    requires first != ""
    ensures var s := "{" + (first + "," + more) + "}" + "\n";
      |s| > 1 && s[0] == '{' && s[1] == first[0] && s[1..] == first + ("," + more + "}" + "\n")
  {
  }

  lemma TimestampFirst(lib: Library, style: TimestampStyle, r: Record)
    ensures var ms := RecordMembers(lib, style, r);
      Show(RecordJson(lib, style, r)) == "{" + (ShowMember(ms[0]) + "," + ShowMembers(ms[1..])) + "}"
  {
  }

  lemma IsoTimestampFails(lib: Library, style: TimestampStyle, timestamp: u64, tail: string)
    requires CalendarIsDated(lib) && IsIso(style)
    ensures ParseValue(Show(TimestampJson(lib, style, timestamp)) + tail).Failed?
  {
    var parts := PartsOf(lib.calendar, style, timestamp / BILLION);
    var fraction := Fraction(timestamp % BILLION);
    assert BeginsAsDate(lib.calendar(style, timestamp / BILLION).prefix);
    IsoTimestampShown(lib, style, timestamp);
    DateIsNoValue(parts.prefix, "." + fraction + parts.suffix + tail);
    DateFirst(parts.prefix, fraction, parts.suffix, tail);
  }

  lemma IsoTimestampShown(lib: Library, style: TimestampStyle, timestamp: u64)
    requires IsIso(style)
    ensures var parts := PartsOf(lib.calendar, style, timestamp / BILLION);
      Show(TimestampJson(lib, style, timestamp)) == parts.prefix + "." + Fraction(timestamp % BILLION) + parts.suffix
  {
  }

  lemma DateFirst(prefix: string, fraction: string, suffix: string, tail: string)
    ensures (prefix + "." + fraction + suffix) + tail == prefix + ("." + fraction + suffix + tail)
  {
  }

  /** In an ISO style the timestamp has no quotation marks, and the line is no JSON text. */
  lemma IsoIsNoJson(lib: Library, style: TimestampStyle, r: Record)
    requires CalendarIsDated(lib) && IsIso(style)
    ensures ParseValue(Show(RecordJson(lib, style, r)) + "\n").Failed?
  {
    var ms := RecordMembers(lib, style, r);
    var more := ShowMembers(ms[1..]);
    var tail := "," + more + "}" + "\n";
    TimestampFirst(lib, style, r);
    Opened(ShowMember(ms[0]), more);
    IsoTimestampFails(lib, style, r.timestamp, tail);
    BadMember(ms[0], tail);
    BadObject(Show(RecordJson(lib, style, r)) + "\n");
  }

  /** A reader recovers every field of the record from its line exactly if the timestamp style is an epoch style
      and every double is printed as a number. */
  lemma ReadsBackExactly(lib: Library, style: TimestampStyle, r: Record)
    requires CalendarIsDated(lib)
    ensures var read := ReadLine(Show(RecordJson(lib, style, r)) + "\n");
      && (read == Some(FactsOf(lib, style, r)) <==> !IsIso(style) && DoublesAreNumbers(lib, r))
      && (read.Some? && Recovered(lib, style, r, read.value) <==> !IsIso(style) && DoublesAreNumbers(lib, r))
  {
    if IsIso(style) {
      IsoIsNoJson(lib, style, r);
    } else if DoublesAreNumbers(lib, r) {
      ReadUndoesFormat(lib, style, r);
      FactsAreRecovered(lib, style, r);
    } else {
      RawIsMisread(lib, style, r, Show(RecordJson(lib, style, r)) + "\n");
    }
  }
}
