/** A reader for what stands behind the message of a text line: the attributes, the losses and the source. */
module TailReader {
  import opened Basics
  import opened Records
  import opened Decimal
  import opened Formatting
  import opened JsonFormatter
  import opened TextFormatters
  import opened LogFmtReader
  import opened TextReader
  import Json

  datatype TailFacts = TailFacts(fields: seq<Field>, attributes: nat, bytes: nat, source: Option<Source>)

  // ----- The reader

  /** A value without quotation marks ends in front of a comma or a closing brace. */
  function EndsInList(c: char): bool { c == ',' || c == '}' }

  /** Fields separated by a comma and a blank, up to a closing brace. */
  function ReadList(s: string): (r: Read<seq<Field>>)
    ensures r.Read? ==> |r.rest| < |s|
    decreases |s|
  {
    var first := ReadField(EndsInList, s);
    if first.Malformed? || first.rest == "" then Malformed
    else if first.rest[0] == '}' then Read([first.value], first.rest[1..])
    else if !(", " <= first.rest) then Malformed
    else
      var more := ReadList(first.rest[2..]);
      if more.Malformed? then Malformed else Read([first.value] + more.value, more.rest)
  }

  function ReadAttributes(s: string): Read<seq<Field>> {
    if " {" <= s then ReadList(s[2..]) else Read([], s)
  }

  const ATTRIBUTES_LOST := " [truncated attrs="

  const BYTES_LOST := ", bytes="

  /** A number, and what has to come behind it. */
  function ReadNumber(s: string, behind: string): Read<nat> {
    var n := Json.ParseNatural(s);
    if n.Failed? || !(behind <= n.rest) then Malformed else Read(n.value, n.rest[|behind|..])
  }

  function ReadLosses(s: string): Read<(nat, nat)> {
    if !(ATTRIBUTES_LOST <= s) then Read((0, 0), s)
    else
      var attributes := ReadNumber(s[|ATTRIBUTES_LOST|..], BYTES_LOST);
      if attributes.Malformed? then Malformed
      else
        var bytes := ReadNumber(attributes.rest, "]");
        if bytes.Malformed? then Malformed else Read((attributes.value, bytes.value), bytes.rest)
  }

  /** Nothing but the end of the line, or the source in parentheses in front of it. */
  function ReadSource(s: string): Option<Option<Source>> {
    if s == "\n" then Some(None)
    else if |s| < 4 || s[..2] != " (" || s[|s| - 2..] != ")\n" then None
    else
      var text := Unescaped(s[2..|s| - 2]);
      if text.None? || SplitSource(text.value).None? then None else Some(SplitSource(text.value))
  }

  function ReadTail(s: string): Option<TailFacts> {
    var fields := ReadAttributes(s);
    if fields.Malformed? then None
    else
      var losses := ReadLosses(fields.rest);
      if losses.Malformed? then None
      else
        var source := ReadSource(losses.rest);
        if source.None? then None
        else Some(TailFacts(fields.value, losses.value.0, losses.value.1, source.value))
  }

  /** What there is to be found. */
  function TailFactsOf(lib: Library, includeSource: bool, r: Record): TailFacts {
    TailFacts(AttributeFields(lib, r.attributes), r.truncatedAttributes, r.truncatedBytes,
              if includeSource then Some(r.source) else None)
  }

  // ----- The attributes

  /** No text of a double contains a comma, a closing brace or a quotation mark. */
  ghost predicate DoublesFitLists(lib: Library) {
    forall bits :: Without(EndsInList, lib.doubleText(bits)) && Without(IsQuote, lib.doubleText(bits))
  }

  lemma DecFitsLists(n: nat)
    ensures Without(EndsInList, Dec(n)) && Without(IsQuote, Dec(n))
  {
    forall i | 0 <= i < |Dec(n)| ensures !EndsInList(Dec(n)[i]) && !IsQuote(Dec(n)[i]) { assert IsDigit(Dec(n)[i]); }
  }

  lemma AttributeFitsList(lib: Library, a: Attribute)
    requires DoublesFitLists(lib)
    ensures SoundWith(EndsInList, AttributeField(lib, a))
  {
    match a.value {
      case Signed(i) => DecFitsLists(if i < 0 then -(i as int) else i as int);
      case Unsigned(n) => DecFitsLists(n);
      case Double(_) => case Boolean(_) => case Text(_) =>
    }
  }

  /** The text of fields in a list, with the brace and the rest behind them. */
  function ShowList(fields: seq<Field>, rest: string): string
    requires fields != []
  {
    ShowField(fields[0]) + (if |fields| == 1 then "}" + rest else ", " + ShowList(fields[1..], rest))
  }

  predicate NamesWithoutEquals(fields: seq<Field>) {
    forall i :: 0 <= i < |fields| ==> Without(IsEquals, fields[i].name)
  }

  ghost predicate AllFitList(fields: seq<Field>) {
    forall i :: 0 <= i < |fields| ==> SoundWith(EndsInList, fields[i])
  }

  lemma ReadsLast(f: Field, rest: string)
    requires Without(IsEquals, f.name) && SoundWith(EndsInList, f)
    ensures ReadList(ShowList([f], rest)) == Read([f], rest)
  {
    ReadOneWith(EndsInList, f, "}" + rest);
    assert ("}" + rest)[1..] == rest;
  }

  /** A list is read as its first field and the others. */
  lemma ReadStep(s: string, f: Field, behind: string)
    requires ReadField(EndsInList, s) == Read(f, behind) && ", " <= behind
    ensures var others := ReadList(behind[2..]);
      ReadList(s) == if others.Malformed? then Malformed else Read([f] + others.value, others.rest)
  {
  }

  lemma CommaBehind(list: string)
    ensures ", " <= ", " + list && (", " + list)[2..] == list && EndsInList((", " + list)[0])
  {
  }

  lemma ReadsFirst(fields: seq<Field>, rest: string)
    requires |fields| > 1 && Without(IsEquals, fields[0].name) && SoundWith(EndsInList, fields[0])
    ensures var others := ReadList(ShowList(fields[1..], rest));
      ReadList(ShowList(fields, rest))
      == if others.Malformed? then Malformed else Read([fields[0]] + others.value, others.rest)
  {
    var list := ShowList(fields[1..], rest);
    CommaBehind(list);
    ReadOneWith(EndsInList, fields[0], ", " + list);
    ReadStep(ShowField(fields[0]) + (", " + list), fields[0], ", " + list);
  }

  lemma SameFront(f: Field, a: seq<Field>, b: seq<Field>)
    ensures [f] + a == [f] + b <==> a == b
  {
    assert ([f] + a)[1..] == a && ([f] + b)[1..] == b;
  }

  lemma NamesOfBoth(f: Field, more: seq<Field>)
    ensures NamesWithoutEquals([f] + more) <==> Without(IsEquals, f.name) && NamesWithoutEquals(more)
  {
    var all := [f] + more;
    assert all[0] == f && forall i :: 0 <= i < |more| ==> all[i + 1] == more[i];
  }

  lemma MisreadsFirst(fields: seq<Field>, rest: string)
    requires fields != [] && !Without(IsEquals, fields[0].name)
    ensures var read := ReadList(ShowList(fields, rest)); read.Read? ==> read.value[0].name != fields[0].name
  {
    MisreadName(EndsInList, fields[0], if |fields| == 1 then "}" + rest else ", " + ShowList(fields[1..], rest));
  }

  /** What has to be shown of a list. */
  ghost predicate ReadRight(fields: seq<Field>, rest: string)
    requires fields != []
  {
    var read := ReadList(ShowList(fields, rest));
    if NamesWithoutEquals(fields) then read == Read(fields, rest) else read.Read? ==> read.value != fields
  }

  lemma OneReadRight(f: Field, rest: string)
    requires Without(IsEquals, f.name) && SoundWith(EndsInList, f)
    ensures ReadRight([f], rest)
  {
    ReadsLast(f, rest);
  }

  lemma MoreReadRight(fields: seq<Field>, rest: string)
    requires |fields| > 1 && Without(IsEquals, fields[0].name) && SoundWith(EndsInList, fields[0])
    requires ReadRight(fields[1..], rest)
    ensures ReadRight(fields, rest)
  {
    var f, more := fields[0], fields[1..];
    assert fields == [f] + more;
    NamesOfBoth(f, more);
    ReadsFirst(fields, rest);
    var others := ReadList(ShowList(more, rest));
    if others.Read? { SameFront(f, others.value, more); }
  }

  /** The fields of a list are read back exactly if no name contains an equals sign. */
  lemma {:induction false} ReadListExactly(fields: seq<Field>, rest: string)
    requires fields != [] && AllFitList(fields)
    ensures ReadRight(fields, rest)
    decreases |fields|
  {
    if !Without(IsEquals, fields[0].name) {
      MisreadsFirst(fields, rest);
    } else if |fields| == 1 {
      assert fields == [fields[0]];
      OneReadRight(fields[0], rest);
    } else {
      ReadListExactly(fields[1..], rest);
      MoreReadRight(fields, rest);
    }
  }

  // ----- The printed tail

  lemma LastTextAttribute(lib: Library, front: seq<Attribute>, a: Attribute)
    ensures TextAttributes(lib, front + [a])
         == TextAttributes(lib, front) + (if front == [] then "" else ", ") + TextAttribute(lib, a)
  {
    assert (front + [a])[..|front|] == front;
  }

  lemma OneTextAttribute(lib: Library, a: Attribute)
    ensures TextAttributes(lib, [a]) == TextAttribute(lib, a)
  {
    LastTextAttribute(lib, [], a);
    assert [] + [a] == [a];
  }

  lemma CommaBetween(first: string, mid: string, last: string)
    ensures (first + ", " + mid) + ", " + last == first + ", " + (mid + ", " + last)
  {
  }

  lemma {:induction false} FirstTextAttribute(lib: Library, a: Attribute, more: seq<Attribute>)
    requires more != []
    ensures TextAttributes(lib, [a] + more) == TextAttribute(lib, a) + ", " + TextAttributes(lib, more)
    decreases |more|
  {
    var front, last := more[..|more| - 1], more[|more| - 1];
    assert more == front + [last] && [a] + more == ([a] + front) + [last];
    LastTextAttribute(lib, [a] + front, last);
    LastTextAttribute(lib, front, last);
    if front == [] {
      assert [a] + front == [a] && more == [last];
      OneTextAttribute(lib, a);
      OneTextAttribute(lib, last);
    } else {
      FirstTextAttribute(lib, a, front);
      CommaBetween(TextAttribute(lib, a), TextAttributes(lib, front), TextAttribute(lib, last));
    }
  }

  lemma FirstField(lib: Library, a: Attribute, more: seq<Attribute>)
    ensures AttributeFields(lib, [a] + more)[0] == AttributeField(lib, a)
    ensures AttributeFields(lib, [a] + more)[1..] == AttributeFields(lib, more)
  {
  }

  lemma InList(first: string, list: string, behind: string)
    ensures (first + ", " + list) + behind == first + (", " + (list + behind))
  {
  }

  lemma {:induction false} ListShown(lib: Library, attributes: seq<Attribute>, rest: string)
    requires attributes != []
    ensures TextAttributes(lib, attributes) + ("}" + rest) == ShowList(AttributeFields(lib, attributes), rest)
    decreases |attributes|
  {
    var a, more := attributes[0], attributes[1..];
    assert attributes == [a] + more;
    FirstField(lib, a, more);
    if more == [] {
      assert attributes == [a];
      OneTextAttribute(lib, a);
    } else {
      FirstTextAttribute(lib, a, more);
      ListShown(lib, more, rest);
      InList(TextAttribute(lib, a), TextAttributes(lib, more), "}" + rest);
    }
  }

  lemma NamesAreTheKeys(lib: Library, r: Record)
    requires DoublesFitLists(lib)
    ensures AllFitList(AttributeFields(lib, r.attributes))
    ensures NamesWithoutEquals(AttributeFields(lib, r.attributes)) <==> KeysWithoutEquals(r)
  {
    var fields := AttributeFields(lib, r.attributes);
    forall i | 0 <= i < |fields| ensures SoundWith(EndsInList, fields[i]) && fields[i].name == r.attributes[i].key {
      AttributeFitsList(lib, r.attributes[i]);
    }
    if NamesWithoutEquals(fields) {
      forall i | 0 <= i < |r.attributes| ensures Without(IsEquals, r.attributes[i].key) {
        assert Without(IsEquals, fields[i].name);
      }
    }
  }

  lemma Braced(list: string, rest: string)
    ensures var s := (" {" + list + "}") + rest; " {" <= s && s[2..] == list + ("}" + rest)
  {
  }

  /** The attributes are read back exactly if no key contains an equals sign. */
  lemma ReadAttributesExactly(lib: Library, r: Record, rest: string)
    requires DoublesFitLists(lib) && !(" {" <= rest)
    ensures var read, fields := ReadAttributes(TextAttributePart(lib, r) + rest), AttributeFields(lib, r.attributes);
      if KeysWithoutEquals(r) then read == Read(fields, rest) else read.Read? ==> read.value != fields
  {
    var fields := AttributeFields(lib, r.attributes);
    if r.attributes == [] {
      assert fields == [];
      Nothing(rest);
    } else {
      NamesAreTheKeys(lib, r);
      Braced(TextAttributes(lib, r.attributes), rest);
      ListShown(lib, r.attributes, rest);
      ReadListExactly(fields, rest);
    }
  }

  lemma ReadNumberOf(n: nat, behind: string, rest: string)
    requires behind != "" && Json.Ends(behind + rest)
    ensures ReadNumber(Dec(n) + (behind + rest), behind) == Read(n, rest)
  {
    Json.ParseDec(n, behind + rest);
    SplitAt(behind, rest);
  }

  lemma LossParts(attributes: string, bytes: string, rest: string)
    ensures (" [truncated attrs=" + attributes + ", bytes=" + bytes + "]") + rest
         == ATTRIBUTES_LOST + (attributes + (BYTES_LOST + (bytes + ("]" + rest))))
  {
  }

  lemma ReadTwoNumbers(s: string, attributes: nat, bytes: nat, behind: string, rest: string)
    requires ATTRIBUTES_LOST <= s && ReadNumber(s[|ATTRIBUTES_LOST|..], BYTES_LOST) == Read(attributes, behind)
    requires ReadNumber(behind, "]") == Read(bytes, rest)
    ensures ReadLosses(s) == Read((attributes, bytes), rest)
  {
  }

  lemma ReadLossesShown(attributes: nat, bytes: nat, rest: string)
    ensures ReadLosses((" [truncated attrs=" + Dec(attributes) + ", bytes=" + Dec(bytes) + "]") + rest)
         == Read((attributes, bytes), rest)
  {
    var behind := Dec(bytes) + ("]" + rest);
    var numbers := Dec(attributes) + (BYTES_LOST + behind);
    LossParts(Dec(attributes), Dec(bytes), rest);
    SplitAt(ATTRIBUTES_LOST, numbers);
    ReadNumberOf(attributes, BYTES_LOST, behind);
    ReadNumberOf(bytes, "]", rest);
    ReadTwoNumbers(ATTRIBUTES_LOST + numbers, attributes, bytes, behind, rest);
  }

  lemma ReadLossesOf(r: Record, rest: string)
    requires !(ATTRIBUTES_LOST <= rest)
    ensures ReadLosses(TextTruncation(r) + rest) == Read((r.truncatedAttributes as nat, r.truncatedBytes as nat), rest)
  {
    if IsTruncated(r) {
      ReadLossesShown(r.truncatedAttributes, r.truncatedBytes, rest);
    } else {
      Nothing(rest);
    }
  }

  lemma InParentheses(text: string)
    ensures var s := (" (" + text + ")") + "\n";
      |s| >= 4 && s[..2] == " (" && s[|s| - 2..] == ")\n" && s[2..|s| - 2] == text
  {
  }

  lemma SourceGrouped(file: string, line: string)
    ensures " (" + file + ":" + line + ")" == " (" + (file + ":" + line) + ")"
  {
  }

  lemma ReadSourceFrom(s: string, escaped: string, text: string, source: Source)
    requires |s| >= 4 && s[..2] == " (" && s[|s| - 2..] == ")\n" && s[2..|s| - 2] == escaped
    requires Unescaped(escaped) == Some(text) && SplitSource(text) == Some(source)
    ensures ReadSource(s) == Some(Some(source))
  {
  }

  lemma ReadSourceShown(source: Source)
    ensures ReadSource((" (" + Escaped(SourceText(source)) + ")") + "\n") == Some(Some(source))
  {
    var escaped := Escaped(SourceText(source));
    InParentheses(escaped);
    UnescapeEscape(SourceText(source));
    SplitSourceText(source);
    ReadSourceFrom((" (" + escaped + ")") + "\n", escaped, SourceText(source), source);
  }

  lemma ReadSourceOf(includeSource: bool, r: Record)
    ensures ReadSource(TextSource(includeSource, r) + "\n") == Some(if includeSource then Some(r.source) else None)
  {
    if includeSource {
      SourceEscapes(r.source);
      SourceGrouped(Escaped(r.source.file), Dec(r.source.line));
      ReadSourceShown(r.source);
    } else {
      Nothing("\n");
    }
  }

  lemma TailParts(attributes: string, losses: string, source: string)
    ensures (attributes + losses + source) + "\n" == attributes + (losses + (source + "\n"))
  {
  }

  /** What comes behind the attributes is not taken for attributes, nor what comes behind the losses for losses. */
  lemma PartsBegin(includeSource: bool, r: Record)
    ensures var source := TextSource(includeSource, r) + "\n";
      !(ATTRIBUTES_LOST <= source) && !(" {" <= TextTruncation(r) + source)
  {
    var source := TextSource(includeSource, r) + "\n";
    assert source == "\n" || source[1] == '(';
    assert ATTRIBUTES_LOST[1] == '[';
    if IsTruncated(r) {
      LossParts(Dec(r.truncatedAttributes), Dec(r.truncatedBytes), source);
      assert (TextTruncation(r) + source)[1] == '[';
    } else {
      Nothing(source);
    }
  }

  /** What is printed behind the message is read back, attributes, losses and source, exactly if no key contains
      an equals sign. */
  lemma ReadsTailExactly(lib: Library, includeSource: bool, r: Record)
    requires DoublesFitLists(lib)
    ensures ReadTail(TextTail(lib, includeSource, r) + "\n") == Some(TailFactsOf(lib, includeSource, r))
       <==> KeysWithoutEquals(r)
  {
    var source := TextSource(includeSource, r) + "\n";
    TailParts(TextAttributePart(lib, r), TextTruncation(r), TextSource(includeSource, r));
    PartsBegin(includeSource, r);
    ReadAttributesExactly(lib, r, TextTruncation(r) + source);
    ReadLossesOf(r, source);
    ReadSourceOf(includeSource, r);
  }

  /** A text line tells the whole record, if the logger's name has no mark and no key an equals sign: time, level
      and logger, the escaped message, and behind it each attribute with its value, both losses and the source. */
  lemma LineTells(lib: Library, style: TimestampStyle, includeSource: bool, r: Record)
    requires CalendarIsOpen(lib) && DoublesFitLists(lib) && !Marked(r.logger) && KeysWithoutEquals(r)
    ensures var read := ReadText(TextLine(lib, style, includeSource, r));
      && read.Some? && TimestampTold(lib.calendar, style, r.timestamp, read.value.time)
      && LevelOf(read.value.level) == Some(r.level) && read.value.logger == r.logger
      && Escaped(r.message) <= read.value.behind
      && var tail := ReadTail(read.value.behind[|Escaped(r.message)|..]);
      && tail.Some? && AttributesTold(lib, r.attributes, tail.value.fields)
      && tail.value.attributes == r.truncatedAttributes && tail.value.bytes == r.truncatedBytes
      && tail.value.source == if includeSource then Some(r.source) else None
  {
    var behind := FactsOfText(lib, style, includeSource, r).behind;
    ReadsTextExactly(lib, style, includeSource, r);
    ReadsTailExactly(lib, includeSource, r);
    TimestampExactly(lib.calendar, style, r.timestamp);
    NamesAreLevels(LevelName(r.level), r.level);
    AttributesTell(lib, r.attributes);
    Assoc(Escaped(r.message), TextTail(lib, includeSource, r), "\n");
    SplitAt(Escaped(r.message), TextTail(lib, includeSource, r) + "\n");
  }
}
