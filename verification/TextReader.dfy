/** A reader for text lines, and when it finds the logger's name. */
module TextReader {
  import opened Basics
  import opened Records
  import opened Decimal
  import opened Formatting
  import opened JsonFormatter
  import opened TextFormatters

  /** What a reader makes of a line: the message comes with everything behind it. */
  datatype TextFacts = TextFacts(time: string, level: string, logger: string, behind: string)

  /** A closing bracket and a blank, which end the logger's name. */
  predicate BeginsMarked(s: string) { |s| > 1 && s[0] == ']' && s[1] == ' ' }

  predicate Marked(s: string) { s != "" && (BeginsMarked(s) || Marked(s[1..])) }

  /** How far to the first such mark. */
  function UpToMark(s: string): (n: nat)
    ensures n <= |s|
  {
    if s == "" || BeginsMarked(s) then 0 else 1 + UpToMark(s[1..])
  }

  /** How far to the first closing bracket. */
  function UpToBracket(s: string): (n: nat)
    ensures n <= |s|
  {
    if s == "" || s[0] == ']' then 0 else 1 + UpToBracket(s[1..])
  }

  /** What stands in brackets at the front, and what comes behind them. */
  function ReadBrackets(s: string): Option<(string, string)> {
    if s == "" || s[0] != '[' then None
    else
      var n := UpToBracket(s[1..]);
      if n == |s[1..]| then None else Some((s[1..][..n], s[1..][n + 1..]))
  }

  function ReadLogger(s: string): Option<(string, string)> {
    if s == "" || s[0] != '[' then None
    else
      var n := UpToMark(s[1..]);
      if n + 2 > |s[1..]| then None
      else
        var logger := Unescaped(s[1..][..n]);
        if logger.None? then None else Some((logger.value, s[1..][n + 2..]))
  }

  function ReadText(line: string): Option<TextFacts> {
    var time := ReadBrackets(line);
    if time.None? then None
    else
      var level := ReadBrackets(time.value.1);
      if level.None? then None
      else
        var logger := ReadLogger(level.value.1);
        if logger.None? then None
        else Some(TextFacts(time.value.0, level.value.0, logger.value.0, logger.value.1))
  }

  /** What there is to be found. */
  function FactsOfText(lib: Library, style: TimestampStyle, includeSource: bool, r: Record): TextFacts {
    TextFacts(TimestampText(lib.calendar, style, r.timestamp), LevelName(r.level), r.logger,
              Escaped(r.message) + TextTail(lib, includeSource, r) + "\n")
  }

  // ----- Brackets

  predicate NoBracket(s: string) { forall i :: 0 <= i < |s| ==> s[i] != ']' }

  lemma {:induction false} UpToBracketBehind(a: string, rest: string)
    requires NoBracket(a) && rest != "" && rest[0] == ']'
    ensures UpToBracket(a + rest) == |a|
  {
    if a == "" {
      assert a + rest == rest;
    } else {
      assert (a + rest)[1..] == a[1..] + rest && (a + rest)[0] == a[0];
      UpToBracketBehind(a[1..], rest);
    }
  }

  lemma InBrackets(a: string, rest: string)
    requires NoBracket(a)
    ensures ReadBrackets("[" + a + "]" + rest) == Some((a, rest))
  {
    var s := "[" + a + "]" + rest;
    assert s[1..] == a + ("]" + rest);
    UpToBracketBehind(a, "]" + rest);
    assert s[1..][..|a|] == a && s[1..][|a| + 1..] == rest;
  }

  // ----- Marks

  lemma MarkFront(c: char, a: string, rest: string)
    ensures BeginsMarked([c] + a + ("] " + rest)) <==> BeginsMarked([c] + a)
  {
    var s := [c] + a + ("] " + rest);
    assert s[0] == c && s[1] == if a == "" then ']' else a[0];
  }

  /** The first mark of a text with a mark behind it is the one behind, exactly if it has none itself. */
  lemma {:induction false} MarkBehind(a: string, rest: string)
    ensures UpToMark(a + ("] " + rest)) <= |a|
    ensures UpToMark(a + ("] " + rest)) == |a| <==> !Marked(a)
  {
    var s := a + ("] " + rest);
    if a == "" {
      assert s == "] " + rest;
    } else {
      assert a == [a[0]] + a[1..] && s[1..] == a[1..] + ("] " + rest);
      MarkFront(a[0], a[1..], rest);
      MarkBehind(a[1..], rest);
    }
  }

  lemma MarkedFront(c: char, text: string)
    ensures Marked([c] + text) <==> (c == ']' && text != "" && text[0] == ' ') || Marked(text)
  {
    assert ([c] + text)[1..] == text;
  }

  lemma {:induction false} MarkedBehindPlain(front: string, text: string)
    requires NoBracket(front)
    ensures Marked(front + text) <==> Marked(text)
  {
    if front == "" {
      assert front + text == text;
    } else {
      MarkedFront(front[0], front[1..] + text);
      assert front + text == [front[0]] + (front[1..] + text);
      MarkedBehindPlain(front[1..], text);
    }
  }

  lemma ImageHasNoBracket(c: char)
    requires c != ']'
    ensures NoBracket(EscapedChar(c))
  {
  }

  lemma FirstOfEscaped(text: string)
    requires text != ""
    ensures Escaped(text) != "" && (Escaped(text)[0] == ' ' <==> text[0] == ' ')
  {
    assert text == [text[0]] + text[1..];
    MappedFront(EscapedChar, text[0], text[1..]);
  }

  /** Escaping neither makes nor breaks marks. */
  lemma {:induction false} EscapedMarks(text: string)
    ensures Marked(Escaped(text)) <==> Marked(text)
  {
    if text != "" {
      var c, more := text[0], text[1..];
      assert text == [c] + more;
      MappedFront(EscapedChar, c, more);
      EscapedMarks(more);
      MarkedFront(c, more);
      if c == ']' {
        MarkedFront(c, Escaped(more));
        if more != "" { FirstOfEscaped(more); }
      } else {
        ImageHasNoBracket(c);
        MarkedBehindPlain(EscapedChar(c), Escaped(more));
      }
    }
  }

  // ----- The logger's name

  lemma LoggerSplit(escaped: string, behind: string)
    ensures var s := "[" + escaped + "] " + behind;
      |s| == |escaped| + |behind| + 3 && s[0] == '[' && s[1..] == escaped + ("] " + behind)
  {
  }

  /** The name is read right, and so is what comes behind it, exactly if there is no mark in it. */
  lemma ReadLoggerExactly(logger: string, behind: string)
    ensures ReadLogger("[" + Escaped(logger) + "] " + behind) == Some((logger, behind)) <==> !Marked(logger)
  {
    var escaped := Escaped(logger);
    var s := "[" + escaped + "] " + behind;
    LoggerSplit(escaped, behind);
    EscapedMarks(logger);
    MarkBehind(escaped, behind);
    if Marked(logger) {
      // the reader stops too early, and finds too much behind
      assert |s[1..][UpToMark(s[1..]) + 2..]| > |behind|;
    } else {
      UnescapeEscape(logger);
      assert s[1..][..|escaped|] == escaped && s[1..][|escaped| + 2..] == behind;
    }
  }

  // ----- The line

  /** No calendar text contains a closing bracket. */
  ghost predicate CalendarIsOpen(lib: Library) {
    forall style, second: nat ::
      NoBracket(lib.calendar(style, second).prefix) && NoBracket(lib.calendar(style, second).suffix)
  }

  lemma DecHasNoBracket(n: nat)
    ensures NoBracket(Dec(n))
  {
    forall i | 0 <= i < |Dec(n)| ensures Dec(n)[i] != ']' { assert IsDigit(Dec(n)[i]); }
  }

  lemma TimeHasNoBracket(lib: Library, style: TimestampStyle, timestamp: u64)
    requires CalendarIsOpen(lib)
    ensures NoBracket(TimestampText(lib.calendar, style, timestamp))
  {
    DecHasNoBracket(timestamp);
    DecHasNoBracket(timestamp / 1_000_000);
    DecHasNoBracket(timestamp % BILLION);
    assert NoBracket(lib.calendar(style, timestamp / BILLION).prefix);
  }

  lemma LevelHasNoBracket(level: LogLevel)
    ensures NoBracket(LevelName(level))
  {
  }

  lemma ThreeBrackets(time: string, level: string, logger: string, message: string, tail: string)
    ensures ("[" + time + "][" + level + "][" + logger + "] " + message) + tail + "\n"
         == "[" + time + "]" + ("[" + level + "]" + ("[" + logger + "] " + (message + tail + "\n")))
  {
    var front := "[" + time + "][" + level + "][" + logger + "] ";
    assert front == "[" + time + "]" + ("[" + level + "]" + ("[" + logger + "] "));
    Regrouped("[" + time + "]", "[" + level + "]", "[" + logger + "] ", message, tail);
  }

  lemma Regrouped(a: string, b: string, c: string, message: string, tail: string)
    ensures (a + (b + c) + message) + tail + "\n" == a + (b + (c + (message + tail + "\n")))
  {
  }

  /** A reader finds time, level and logger of a line, and what comes behind them, exactly if the logger's
      name contains no closing bracket followed by a blank. */
  lemma ReadsTextExactly(lib: Library, style: TimestampStyle, includeSource: bool, r: Record)
    requires CalendarIsOpen(lib)
    ensures ReadText(TextLine(lib, style, includeSource, r)) == Some(FactsOfText(lib, style, includeSource, r))
       <==> !Marked(r.logger)
  {
    var time, level := TimestampText(lib.calendar, style, r.timestamp), LevelName(r.level);
    var behind := Escaped(r.message) + TextTail(lib, includeSource, r) + "\n";
    var third := "[" + Escaped(r.logger) + "] " + behind;
    ThreeBrackets(time, level, Escaped(r.logger), Escaped(r.message), TextTail(lib, includeSource, r));
    TimeHasNoBracket(lib, style, r.timestamp);
    LevelHasNoBracket(r.level);
    InBrackets(time, "[" + level + "]" + third);
    InBrackets(level, third);
    ReadLoggerExactly(r.logger, behind);
  }

  /** A record without attributes and losses, printed without its source, is found whole. */
  lemma PlainMessageIsRead(lib: Library, style: TimestampStyle, r: Record)
    requires CalendarIsOpen(lib) && !Marked(r.logger) && r.attributes == [] && !IsTruncated(r)
    ensures var facts := ReadText(TextLine(lib, style, false, r));
      && facts.Some? && facts.value.time == TimestampText(lib.calendar, style, r.timestamp)
      && facts.value.level == LevelName(r.level) && facts.value.logger == r.logger && facts.value.behind != ""
      && Unescaped(facts.value.behind[..|facts.value.behind| - 1]) == Some(r.message)
  {
    ReadsTextExactly(lib, style, false, r);
    var behind := FactsOfText(lib, style, false, r).behind;
    assert behind == Escaped(r.message) + "\n";
    assert behind[..|behind| - 1] == Escaped(r.message);
    UnescapeEscape(r.message);
  }

  // ----- What is not told apart

  lemma PlainTexts()
    ensures Escaped("a") == "a" && Escaped("b] c") == "b] c" && Escaped("a] b") == "a] b" && Escaped("c") == "c"
  {
    PlainStays("a");
    PlainStays("b] c");
    PlainStays("a] b");
    PlainStays("c");
  }

  lemma SameBehind(front: string)
    ensures front + "a" + "] " + "b] c" == front + "a] b" + "] " + "c"
  {
  }

  function HeadFront(lib: Library, style: TimestampStyle, r: Record): string {
    "[" + TimestampText(lib.calendar, style, r.timestamp) + "][" + LevelName(r.level) + "]["
  }

  lemma HeadShown(lib: Library, style: TimestampStyle, r: Record, logger: string, message: string)
    ensures TextHead(lib, style, r.(logger := logger, message := message))
         == HeadFront(lib, style, r) + Escaped(logger) + "] " + Escaped(message)
  {
  }

  lemma TailIgnores(lib: Library, includeSource: bool, r: Record, logger: string, message: string)
    ensures TextTail(lib, includeSource, r.(logger := logger, message := message)) == TextTail(lib, includeSource, r)
  {
    var s := r.(logger := logger, message := message);
    assert TextAttributePart(lib, s) == TextAttributePart(lib, r) && TextTruncation(s) == TextTruncation(r);
    assert TextSource(includeSource, s) == TextSource(includeSource, r);
  }

  /** Two loggers, two messages, one line. */
  lemma LoggerForgesMessage(lib: Library, style: TimestampStyle, includeSource: bool, r: Record)
    ensures TextLine(lib, style, includeSource, r.(logger := "a", message := "b] c"))
         == TextLine(lib, style, includeSource, r.(logger := "a] b", message := "c"))
  {
    PlainTexts();
    HeadShown(lib, style, r, "a", "b] c");
    HeadShown(lib, style, r, "a] b", "c");
    SameBehind(HeadFront(lib, style, r));
    TailIgnores(lib, includeSource, r, "a", "b] c");
    TailIgnores(lib, includeSource, r, "a] b", "c");
  }
}
