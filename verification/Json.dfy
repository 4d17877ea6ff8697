/** JSON texts (RFC 8259): a printer, a parser for the part of the grammar that the formatter uses,
    and the proof that the parser undoes the printer. */
module Json {
  import opened Basics
  import opened Decimal
  import opened Formatting

  /** A value. Real is a number other than an integer, kept as its text. Raw is text that is no JSON value and
      was put in as it is: a timestamp in an ISO style, or a double that is not finite. */
  datatype Json =
    | Number(i: int)
    | Real(numeral: string)
    | Boolean(b: bool)
    | String(s: string)
    | Object(members: seq<Member>)
    | Raw(text: string)

  datatype Member = Member(name: string, value: Json)

  // ----- Printing

  function Show(j: Json): string
    decreases j, 1
  {
    match j
    case Number(i) => SignedDec(i)
    case Real(numeral) => numeral
    case Boolean(b) => if b then "true" else "false"
    case String(s) => "\"" + JsonEscaped(s) + "\""
    case Object(members) => "{" + ShowMembers(members) + "}"
    case Raw(text) => text
  }

  function ShowMember(m: Member): string
    decreases m, 0
  {
    "\"" + JsonEscaped(m.name) + "\":" + Show(m.value)
  }

  function ShowMembers(members: seq<Member>): string
    decreases members, 0
  {
    if members == [] then ""
    else if |members| == 1 then ShowMember(members[0])
    else ShowMember(members[0]) + "," + ShowMembers(members[1..])
  }

  // ----- Parsing

  datatype Parsed<+T> = Failed | Parsed(value: T, rest: string)

  /** The longest run of digits at the front. */
  function Digits(s: string): (n: nat)
    ensures n <= |s| && AllDigits(s[..n]) && (n < |s| ==> !IsDigit(s[n]))
  {
    if s == "" || !IsDigit(s[0]) then 0 else 1 + Digits(s[1..])
  }

  /** A numeral without leading zeros. */
  function ParseNatural(s: string): (r: Parsed<nat>)
    ensures r.Parsed? ==> |r.rest| < |s|
  {
    var n := Digits(s);
    if n == 0 || (n > 1 && s[0] == '0') then Failed else Parsed(NumberOf(s[..n]), s[n..])
  }

  /** An integer, with an optional minus sign. */
  function ParseNumber(s: string): (r: Parsed<int>)
    ensures r.Parsed? ==> |r.rest| < |s|
  {
    if s != "" && s[0] == '-' then
      var n := ParseNatural(s[1..]);
      if n.Parsed? then Parsed(-(n.value as int), n.rest) else Failed
    else
      var n := ParseNatural(s);
      if n.Parsed? then Parsed(n.value as int, n.rest) else Failed
  }

  // Numbers (section 6): an integer, a fraction, an exponent.

  predicate NumberChar(c: char) { IsDigit(c) || c == '-' || c == '+' || c == '.' || c == 'e' || c == 'E' }

  predicate NumberChars(s: string) { forall i :: 0 <= i < |s| ==> NumberChar(s[i]) }

  /** The longest run of such characters at the front. */
  function NumberRun(s: string): (n: nat)
    ensures n <= |s| && NumberChars(s[..n]) && (n < |s| ==> !NumberChar(s[n]))
  {
    if s == "" || !NumberChar(s[0]) then 0 else 1 + NumberRun(s[1..])
  }

  /** What follows some digits, if there are any. */
  function BehindDigits(s: string): Option<string> {
    var n := Digits(s);
    if n == 0 then None else Some(s[n..])
  }

  function BehindFraction(s: string): Option<string> {
    if s != "" && s[0] == '.' then BehindDigits(s[1..]) else Some(s)
  }

  function BehindExponent(s: string): Option<string> {
    if s == "" || (s[0] != 'e' && s[0] != 'E') then Some(s)
    else if |s| > 1 && (s[1] == '-' || s[1] == '+') then BehindDigits(s[2..])
    else BehindDigits(s[1..])
  }

  /** A fraction, an exponent, both or nothing. */
  predicate IsScale(s: string) {
    var e := BehindFraction(s);
    e.Some? && BehindExponent(e.value) == Some("")
  }

  /** The value of a numeral, if it is one. Minus zero is not the integer 0. */
  function NumberJson(t: string): (j: Option<Json>)
    ensures j.Some? ==> t != "" && NumberChars(t) && (j.value.Number? || j.value == Real(t))
  {
    var n := ParseNumber(t);
    if !NumberChars(t) || n.Failed? then None
    else if n.rest == "" && t != "-0" then Some(Number(n.value))
    else if IsScale(n.rest) then Some(Real(t))
    else None
  }

  /** The character that four hexadecimal digits denote. */
  function ParseUnicode(s: string): Option<char> {
    if |s| < 4 || HexValue(s[0]).None? || HexValue(s[1]).None? || HexValue(s[2]).None? || HexValue(s[3]).None? then None
    else
      var code := HexValue(s[0]).value * 4096 + HexValue(s[1]).value * 256
                  + HexValue(s[2]).value * 16 + HexValue(s[3]).value;
      if code < 0xD800 || 0xE000 <= code < 0x10000 then Some(code as char) else None
  }

  function Unescape(c: char): Option<char> {
    match c
    case '\"' => Some('\"')
    case '\\' => Some('\\')
    case '/' => Some('/')
    case 'b' => Some(8 as char)
    case 'f' => Some(12 as char)
    case 'n' => Some('\n')
    case 'r' => Some('\r')
    case 't' => Some('\t')
    case _ => None
  }

  /** One character of a string, as itself or escaped (section 7). */
  function ParseChar(s: string): (r: Parsed<char>)
    ensures r.Parsed? ==> |r.rest| < |s|
  {
    if s == "" || s[0] == '\"' || s[0] as nat < 0x20 then Failed
    else if s[0] != '\\' then Parsed(s[0], s[1..])
    else if |s| < 2 then Failed
    else if s[1] == 'u' then
      var c := ParseUnicode(s[2..]);
      if c.Some? then Parsed(c.value, s[6..]) else Failed
    else
      var c := Unescape(s[1]);
      if c.Some? then Parsed(c.value, s[2..]) else Failed
  }

  /** The rest of a string, behind its opening quotation mark. */
  function ParseChars(s: string): (r: Parsed<string>)
    decreases |s|
    ensures r.Parsed? ==> |r.rest| < |s|
  {
    if s != "" && s[0] == '\"' then Parsed("", s[1..])
    else
      var c := ParseChar(s);
      if c.Failed? then Failed
      else
        var more := ParseChars(c.rest);
        if more.Failed? then Failed else Parsed([c.value] + more.value, more.rest)
  }

  function ParseWord(word: string, j: Json, s: string): (r: Parsed<Json>)
    requires word != ""
    ensures r.Parsed? ==> |r.rest| < |s|
  {
    if word <= s then Parsed(j, s[|word|..]) else Failed
  }

  function ParseValue(s: string): (r: Parsed<Json>)
    decreases |s|, 1
    ensures r.Parsed? ==> |r.rest| < |s|
  {
    if s == "" then Failed
    else if s[0] == '\"' then
      var t := ParseChars(s[1..]);
      if t.Parsed? then Parsed(String(t.value), t.rest) else Failed
    else if s[0] == '{' then
      if |s| > 1 && s[1] == '}' then Parsed(Object([]), s[2..])
      else
        var m := ParseMembers(s[1..]);
        if m.Parsed? then Parsed(Object(m.value), m.rest) else Failed
    else if s[0] == 't' then ParseWord("true", Boolean(true), s)
    else if s[0] == 'f' then ParseWord("false", Boolean(false), s)
    else
      var n := NumberRun(s);
      var j := NumberJson(s[..n]);
      if j.Some? then Parsed(j.value, s[n..]) else Failed
  }

  function ParseMember(s: string): (r: Parsed<Member>)
    decreases |s|, 2
    ensures r.Parsed? ==> |r.rest| < |s|
  {
    if s == "" || s[0] != '\"' then Failed
    else
      var name := ParseChars(s[1..]);
      if name.Failed? || name.rest == "" || name.rest[0] != ':' then Failed
      else
        var v := ParseValue(name.rest[1..]);
        if v.Failed? then Failed else Parsed(Member(name.value, v.value), v.rest)
  }

  /** One or more members and the closing brace. */
  function ParseMembers(s: string): (r: Parsed<seq<Member>>)
    decreases |s|, 3
    ensures r.Parsed? ==> |r.rest| < |s|
  {
    var m := ParseMember(s);
    if m.Failed? || m.rest == "" then Failed
    else if m.rest[0] == '}' then Parsed([m.value], m.rest[1..])
    else if m.rest[0] == ',' then
      var more := ParseMembers(m.rest[1..]);
      if more.Failed? then Failed else Parsed([m.value] + more.value, more.rest)
    else Failed
  }

  // ----- The parser undoes the printer

  /** No raw text anywhere, and no numeral that is not one. */
  predicate Clean(j: Json)
    decreases j
  {
    match j
    case Raw(_) => false
    case Real(numeral) => NumberJson(numeral) == Some(j)
    case Object(members) => forall i :: 0 <= i < |members| ==> Clean(members[i].value)
    case _ => true
  }

  lemma ParseEscapedChar(c: char, rest: string)
    ensures ParseChar(JsonEscapedChar(c) + rest) == Parsed(c, rest)
    ensures JsonEscapedChar(c)[0] != '\"'
  {
    var s := JsonEscapedChar(c) + rest;
    assert s[|JsonEscapedChar(c)|..] == rest;
    if |JsonEscapedChar(c)| == 6 {
      HexDigitValue(c as nat / 16);
      HexDigitValue(c as nat % 16);
      var h := s[2..];
      assert h[0] == '0' && h[1] == '0' && h[2] == HexDigit(c as nat / 16) && h[3] == HexDigit(c as nat % 16);
    }
  }

  lemma {:induction false} ParseEscaped(text: string, rest: string)
    ensures ParseChars(JsonEscaped(text) + "\"" + rest) == Parsed(text, rest)
  {
    var s := JsonEscaped(text) + "\"" + rest;
    if text == "" {
      assert s == "\"" + rest && s[1..] == rest;
    } else {
      var c, more := text[0], text[1..];
      assert text == [c] + more;
      MappedFront(JsonEscapedChar, c, more);
      var tail := JsonEscaped(more) + "\"" + rest;
      assert s == JsonEscapedChar(c) + tail;
      ParseEscapedChar(c, tail);
      ParseEscaped(more, rest);
    }
  }

  lemma {:induction false} DigitsOf(digits: string, rest: string)
    requires AllDigits(digits) && (rest == "" || !IsDigit(rest[0]))
    ensures Digits(digits + rest) == |digits|
  {
    if digits != "" {
      DigitsOf(digits[1..], rest);
      assert (digits + rest)[1..] == digits[1..] + rest;
    } else {
      assert digits + rest == rest;
    }
  }

  lemma {:induction false} NoLeadingZero(n: nat)
    ensures Dec(n)[0] == '0' ==> |Dec(n)| == 1
    ensures Dec(n)[0] == '0' ==> n == 0
  {
    if n >= 10 { NoLeadingZero(n / 10); }
  }

  lemma ParseDec(n: nat, rest: string)
    requires Ends(rest)
    ensures ParseNatural(Dec(n) + rest) == Parsed(n, rest)
  {
    var s := Dec(n) + rest;
    DigitsOf(Dec(n), rest);
    NoLeadingZero(n);
    NumberOfDec(n);
    assert s[..|Dec(n)|] == Dec(n) && s[|Dec(n)|..] == rest && s[0] == Dec(n)[0];
  }

  lemma ParsePlus(s: string, n: nat, rest: string)
    requires s != "" && s[0] != '-' && ParseNatural(s) == Parsed(n, rest)
    ensures ParseNumber(s) == Parsed(n as int, rest)
  {
  }

  lemma ParseMinus(s: string, n: nat, rest: string)
    requires s != "" && s[0] == '-' && ParseNatural(s[1..]) == Parsed(n, rest)
    ensures ParseNumber(s) == Parsed(-(n as int), rest)
  {
  }

  lemma DecStart(n: nat)
    ensures IsDigit(Dec(n)[0]) && Dec(n)[0] != '-'
  {
    var digits := Dec(n);
    assert IsDigit(digits[0]);
  }

  /** A text behind one character. */
  lemma Uncons(c: char, a: string, rest: string)
    ensures var s := [c] + a + rest; s[0] == c && s[1..] == a + rest
  {
  }

  lemma FirstOf(a: string, rest: string)
    requires a != ""
    ensures (a + rest)[0] == a[0]
  {
  }

  lemma ParseSigned(i: int, rest: string)
    requires Ends(rest)
    ensures ParseNumber(SignedDec(i) + rest) == Parsed(i, rest)
    ensures SignedDec(i)[0] == '-' || IsDigit(SignedDec(i)[0])
  {
    if i < 0 {
      ParseDec(-i, rest);
      Uncons('-', Dec(-i), rest);
      ParseMinus(SignedDec(i) + rest, -i, rest);
    } else {
      ParseDec(i, rest);
      DecStart(i);
      FirstOf(Dec(i), rest);
      ParsePlus(Dec(i) + rest, i, rest);
    }
  }

  /** What may follow a value inside a JSON text: nothing that could prolong a number. */
  predicate Ends(rest: string) { rest == "" || !NumberChar(rest[0]) }

  lemma {:induction false} NumberRunOf(numeral: string, rest: string)
    requires NumberChars(numeral) && Ends(rest)
    ensures NumberRun(numeral + rest) == |numeral|
  {
    if numeral == "" {
      assert numeral + rest == rest;
    } else {
      NumberRunOf(numeral[1..], rest);
      assert (numeral + rest)[1..] == numeral[1..] + rest;
    }
  }

  lemma SignedChars(i: int)
    ensures NumberChars(SignedDec(i)) && SignedDec(i) != "-0"
  {
    var digits := Dec(if i < 0 then -i else i);
    forall k | 0 <= k < |digits| ensures NumberChar(digits[k]) { assert IsDigit(digits[k]); }
    NoLeadingZero(if i < 0 then -i else i);
    if i < 0 {
      assert SignedDec(i)[1] == digits[0];
    } else {
      assert IsDigit(digits[0]);
    }
  }

  lemma NumberOfSigned(i: int)
    ensures NumberJson(SignedDec(i)) == Some(Number(i))
  {
    SignedChars(i);
    ParseSigned(i, "");
    assert SignedDec(i) + "" == SignedDec(i);
  }

  /** A numeral is read as far as it goes. */
  lemma ParseNumeral(numeral: string, j: Json, rest: string)
    requires NumberJson(numeral) == Some(j) && Ends(rest)
    ensures ParseValue(numeral + rest) == Parsed(j, rest)
  {
    var s := numeral + rest;
    NumberRunOf(numeral, rest);
    assert s[..|numeral|] == numeral && s[|numeral|..] == rest;
    assert NumberChar(numeral[0]) && s[0] == numeral[0];
  }

  /** Text that is read as an integer is how that integer is printed. */
  lemma NumberShows(t: string)
    requires NumberJson(t).Some?
    ensures Show(NumberJson(t).value) == t
  {
    var n := ParseNumber(t);
    if n.rest == "" && t != "-0" {
      var digits := if t[0] == '-' then t[1..] else t;
      var natural := ParseNatural(digits);
      assert natural.Parsed? && natural.rest == "";
      assert digits[..|digits|] == digits && Digits(digits) == |digits|;
      DecOfDigits(digits);
      if t[0] == '-' {
        assert t == "-" + digits && "-" + "0" == "-0" && Dec(0) == "0";
        assert NumberOf(digits) != 0;
      }
    }
  }

  // ----- What the parser gives is clean

  lemma {:induction false} ParsedIsClean(s: string)
    ensures ParseValue(s).Parsed? ==> Clean(ParseValue(s).value)
    decreases |s|, 1
  {
    if s != "" && s[0] == '{' && !(|s| > 1 && s[1] == '}') {
      ParsedMembersAreClean(s[1..]);
    }
  }

  lemma {:induction false} ParsedMemberIsClean(s: string)
    ensures ParseMember(s).Parsed? ==> Clean(ParseMember(s).value.value)
    decreases |s|, 2
  {
    if s != "" && s[0] == '\"' {
      var name := ParseChars(s[1..]);
      if name.Parsed? && name.rest != "" { ParsedIsClean(name.rest[1..]); }
    }
  }

  lemma {:induction false} ParsedMembersAreClean(s: string)
    ensures ParseMembers(s).Parsed? ==>
              forall i :: 0 <= i < |ParseMembers(s).value| ==> Clean(ParseMembers(s).value[i].value)
    decreases |s|, 3
  {
    ParsedMemberIsClean(s);
    var m := ParseMember(s);
    if m.Parsed? && m.rest != "" && m.rest[0] == ',' { ParsedMembersAreClean(m.rest[1..]); }
  }

  lemma ParseShowScalar(j: Json, rest: string)
    requires !j.Object? && Clean(j) && Ends(rest)
    ensures ParseValue(Show(j) + rest) == Parsed(j, rest)
  {
    match j {
      case Number(i) =>
        NumberOfSigned(i);
        ParseNumeral(SignedDec(i), j, rest);
      case Real(numeral) =>
        ParseNumeral(numeral, j, rest);
      case Boolean(b) =>
        var s := Show(j) + rest;
        assert s[|Show(j)|..] == rest && Show(j) <= s;
      case String(t) =>
        InQuotes(JsonEscaped(t), rest);
        ParseEscaped(t, rest);
    }
  }

  lemma InQuotes(a: string, rest: string)
    ensures var s := ("\"" + a + "\"") + rest; s != "" && s[0] == '\"' && s[1..] == a + "\"" + rest
  {
  }

  /** The parser gives back every value that was printed, and what comes behind it. */
  lemma {:induction false} ParseShow(j: Json, rest: string)
    requires Clean(j) && Ends(rest)
    ensures ParseValue(Show(j) + rest) == Parsed(j, rest)
    decreases j, 1
  {
    if !j.Object? {
      ParseShowScalar(j, rest);
    } else if j.members == [] {
      assert Show(j) == "{" + ShowMembers([]) + "}" == "{}";
      assert ("{}" + rest)[2..] == rest;
    } else {
      ParseShowMembers(j.members, rest);
      ParseBraces(j.members, rest);
    }
  }

  lemma ParseBraces(members: seq<Member>, rest: string)
    requires members != [] && ParseMembers(ShowMembers(members) + "}" + rest) == Parsed(members, rest)
    requires ShowMembers(members)[..1] == "\""
    ensures ParseValue(Show(Object(members)) + rest) == Parsed(Object(members), rest)
  {
    var inner := ShowMembers(members);
    Enclosed(inner, rest);
    assert inner[0] == inner[..1][0];
    ParseObjectFrom("{" + inner + "}" + rest, members, rest);
  }

  lemma Enclosed(inner: string, rest: string)
    requires inner != ""
    ensures var s := "{" + inner + "}" + rest;
      s[0] == '{' && s[1..] == inner + "}" + rest && s[1] == inner[0]
  {
  }

  lemma ParseObjectFrom(s: string, members: seq<Member>, rest: string)
    requires |s| > 1 && s[0] == '{' && s[1] != '}' && ParseMembers(s[1..]) == Parsed(members, rest)
    ensures ParseValue(s) == Parsed(Object(members), rest)
  {
  }

  lemma Quoted(name: string, value: string, rest: string)
    ensures var s := "\"" + name + "\":" + value + rest;
      s[0] == '"' && s[1..] == name + "\"" + (":" + value + rest)
  {
  }

  lemma ParseMemberFrom(s: string, m: Member, afterName: string, rest: string)
    requires s != "" && s[0] == '"' && ParseChars(s[1..]) == Parsed(m.name, afterName)
    requires afterName != "" && afterName[0] == ':' && ParseValue(afterName[1..]) == Parsed(m.value, rest)
    ensures ParseMember(s) == Parsed(m, rest)
  {
  }

  lemma {:induction false} ParseShowMember(m: Member, rest: string)
    requires Clean(m.value) && Ends(rest)
    ensures ParseMember(ShowMember(m) + rest) == Parsed(m, rest)
    decreases m, 0
  {
    var afterName := ":" + Show(m.value) + rest;
    Quoted(JsonEscaped(m.name), Show(m.value), rest);
    ParseEscaped(m.name, afterName);
    Uncons(':', Show(m.value), rest);
    ParseShow(m.value, rest);
    ParseMemberFrom(ShowMember(m) + rest, m, afterName, rest);
  }

  lemma ParseLastMember(s: string, m: Member, rest: string)
    requires ParseMember(s) == Parsed(m, "}" + rest)
    ensures ParseMembers(s) == Parsed([m], rest)
  {
    assert ("}" + rest)[1..] == rest;
  }

  lemma ParseOneMember(s: string, m: Member, tail: string, more: seq<Member>, rest: string)
    requires ParseMember(s) == Parsed(m, "," + tail) && ParseMembers(tail) == Parsed(more, rest)
    ensures ParseMembers(s) == Parsed([m] + more, rest)
  {
    assert ("," + tail)[1..] == tail;
  }

  lemma Joined(first: string, comma: string, more: string, brace: string, rest: string)
    ensures first + comma + more + brace + rest == first + (comma + (more + brace + rest))
    ensures first + brace + rest == first + (brace + rest)
  {
  }

  lemma {:induction false} ParseShowMembers(members: seq<Member>, rest: string)
    requires members != [] && forall i :: 0 <= i < |members| ==> Clean(members[i].value)
    ensures ParseMembers(ShowMembers(members) + "}" + rest) == Parsed(members, rest)
    ensures ShowMembers(members)[..1] == "\""
    decreases members, 0
  {
    var first := ShowMember(members[0]);
    if |members| == 1 {
      Joined(first, "", "", "}", rest);
      ParseShowMember(members[0], "}" + rest);
      ParseLastMember(first + ("}" + rest), members[0], rest);
      assert members == [members[0]];
    } else {
      var more := ShowMembers(members[1..]);
      var tail := more + "}" + rest;
      Joined(first, ",", more, "}", rest);
      ParseShowMember(members[0], "," + tail);
      ParseShowMembers(members[1..], rest);
      ParseOneMember(first + ("," + tail), members[0], tail, members[1..], rest);
      assert members == [members[0]] + members[1..];
    }
  }
}
