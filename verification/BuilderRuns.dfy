/** What a builder holds after any sequence of calls. */
module BuilderRuns {
  import opened Basics
  import opened Records
  import opened RecordBuilder

  datatype Call = Message(text: string) | Attr(a: Attribute)

  function Built(calls: seq<Call>): Draft {
    if calls == [] then BLANK
    else
      var before := Built(calls[..|calls| - 1]);
      match calls[|calls| - 1]
      case Message(text) => WithMessage(before, text)
      case Attr(a) => WithAttribute(before, a)
  }

  /** The attributes offered, in order. */
  function Offered(calls: seq<Call>): seq<Attribute> {
    if calls == [] then []
    else
      var last := calls[|calls| - 1];
      Offered(calls[..|calls| - 1]) + (if last.Attr? then [last.a] else [])
  }

  /** All the text that asked for room in the arena: of each attribute the value and then the key, but of
      an attribute beyond the eighth only the value. */
  function Asked(calls: seq<Call>): string {
    if calls == [] then ""
    else
      var before, last := calls[..|calls| - 1], calls[|calls| - 1];
      Asked(before) + (if last.Message? then ""
                       else TextOf(last.a.value) + (if |Offered(before)| < MAX_ATTRIBUTES then last.a.key else ""))
  }

  function LastMessage(calls: seq<Call>): string {
    if calls == [] then ""
    else if calls[|calls| - 1].Message? then calls[|calls| - 1].text
    else LastMessage(calls[..|calls| - 1])
  }

  function MessageOverflow(calls: seq<Call>): nat {
    if calls == [] then 0
    else
      var last := calls[|calls| - 1];
      MessageOverflow(calls[..|calls| - 1]) + (if last.Message? then Excess(last.text, MAX_MESSAGE_BYTES) else 0)
  }

  /** The arena holds the first bytes of what asked for room, and the rest has been counted. */
  ghost predicate Accounts(d: Draft, asked: string, overflow: nat) {
    && d.arena == Prefix(asked, MAX_ATTR_TEXT_BYTES)
    && d.truncatedBytes == (overflow + |asked| - |d.arena|) % WIDE
  }

  /** The first eight attributes are there, each cut short at most, and the others have been counted. */
  ghost predicate Keeps(d: Draft, offered: seq<Attribute>, fits: bool) {
    && |d.attributes| == Min(|offered|, MAX_ATTRIBUTES)
    && d.truncatedAttributes == (|offered| - |d.attributes|) % WIDE
    && (forall i :: 0 <= i < |d.attributes| ==> IsCutOf(d.attributes[i], offered[i]))
    && (fits ==> d.attributes == Prefix(offered, MAX_ATTRIBUTES))
  }

  ghost predicate ClosedForm(d: Draft, calls: seq<Call>) {
    && d.message == Prefix(LastMessage(calls), MAX_MESSAGE_BYTES)
    && Accounts(d, Asked(calls), MessageOverflow(calls))
    && Keeps(d, Offered(calls), |Asked(calls)| <= MAX_ATTR_TEXT_BYTES)
  }

  lemma CopyKeepsAccounts(d: Draft, asked: string, overflow: nat, text: string)
    requires Accounts(d, asked, overflow)
    ensures Accounts(CopiedText(d, text), asked + text, overflow)
    ensures Fitting(MAX_ATTR_TEXT_BYTES, d.arena, text) <= text
    ensures |asked + text| <= MAX_ATTR_TEXT_BYTES ==> Fitting(MAX_ATTR_TEXT_BYTES, d.arena, text) == text
  {
    var copy := Fitting(MAX_ATTR_TEXT_BYTES, d.arena, text);
    assert d.arena + copy == Prefix(asked + text, MAX_ATTR_TEXT_BYTES);
    assert Add32(d.truncatedBytes, |text| - |copy|) == (overflow + |asked| - |d.arena| + |text| - |copy|) % WIDE;
  }

  /** How one more attribute enters the history. */
  lemma OneMoreAttr(calls: seq<Call>, a: Attribute)
    ensures var all := calls + [Attr(a)];
      && Offered(all) == Offered(calls) + [a]
      && Asked(all) == Asked(calls) + TextOf(a.value) + (if |Offered(calls)| < MAX_ATTRIBUTES then a.key else "")
      && LastMessage(all) == LastMessage(calls) && MessageOverflow(all) == MessageOverflow(calls)
  {
    var all := calls + [Attr(a)];
    assert all[..|all| - 1] == calls;
    Regroup(Asked(calls), TextOf(a.value), if |Offered(calls)| < MAX_ATTRIBUTES then a.key else "");
  }

  lemma Regroup(a: string, b: string, c: string)
    ensures a + (b + c) == a + b + c
  {
  }

  lemma AttrKeepsForm(calls: seq<Call>, a: Attribute)
    requires ClosedForm(Built(calls), calls)
    ensures ClosedForm(WithAttribute(Built(calls), a), calls + [Attr(a)])
  {
    OneMoreAttr(calls, a);
    AttrAccounts(Built(calls), Asked(calls), MessageOverflow(calls), a);
    AttrKept(Built(calls), Offered(calls), a,
             |Asked(calls)| <= MAX_ATTR_TEXT_BYTES, |Asked(calls + [Attr(a)])| <= MAX_ATTR_TEXT_BYTES,
             Asked(calls), MessageOverflow(calls));
    assert Asked(calls) + TextOf(a.value) + "" == Asked(calls) + TextOf(a.value);
  }

  /** The value asks for room in any case, the key only if the attribute gets a place. */
  lemma AttrAccounts(d: Draft, asked: string, overflow: nat, a: Attribute)
    requires Accounts(d, asked, overflow)
    ensures var key := if |d.attributes| < MAX_ATTRIBUTES then a.key else "";
      Accounts(WithAttribute(d, a), asked + TextOf(a.value) + key, overflow)
  {
    CopyKeepsAccounts(d, asked, overflow, TextOf(a.value));
    var copied := CopiedText(d, TextOf(a.value));
    if |d.attributes| < MAX_ATTRIBUTES {
      CopyKeepsAccounts(copied, asked + TextOf(a.value), overflow, a.key);
    } else {
      assert asked + TextOf(a.value) + "" == asked + TextOf(a.value);
    }
  }

  lemma AttrKept(d: Draft, offered: seq<Attribute>, a: Attribute, fitted: bool, fits: bool,
                 asked: string, overflow: nat)
    requires Accounts(d, asked, overflow) && Keeps(d, offered, fitted) && (fits ==> fitted)
    requires fits && |d.attributes| < MAX_ATTRIBUTES ==> |asked + TextOf(a.value) + a.key| <= MAX_ATTR_TEXT_BYTES
    ensures Keeps(WithAttribute(d, a), offered + [a], fits)
  {
    var copied, value := CopiedText(d, TextOf(a.value)), Stored(d, a.value);
    if |d.attributes| < MAX_ATTRIBUTES {
      CopyKeepsAccounts(d, asked, overflow, TextOf(a.value));
      CopyKeepsAccounts(copied, asked + TextOf(a.value), overflow, a.key);
      KeepOne(copied, Appended(copied, a.key, value, a.kind), offered, a, fitted, fits);
    } else {
      SkipOne(copied, offered, a, fitted, fits);
    }
  }

  lemma KeepOne(d: Draft, e: Draft, offered: seq<Attribute>, a: Attribute, fitted: bool, fits: bool)
    requires Keeps(d, offered, fitted) && |d.attributes| < MAX_ATTRIBUTES && (fits ==> fitted)
    requires |e.attributes| == |d.attributes| + 1 && e.attributes[..|d.attributes|] == d.attributes
    requires IsCutOf(e.attributes[|d.attributes|], a) && (fits ==> e.attributes[|d.attributes|] == a)
    requires e.truncatedAttributes == d.truncatedAttributes
    ensures Keeps(e, offered + [a], fits)
  {
    assert e.attributes == d.attributes + [e.attributes[|d.attributes|]];
  }

  lemma SkipOne(d: Draft, offered: seq<Attribute>, a: Attribute, fitted: bool, fits: bool)
    requires Keeps(d, offered, fitted) && |d.attributes| >= MAX_ATTRIBUTES && (fits ==> fitted)
    ensures Keeps(d.(truncatedAttributes := Add32(d.truncatedAttributes, 1)), offered + [a], fits)
  {
  }

  lemma OneMoreMessage(calls: seq<Call>, text: string)
    ensures var all := calls + [Message(text)];
      && Offered(all) == Offered(calls) && Asked(all) == Asked(calls) && LastMessage(all) == text
      && MessageOverflow(all) == MessageOverflow(calls) + Excess(text, MAX_MESSAGE_BYTES)
  {
    assert (calls + [Message(text)])[..|calls|] == calls;
    assert Offered(calls) + [] == Offered(calls) && Asked(calls) + "" == Asked(calls);
  }

  lemma OverflowAccounts(d: Draft, asked: string, overflow: nat, text: string)
    requires Accounts(d, asked, overflow)
    ensures Accounts(WithMessage(d, text), asked, overflow + Excess(text, MAX_MESSAGE_BYTES))
  {
    var lost := Excess(text, MAX_MESSAGE_BYTES);
    assert Add32(d.truncatedBytes, lost) == (overflow + |asked| - |d.arena| + lost) % WIDE;
  }

  lemma MessageKeepsForm(calls: seq<Call>, text: string)
    requires ClosedForm(Built(calls), calls)
    ensures ClosedForm(WithMessage(Built(calls), text), calls + [Message(text)])
  {
    OneMoreMessage(calls, text);
    OverflowAccounts(Built(calls), Asked(calls), MessageOverflow(calls), text);
  }

  /** After any calls: the arena holds the first 256 bytes of everything that asked for room, the stored
      texts are prefixes of those offered, the first eight attributes are kept, and the loss counters
      have counted, modulo 2^32, exactly what is missing. */
  lemma {:induction false} BuilderKeepsPrefixes(calls: seq<Call>)
    ensures ClosedForm(Built(calls), calls)
  {
    if calls != [] {
      var before, last := calls[..|calls| - 1], calls[|calls| - 1];
      BuilderKeepsPrefixes(before);
      assert calls == before + [last];
      match last {
        case Message(text) => MessageKeepsForm(before, text);
        case Attr(a) => AttrKeepsForm(before, a);
      }
    }
  }

  // ----- How much of each text is kept

  /** The room in the arena once so many bytes have asked for it. */
  function RoomAfter(asked: nat): nat {
    if asked <= MAX_ATTR_TEXT_BYTES then MAX_ATTR_TEXT_BYTES - asked else 0
  }

  /** As much of an attribute as there is room for behind what has asked before: of its text, then of its key. */
  function CutOffer(a: Attribute, asked: nat): Attribute {
    Attribute(Prefix(a.key, RoomAfter(asked + |TextOf(a.value)|)),
              if a.value.Text? then Text(Prefix(a.value.t, RoomAfter(asked))) else a.value, a.kind)
  }

  /** The bytes that attributes with a place ask for. */
  function AskedBy(offered: seq<Attribute>): nat {
    if offered == [] then 0
    else
      var last := offered[|offered| - 1];
      AskedBy(offered[..|offered| - 1]) + |TextOf(last.value)| + |last.key|
  }

  ghost predicate CutExactly(attributes: seq<Attribute>, offered: seq<Attribute>) {
    && |attributes| == Min(|offered|, MAX_ATTRIBUTES)
    && forall i :: 0 <= i < |attributes| ==> attributes[i] == CutOffer(offered[i], AskedBy(offered[..i]))
  }

  lemma {:induction false} AskedLength(calls: seq<Call>)
    requires |Offered(calls)| <= MAX_ATTRIBUTES
    ensures |Asked(calls)| == AskedBy(Offered(calls))
  {
    if calls != [] {
      var before, last := calls[..|calls| - 1], calls[|calls| - 1];
      AskedLength(before);
      if last.Attr? {
        assert Offered(calls)[..|Offered(before)|] == Offered(before);
      } else {
        assert Offered(calls) == Offered(before);
      }
    }
  }

  lemma AttrCut(d: Draft, asked: string, overflow: nat, a: Attribute)
    requires Accounts(d, asked, overflow) && |d.attributes| < MAX_ATTRIBUTES
    ensures WithAttribute(d, a).attributes == d.attributes + [CutOffer(a, |asked|)]
  {
    CopyKeepsAccounts(d, asked, overflow, TextOf(a.value));
  }

  lemma OneMoreCut(attributes: seq<Attribute>, offered: seq<Attribute>, a: Attribute)
    requires CutExactly(attributes, offered) && |offered| < MAX_ATTRIBUTES
    ensures CutExactly(attributes + [CutOffer(a, AskedBy(offered))], offered + [a])
  {
    var kept, all := attributes + [CutOffer(a, AskedBy(offered))], offered + [a];
    forall i | 0 <= i < |kept| ensures kept[i] == CutOffer(all[i], AskedBy(all[..i])) {
      assert all[..i] == offered[..i];
      if i == |attributes| { assert offered[..i] == offered; }
    }
  }

  lemma NoMoreCut(attributes: seq<Attribute>, offered: seq<Attribute>, a: Attribute)
    requires CutExactly(attributes, offered) && |offered| >= MAX_ATTRIBUTES
    ensures CutExactly(attributes, offered + [a])
  {
    var all := offered + [a];
    forall i | 0 <= i < |attributes| ensures attributes[i] == CutOffer(all[i], AskedBy(all[..i])) {
      assert all[..i] == offered[..i];
    }
  }

  lemma AttrKeepsCut(calls: seq<Call>, a: Attribute)
    requires ClosedForm(Built(calls), calls) && CutExactly(Built(calls).attributes, Offered(calls))
    ensures CutExactly(WithAttribute(Built(calls), a).attributes, Offered(calls) + [a])
  {
    if |Offered(calls)| < MAX_ATTRIBUTES {
      AskedLength(calls);
      AttrCut(Built(calls), Asked(calls), MessageOverflow(calls), a);
      OneMoreCut(Built(calls).attributes, Offered(calls), a);
    } else {
      NoMoreCut(Built(calls).attributes, Offered(calls), a);
    }
  }

  /** After any calls, of each stored attribute exactly as much is kept as the arena has room for behind all
      that has asked for room before it. */
  lemma {:induction false} BuilderCutsExactly(calls: seq<Call>)
    ensures CutExactly(Built(calls).attributes, Offered(calls))
  {
    if calls != [] {
      var before, last := calls[..|calls| - 1], calls[|calls| - 1];
      BuilderCutsExactly(before);
      BuilderKeepsPrefixes(before);
      match last {
        case Message(_) => assert Offered(calls) == Offered(before);
        case Attr(a) =>
          AttrKeepsCut(before, a);
      }
    }
  }
}
