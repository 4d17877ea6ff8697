/** The way of a record through the components: built, merged with the context, passed through the
    asynchronous sink, printed as JSON, and read. */
module Pipeline {
  import opened Basics
  import opened Records
  import BuilderRuns
  import Dispatch
  import Formatting
  import Json
  import JsonFormatter
  import OwnedRecords
  import RecordBuilder

  /** What a dispatched record has from its logger, its caller and the clock. */
  datatype Frame = Frame(timestamp: u64, level: LogLevel, logger: string, source: Source, thread: u64)

  function Dispatched(frame: Frame, context: seq<Dispatch.ContextEntry>, calls: seq<BuilderRuns.Call>): Record {
    var d := BuilderRuns.Built(calls);
    var m := Dispatch.MergeOf(context, d.attributes, d.truncatedAttributes, d.truncatedBytes);
    Record(frame.timestamp, frame.level, frame.logger, d.message, frame.source, frame.thread,
           m.attributes, m.truncatedAttributes, m.truncatedBytes)
  }

  /** All the attributes that compete for a place in the record. */
  function Offers(context: seq<Dispatch.ContextEntry>, calls: seq<BuilderRuns.Call>): seq<Attribute> {
    var d := BuilderRuns.Built(calls);
    Dispatch.CopyContext(context, d.truncatedBytes).offers + d.attributes
  }

  // ----- What is dispatched

  /** The record's attributes and losses are those of the context merged with these attributes of the builder,
      which are the attributes of its calls, cut to the room there was. */
  ghost predicate DispatchedWith(r: Record, context: seq<Dispatch.ContextEntry>, calls: seq<BuilderRuns.Call>,
                                 built: seq<Attribute>) {
    var offered := BuilderRuns.Offered(calls);
    var lost := BuilderRuns.MessageOverflow(calls) + Excess(BuilderRuns.Asked(calls), MAX_ATTR_TEXT_BYTES);
    && BuilderRuns.CutExactly(built, offered)
    && Dispatch.MergedFrom(context, built, Excess(offered, MAX_ATTRIBUTES) % WIDE, lost % WIDE,
                           Dispatch.Merge(r.attributes, r.truncatedAttributes, r.truncatedBytes))
  }

  lemma BuiltExactly(calls: seq<BuilderRuns.Call>)
    ensures var d, offered := BuilderRuns.Built(calls), BuilderRuns.Offered(calls);
      && d.message == Prefix(BuilderRuns.LastMessage(calls), MAX_MESSAGE_BYTES)
      && BuilderRuns.CutExactly(d.attributes, offered)
      && d.truncatedAttributes == Excess(offered, MAX_ATTRIBUTES) % WIDE
      && d.truncatedBytes
         == (BuilderRuns.MessageOverflow(calls) + Excess(BuilderRuns.Asked(calls), MAX_ATTR_TEXT_BYTES)) % WIDE
  {
    BuilderRuns.BuilderKeepsPrefixes(calls);
    BuilderRuns.BuilderCutsExactly(calls);
  }

  /** A dispatched record has the level, source and time of its call, the front of the last message, and the
      builder's attributes merged over the context's, with every loss counted modulo 2^32. */
  lemma {:induction false} DispatchedExactly(frame: Frame, context: seq<Dispatch.ContextEntry>,
                                             calls: seq<BuilderRuns.Call>)
    ensures var r := Dispatched(frame, context, calls);
      && frame == Frame(r.timestamp, r.level, r.logger, r.source, r.thread)
      && r.message == Prefix(BuilderRuns.LastMessage(calls), MAX_MESSAGE_BYTES)
      && exists built :: DispatchedWith(r, context, calls, built)
  {
    var r, d := Dispatched(frame, context, calls), BuilderRuns.Built(calls);
    BuiltExactly(calls);
    Dispatch.MergeOfExactly(context, d.attributes, d.truncatedAttributes, d.truncatedBytes);
    assert DispatchedWith(r, context, calls, d.attributes);
  }

  // ----- Names in the attributes object

  /** No name is printed twice. */
  ghost predicate UniqueNames(r: Record) {
    forall i, j :: 0 <= i < j < |r.attributes| ==>
      Formatting.JsonEscaped(r.attributes[i].key) != Formatting.JsonEscaped(r.attributes[j].key)
  }

  ghost predicate UniqueKeys(attributes: seq<Attribute>) {
    forall i, j :: 0 <= i < j < |attributes| ==> attributes[i].key != attributes[j].key
  }

  lemma EscapeIsInjective(a: string, b: string)
    requires Formatting.JsonEscaped(a) == Formatting.JsonEscaped(b)
    ensures a == b
  {
    Json.ParseEscaped(a, "");
    Json.ParseEscaped(b, "");
  }

  lemma NamesAreKeys(r: Record)
    ensures UniqueNames(r) <==> UniqueKeys(r.attributes)
  {
    forall i, j | 0 <= i < j < |r.attributes|
      ensures Formatting.JsonEscaped(r.attributes[i].key) == Formatting.JsonEscaped(r.attributes[j].key)
              <==> r.attributes[i].key == r.attributes[j].key
    {
      if Formatting.JsonEscaped(r.attributes[i].key) == Formatting.JsonEscaped(r.attributes[j].key) {
        EscapeIsInjective(r.attributes[i].key, r.attributes[j].key);
      }
    }
  }

  /** The attributes object of a dispatched record never repeats a name. */
  lemma DispatchedNamesAreUnique(frame: Frame, context: seq<Dispatch.ContextEntry>, calls: seq<BuilderRuns.Call>)
    ensures UniqueNames(Dispatched(frame, context, calls))
  {
    Dispatch.MergedKeysAreDistinct(Offers(context, calls));
    NamesAreKeys(Dispatched(frame, context, calls));
  }

  // ----- Where the attributes come from

  lemma {:induction false} MergedAreOffered(offers: seq<Attribute>)
    ensures forall a :: a in Dispatch.MergeAll(offers).attributes ==> a in offers
  {
    if offers != [] {
      var front, last := offers[..|offers| - 1], offers[|offers| - 1];
      MergedAreOffered(front);
      forall a | a in Dispatch.MergeAll(offers).attributes ensures a in offers {
        assert a in Dispatch.MergeAll(front).attributes || a == last;
        assert a in front ==> a in offers;
      }
    }
  }

  lemma {:induction false} BuiltFit(calls: seq<BuilderRuns.Call>)
    ensures forall a :: a in BuilderRuns.Built(calls).attributes ==> OwnedRecords.FitsOne(a)
    ensures |BuilderRuns.Built(calls).message| <= MAX_MESSAGE_BYTES
  {
    if calls != [] { BuiltFit(calls[..|calls| - 1]); }
  }

  /** An entry that the owned copy can hold. */
  predicate EntryFits(e: Dispatch.ContextEntry) {
    |e.key| <= MAX_ATTR_TEXT_BYTES && (e.value.Text? ==> |e.value.t| <= MAX_ATTR_TEXT_BYTES)
  }

  lemma OffersFit(context: seq<Dispatch.ContextEntry>, calls: seq<BuilderRuns.Call>)
    requires forall i :: 0 <= i < |context| ==> EntryFits(context[i])
    ensures forall a :: a in Offers(context, calls) ==> OwnedRecords.FitsOne(a)
  {
    BuiltFit(calls);
    var start := BuilderRuns.Built(calls).truncatedBytes;
    Dispatch.ContextKeepsPrefixes(context, start);
    var copied := Dispatch.CopyContext(context, start).offers;
    forall i | 0 <= i < |copied| ensures OwnedRecords.FitsOne(copied[i]) {
      assert Dispatch.IsCopyOf(copied[i], context[i]) && EntryFits(context[i]);
    }
  }

  // ----- Names after the passage through the asynchronous sink

  function KeyBytes(offers: seq<Attribute>): nat {
    if offers == [] then 0 else KeyBytes(offers[..|offers| - 1]) + |offers[|offers| - 1].key|
  }

  lemma {:induction false} TwoKeys(offers: seq<Attribute>, i: nat, j: nat)
    requires i < j < |offers|
    ensures |offers[i].key| + |offers[j].key| <= KeyBytes(offers)
  {
    if j < |offers| - 1 {
      TwoKeys(offers[..|offers| - 1], i, j);
    } else {
      OneKey(offers[..j], i);
    }
  }

  lemma {:induction false} OneKey(offers: seq<Attribute>, i: nat)
    requires i < |offers|
    ensures |offers[i].key| <= KeyBytes(offers)
  {
    if i < |offers| - 1 { OneKey(offers[..|offers| - 1], i); }
  }

  lemma {:induction false} KeysAreInTheArena(context: seq<Dispatch.ContextEntry>, start: u32)
    ensures var c := Dispatch.CopyContext(context, start);
      KeyBytes(c.offers) <= |c.arena| <= CONTEXT_TEXT_BYTES
  {
    if context != [] {
      KeysAreInTheArena(context[..|context| - 1], start);
      KeyIsInTheArena(Dispatch.CopyContext(context[..|context| - 1], start), context[|context| - 1]);
    }
  }

  lemma KeyIsInTheArena(c: Dispatch.ContextCopy, e: Dispatch.ContextEntry)
    requires KeyBytes(c.offers) <= |c.arena| <= CONTEXT_TEXT_BYTES
    ensures var d := Dispatch.CopyEntry(c, e); KeyBytes(d.offers) <= |d.arena| <= CONTEXT_TEXT_BYTES
  {
    var d := Dispatch.CopyEntry(c, e);
    assert d.offers[..|d.offers| - 1] == c.offers;
  }

  /** At most one of the offered keys is longer than an owned copy can hold: it takes more than half of
      the context's arena, and the builder has no room for such a key at all. */
  lemma OneLongKey(context: seq<Dispatch.ContextEntry>, calls: seq<BuilderRuns.Call>, a: Attribute, b: Attribute)
    requires a in Offers(context, calls) && b in Offers(context, calls) && a.key != b.key
    ensures |a.key| <= MAX_ATTR_TEXT_BYTES || |b.key| <= MAX_ATTR_TEXT_BYTES
  {
    BuiltFit(calls);
    var d := BuilderRuns.Built(calls);
    var copied := Dispatch.CopyContext(context, d.truncatedBytes).offers;
    if a in copied && b in copied {
      KeysAreInTheArena(context, d.truncatedBytes);
      TwoOfTheKeys(copied, a, b);
    }
  }

  lemma TwoOfTheKeys(offers: seq<Attribute>, a: Attribute, b: Attribute)
    requires a in offers && b in offers && a.key != b.key
    ensures |a.key| + |b.key| <= KeyBytes(offers)
  {
    var i :| 0 <= i < |offers| && offers[i] == a;
    var j :| 0 <= j < |offers| && offers[j] == b;
    TwoKeys(offers, if i < j then i else j, if i < j then j else i);
  }

  /** One name is what the owned copy keeps of another, longer one. */
  ghost predicate Clash(r: Record) {
    exists i, j :: 0 <= i < |r.attributes| && 0 <= j < |r.attributes|
      && IsFrontOf(r.attributes[j].key, r.attributes[i].key)
  }

  predicate IsFrontOf(short: string, long: string) {
    |long| > MAX_ATTR_TEXT_BYTES && short == long[..MAX_ATTR_TEXT_BYTES]
  }

  lemma PassedKeys(r: Record)
    requires |r.attributes| <= MAX_ATTRIBUTES
    ensures var p := OwnedRecords.Passed(r);
      |p.attributes| == |r.attributes|
      && forall i :: 0 <= i < |p.attributes| ==> p.attributes[i].key == Prefix(r.attributes[i].key, MAX_ATTR_TEXT_BYTES)
  {
  }

  lemma DispatchedAttributes(frame: Frame, context: seq<Dispatch.ContextEntry>, calls: seq<BuilderRuns.Call>)
    ensures var r := Dispatched(frame, context, calls);
      && |r.attributes| <= MAX_ATTRIBUTES && UniqueKeys(r.attributes)
      && forall i :: 0 <= i < |r.attributes| ==> r.attributes[i] in Offers(context, calls)
  {
    var offers := Offers(context, calls);
    Dispatch.MergedKeysAreDistinct(offers);
    Dispatch.MergeIsClosedForm(offers);
    MergedAreOffered(offers);
    forall a | a in Dispatch.MergeAll(offers).attributes ensures a in offers { }
  }

  /** Behind the asynchronous sink names may repeat: exactly if one name is the first 256 bytes of another. */
  lemma PassedNamesAreUnique(frame: Frame, context: seq<Dispatch.ContextEntry>, calls: seq<BuilderRuns.Call>)
    ensures var r := Dispatched(frame, context, calls); UniqueNames(OwnedRecords.Passed(r)) <==> !Clash(r)
  {
    var r := Dispatched(frame, context, calls);
    var p := OwnedRecords.Passed(r);
    DispatchedAttributes(frame, context, calls);
    PassedKeys(r);
    NamesAreKeys(p);
    if Clash(r) {
      var i, j :| 0 <= i < |r.attributes| && 0 <= j < |r.attributes|
                  && IsFrontOf(r.attributes[j].key, r.attributes[i].key);
      assert p.attributes[i].key == p.attributes[j].key && i != j;
      assert !UniqueKeys(p.attributes) by {
        var low, high := if i < j then i else j, if i < j then j else i;
        assert p.attributes[low].key == p.attributes[high].key;
      }
    } else {
      forall i, j | 0 <= i < j < |p.attributes| ensures p.attributes[i].key != p.attributes[j].key {
        DifferentFronts(context, calls, r.attributes[i], r.attributes[j]);
        assert !IsFrontOf(r.attributes[j].key, r.attributes[i].key)
               && !IsFrontOf(r.attributes[i].key, r.attributes[j].key);
      }
    }
  }

  lemma DifferentFronts(context: seq<Dispatch.ContextEntry>, calls: seq<BuilderRuns.Call>, a: Attribute, b: Attribute)
    requires a in Offers(context, calls) && b in Offers(context, calls) && a.key != b.key
    ensures Prefix(a.key, MAX_ATTR_TEXT_BYTES) == Prefix(b.key, MAX_ATTR_TEXT_BYTES) ==>
              IsFrontOf(a.key, b.key) || IsFrontOf(b.key, a.key)
  {
    OneLongKey(context, calls, a, b);
  }

  lemma BuiltOne(a: Attribute)
    requires |a.key| <= MAX_ATTR_TEXT_BYTES && !a.value.Text?
    ensures var d := BuilderRuns.Built([BuilderRuns.Attr(a)]); d.attributes == [a] && d.truncatedBytes == 0
  {
    assert [BuilderRuns.Attr(a)][..0] == [];
    assert BuilderRuns.Built([]) == RecordBuilder.BLANK;
    var copied := RecordBuilder.CopiedText(RecordBuilder.BLANK, "");
    assert copied.arena == "" && copied.truncatedBytes == 0;
    assert RecordBuilder.Fitting(MAX_ATTR_TEXT_BYTES, copied.arena, a.key) == a.key;
    assert RecordBuilder.WithAttribute(RecordBuilder.BLANK, a).attributes == [] + [a];
  }

  lemma CopiedOne(e: Dispatch.ContextEntry)
    requires |e.key| <= CONTEXT_TEXT_BYTES && !e.value.Text?
    ensures Dispatch.CopyContext([e], 0).offers == [Attribute(e.key, e.value, Default)]
  {
    assert [e][..0] == [];
    var blank := Dispatch.CopyContext([], 0);
    assert Dispatch.CopyText(blank, e.key).0 == e.key;
    assert Dispatch.CopyEntry(blank, e).offers == [] + [Attribute(e.key, e.value, Default)];
  }

  /** A context key of 257 bytes and a builder key of its first 256: both are printed, and behind the
      asynchronous sink under the same name. */
  lemma LongContextKeyClashes(frame: Frame, key: string, more: char)
    requires |key| == MAX_ATTR_TEXT_BYTES
    ensures var context := [Dispatch.ContextEntry(key + [more], Boolean(true))];
      var calls := [BuilderRuns.Attr(Attribute(key, Boolean(false), Tag))];
      var r := Dispatched(frame, context, calls);
      UniqueNames(r) && !UniqueNames(OwnedRecords.Passed(r))
  {
    var e, a := Dispatch.ContextEntry(key + [more], Boolean(true)), Attribute(key, Boolean(false), Tag);
    var r := Dispatched(frame, [e], [BuilderRuns.Attr(a)]);
    DispatchedNamesAreUnique(frame, [e], [BuilderRuns.Attr(a)]);
    PassedNamesAreUnique(frame, [e], [BuilderRuns.Attr(a)]);
    BuiltOne(a);
    CopiedOne(e);
    assert Offers([e], [BuilderRuns.Attr(a)]) == [Attribute(e.key, e.value, Default), a];
    TwoOffers(Attribute(e.key, e.value, Default), a);
    assert r.attributes[0].key == e.key && r.attributes[1].key == key;
    assert IsFrontOf(r.attributes[1].key, r.attributes[0].key);
  }

  lemma TwoOffers(a: Attribute, b: Attribute)
    requires a.key != b.key
    ensures Dispatch.MergeAll([a, b]) == Dispatch.Merged([a, b], 0)
  {
    assert [a, b][..1] == [a] && [a][..0] == [];
    assert Dispatch.MergeAll([a]) == Dispatch.Merged([a], 0);
  }

  // ----- The whole way

  lemma DispatchedFits(frame: Frame, context: seq<Dispatch.ContextEntry>, calls: seq<BuilderRuns.Call>)
    requires |frame.logger| <= MAX_MESSAGE_BYTES && forall i :: 0 <= i < |context| ==> EntryFits(context[i])
    ensures OwnedRecords.Fits(Dispatched(frame, context, calls))
  {
    DispatchedAttributes(frame, context, calls);
    OffersFit(context, calls);
    BuiltFit(calls);
  }

  /** Whatever was logged, the line written behind the asynchronous sink is read as the record that the
      queue delivered. If the logger's name and the context's texts fit the queue's buffers it is the
      dispatched record itself, and no name repeats. */
  lemma WholeWay(frame: Frame, context: seq<Dispatch.ContextEntry>, calls: seq<BuilderRuns.Call>,
                 lib: JsonFormatter.Library, style: Formatting.TimestampStyle)
    requires !Formatting.IsIso(style) && JsonFormatter.DoublesAreNumbers(lib, Dispatched(frame, context, calls))
    ensures var r := Dispatched(frame, context, calls);
      var p := OwnedRecords.Passed(r);
      var line := Json.Show(JsonFormatter.RecordJson(lib, style, p)) + "\n";
      && JsonFormatter.ReadLine(line) == Some(JsonFormatter.FactsOf(lib, style, p))
      && (|frame.logger| <= MAX_MESSAGE_BYTES && (forall i :: 0 <= i < |context| ==> EntryFits(context[i])) ==>
            JsonFormatter.ReadLine(line) == Some(JsonFormatter.FactsOf(lib, style, r)) && UniqueNames(p))
  {
    var r := Dispatched(frame, context, calls);
    PassedDoubles(lib, r);
    JsonFormatter.ReadUndoesFormat(lib, style, OwnedRecords.Passed(r));
    if |frame.logger| <= MAX_MESSAGE_BYTES && forall i :: 0 <= i < |context| ==> EntryFits(context[i]) {
      DispatchedFits(frame, context, calls);
      OwnedRecords.FittingPasses(r);
      DispatchedNamesAreUnique(frame, context, calls);
    }
  }

  lemma PassedDoubles(lib: JsonFormatter.Library, r: Record)
    requires JsonFormatter.DoublesAreNumbers(lib, r)
    ensures JsonFormatter.DoublesAreNumbers(lib, OwnedRecords.Passed(r))
  {
    var p := OwnedRecords.Passed(r);
    forall i | 0 <= i < |p.attributes| && p.attributes[i].value.Double?
      ensures Json.NumberJson(lib.doubleText(p.attributes[i].value.bits)).Some?
    {
      assert p.attributes[i] == OwnedRecords.Cut(r.attributes[i]);
    }
  }
}
