/** The owned copy of a record that travels through the asynchronous queue, and the view that is
    rebuilt from it for the wrapped sink. */
module OwnedRecords {
  import opened Basics
  import opened Records

  // ----- What one passage does to a record

  function CutValue(v: Value): Value {
    if v.Text? then Text(Prefix(v.t, MAX_ATTR_TEXT_BYTES)) else v
  }

  function Cut(a: Attribute): Attribute {
    Attribute(Prefix(a.key, MAX_ATTR_TEXT_BYTES), CutValue(a.value), a.kind)
  }

  function CutAll(attributes: seq<Attribute>): (r: seq<Attribute>)
    ensures |r| == |attributes|
  {
    seq(|attributes|, i requires 0 <= i < |attributes| => Cut(attributes[i]))
  }

  function LostFrom(a: Attribute): nat {
    Excess(a.key, MAX_ATTR_TEXT_BYTES) + (if a.value.Text? then Excess(a.value.t, MAX_ATTR_TEXT_BYTES) else 0)
  }

  function LostFromAll(attributes: seq<Attribute>): nat {
    if attributes == [] then 0
    else LostFromAll(attributes[..|attributes| - 1]) + LostFrom(attributes[|attributes| - 1])
  }

  /** The bytes of a record that do not fit its owned copy. */
  function BytesLost(r: Record): nat {
    Excess(r.logger, MAX_MESSAGE_BYTES) + Excess(r.message, MAX_MESSAGE_BYTES)
    + LostFromAll(Prefix(r.attributes, MAX_ATTRIBUTES))
  }

  function Passed(r: Record): Record {
    r.(logger := Prefix(r.logger, MAX_MESSAGE_BYTES),
       message := Prefix(r.message, MAX_MESSAGE_BYTES),
       attributes := CutAll(Prefix(r.attributes, MAX_ATTRIBUTES)),
       truncatedAttributes := Add32(r.truncatedAttributes, Excess(r.attributes, MAX_ATTRIBUTES)),
       truncatedBytes := Add32(r.truncatedBytes, BytesLost(r)))
  }

  // ----- The copy

  class InlineText {
    const capacity: nat
    const buffer: array<char>
    var size: nat

    ghost predicate Valid()
      reads this, buffer
    {
      buffer.Length == capacity + 1 && size <= capacity && buffer[size] == '\0'
    }

    function View(): string
      reads this, buffer
      requires Valid()
    {
      buffer[..size]
    }

    constructor (capacity: nat)
      ensures Valid() && fresh(buffer) && this.capacity == capacity && View() == ""
    {
      this.capacity := capacity;
      buffer := new char[capacity + 1];
      size := 0;
      new;
      buffer[0] := '\0';
    }

    method Assign(input: string, truncatedBytes: u32) returns (counter: u32)
      requires Valid()
      modifies this`size, buffer
      ensures Valid() && View() == Prefix(input, capacity)
      ensures counter == Add32(truncatedBytes, Excess(input, capacity))
    {
      var copyLength := Min(|input|, capacity);
      forall i | 0 <= i < copyLength { buffer[i] := input[i]; }
      size := copyLength;
      buffer[size] := '\0';
      counter := truncatedBytes;
      if |input| > copyLength {
        counter := Add32(truncatedBytes, |input| - copyLength);
      }
    }
  }

  datatype OwnedValue = Unset | Plain(v: Value) | Inline(text: InlineText)

  datatype OwnedAttribute = OwnedAttribute(key: InlineText, value: OwnedValue, kind: AttributeKind)

  ghost predicate ValueOk(value: OwnedValue)
    reads if value.Inline? then {value.text, value.text.buffer} else {}
  {
    && (value.Inline? ==> value.text.Valid())
    && (value.Plain? ==> !value.v.Text?)
  }

  ghost predicate AttributeOk(a: OwnedAttribute)
    reads a.key, a.key.buffer, if a.value.Inline? then {a.value.text, a.value.text.buffer} else {}
  {
    a.key.Valid() && ValueOk(a.value)
  }

  /** An unset value reads as the number 0. */
  function ToViewValue(value: OwnedValue): Value
    reads if value.Inline? then {value.text, value.text.buffer} else {}
    requires ValueOk(value)
  {
    match value
    case Unset => Signed(0)
    case Plain(v) => v
    case Inline(text) => Text(text.View())
  }

  function ToViewAttribute(a: OwnedAttribute): Attribute
    reads a.key, a.key.buffer, if a.value.Inline? then {a.value.text, a.value.text.buffer} else {}
    requires AttributeOk(a)
  {
    Attribute(a.key.View(), ToViewValue(a.value), a.kind)
  }

  method NewText(capacity: nat, input: string, truncatedBytes: u32) returns (text: InlineText, counter: u32)
    ensures fresh(text) && fresh(text.buffer) && text.Valid() && text.View() == Prefix(input, capacity)
    ensures counter == Add32(truncatedBytes, Excess(input, capacity))
  {
    text := new InlineText(capacity);
    counter := text.Assign(input, truncatedBytes);
  }

  method NewAttribute(a: Attribute, truncatedBytes: u32) returns (owned: OwnedAttribute, counter: u32)
    ensures AttributeOk(owned) && ToViewAttribute(owned) == Cut(a)
    ensures fresh(owned.key) && fresh(owned.key.buffer)
    ensures owned.value.Inline? ==> fresh(owned.value.text) && fresh(owned.value.text.buffer)
    ensures counter == Add32(truncatedBytes, LostFrom(a))
  {
    var key, afterKey := NewText(MAX_ATTR_TEXT_BYTES, a.key, truncatedBytes);
    if a.value.Text? {
      var text, afterText := NewText(MAX_ATTR_TEXT_BYTES, a.value.t, afterKey);
      owned := OwnedAttribute(key, Inline(text), a.kind);
      counter := afterText;
    } else {
      owned := OwnedAttribute(key, Plain(a.value), a.kind);
      counter := afterKey;
    }
    Add32Twice(truncatedBytes, Excess(a.key, MAX_ATTR_TEXT_BYTES), LostFrom(a) - Excess(a.key, MAX_ATTR_TEXT_BYTES));
  }

  lemma LostFromOneMore(truncatedBytes: u32, attributes: seq<Attribute>, i: nat)
    requires i < |attributes|
    ensures Add32(Add32(truncatedBytes, LostFromAll(attributes[..i])), LostFrom(attributes[i]))
         == Add32(truncatedBytes, LostFromAll(attributes[..i + 1]))
  {
    assert attributes[..i + 1][..i] == attributes[..i];
    Add32Twice(truncatedBytes, LostFromAll(attributes[..i]), LostFrom(attributes[i]));
  }

  method NewAttributes(attributes: seq<Attribute>, truncatedBytes: u32)
    returns (owned: seq<OwnedAttribute>, counter: u32)
    ensures |owned| == |attributes|
    ensures forall k :: 0 <= k < |owned| ==> AttributeOk(owned[k]) && ToViewAttribute(owned[k]) == Cut(attributes[k])
    ensures counter == Add32(truncatedBytes, LostFromAll(attributes))
  {
    owned, counter := [], truncatedBytes;
    var i := 0;
    while i < |attributes|
      invariant i == |owned| <= |attributes|
      invariant forall k :: 0 <= k < i ==> AttributeOk(owned[k]) && ToViewAttribute(owned[k]) == Cut(attributes[k])
      invariant counter == Add32(truncatedBytes, LostFromAll(attributes[..i]))
    {
      var one;
      one, counter := NewAttribute(attributes[i], counter);
      LostFromOneMore(truncatedBytes, attributes, i);
      owned, i := owned + [one], i + 1;
    }
    assert attributes[..i] == attributes;
  }

  method NewTexts(record: Record) returns (name: InlineText, text: InlineText, counter: u32)
    ensures fresh(name) && fresh(name.buffer) && name.Valid() && name.View() == Prefix(record.logger, MAX_MESSAGE_BYTES)
    ensures fresh(text) && fresh(text.buffer) && text.Valid()
            && text.View() == Prefix(record.message, MAX_MESSAGE_BYTES)
    ensures counter == Add32(record.truncatedBytes,
                             Excess(record.logger, MAX_MESSAGE_BYTES) + Excess(record.message, MAX_MESSAGE_BYTES))
  {
    name, counter := NewText(MAX_MESSAGE_BYTES, record.logger, 0);
    text, counter := NewText(MAX_MESSAGE_BYTES, record.message, counter);
    counter := Add32(counter, record.truncatedBytes);
    AddInAnyOrder(record.truncatedBytes, Excess(record.logger, MAX_MESSAGE_BYTES),
                  Excess(record.message, MAX_MESSAGE_BYTES));
  }

  lemma AddInAnyOrder(base: u32, a: nat, b: nat)
    ensures Add32(Add32(Add32(0, a), b), base) == Add32(base, a + b)
  {
    Add32Twice(0, a, b);
    Add32Twice(0, a + b, base);
  }

  method CountAttributes(record: Record) returns (count: nat, lost: u32)
    ensures count == Min(|record.attributes|, MAX_ATTRIBUTES)
    ensures lost == Add32(record.truncatedAttributes, Excess(record.attributes, MAX_ATTRIBUTES))
  {
    count, lost := Min(|record.attributes|, MAX_ATTRIBUTES), record.truncatedAttributes;
    if |record.attributes| > count {
      lost := Add32(lost, (|record.attributes| - count) % WIDE);
    }
  }

  /** The owned record: a plain struct, moved as a whole through the queue. */
  datatype OwnedRecord = OwnedRecord(
    timestamp: u64, level: LogLevel, loggerName: InlineText, message: InlineText, source: Source, thread: u64,
    attributes: seq<OwnedAttribute>, truncatedAttributeCount: u32, truncatedBytes: u32)

  ghost predicate RecordOk(owned: OwnedRecord)
    reads *
  {
    && owned.loggerName.Valid() && owned.message.Valid() && |owned.attributes| <= MAX_ATTRIBUTES
    && forall i :: 0 <= i < |owned.attributes| ==> AttributeOk(owned.attributes[i])
  }

  /** The owned record reads, field by field, as a given record. */
  ghost predicate ReadsAs(owned: OwnedRecord, r: Record)
    reads *
  {
    && RecordOk(owned)
    && owned.timestamp == r.timestamp && owned.level == r.level && owned.source == r.source && owned.thread == r.thread
    && owned.loggerName.View() == r.logger && owned.message.View() == r.message
    && owned.truncatedAttributeCount == r.truncatedAttributes && owned.truncatedBytes == r.truncatedBytes
    && |owned.attributes| == |r.attributes|
    && forall i :: 0 <= i < |owned.attributes| ==> ToViewAttribute(owned.attributes[i]) == r.attributes[i]
  }

  method ToOwned(record: Record) returns (out: OwnedRecord)
    ensures ReadsAs(out, Passed(record))
  {
    var name, text, bytes := NewTexts(record);
    var count, lost := CountAttributes(record);
    var owned, total := NewAttributes(record.attributes[..count], bytes);
    Add32Twice(record.truncatedBytes,
               Excess(record.logger, MAX_MESSAGE_BYTES) + Excess(record.message, MAX_MESSAGE_BYTES),
               LostFromAll(record.attributes[..count]));
    out := OwnedRecord(record.timestamp, record.level, name, text, record.source, record.thread, owned, lost, total);
  }

  /** Deliver: the record handed to the wrapped sink. */
  method Deliver(owned: OwnedRecord, ghost r: Record) returns (record: Record)
    requires ReadsAs(owned, r)
    ensures record == r
  {
    var attrs: seq<Attribute> := [];
    var i := 0;
    while i < |owned.attributes|
      invariant i == |attrs| <= |owned.attributes|
      invariant attrs == r.attributes[..i]
    {
      attrs := attrs + [ToViewAttribute(owned.attributes[i])];
      i := i + 1;
    }
    record := Record(owned.timestamp, owned.level, owned.loggerName.View(), owned.message.View(), owned.source,
                     owned.thread, attrs, owned.truncatedAttributeCount, owned.truncatedBytes);
  }

  /** A record's way through the queue, from the producer's view to the wrapped sink's. */
  method Pass(record: Record) returns (received: Record)
    ensures received == Passed(record)
  {
    var owned := ToOwned(record);
    received := Deliver(owned, Passed(record));
  }

  // ----- What the passage keeps

  predicate FitsOne(a: Attribute) {
    |a.key| <= MAX_ATTR_TEXT_BYTES && (a.value.Text? ==> |a.value.t| <= MAX_ATTR_TEXT_BYTES)
  }

  predicate Fits(r: Record) {
    && |r.logger| <= MAX_MESSAGE_BYTES && |r.message| <= MAX_MESSAGE_BYTES && |r.attributes| <= MAX_ATTRIBUTES
    && forall i :: 0 <= i < |r.attributes| ==> FitsOne(r.attributes[i])
  }

  function TextBytes(attributes: seq<Attribute>): nat {
    if attributes == [] then 0
    else
      var a := attributes[|attributes| - 1];
      TextBytes(attributes[..|attributes| - 1]) + |a.key| + (if a.value.Text? then |a.value.t| else 0)
  }

  lemma {:induction false} BytesAreCounted(attributes: seq<Attribute>)
    ensures TextBytes(attributes) == TextBytes(CutAll(attributes)) + LostFromAll(attributes)
  {
    if attributes != [] {
      var shorter := attributes[..|attributes| - 1];
      BytesAreCounted(shorter);
      assert CutAll(attributes)[..|attributes| - 1] == CutAll(shorter);
    }
  }

  /** An attribute's texts cut to the owned buffers, and nothing else changed. */
  ghost predicate IsExactCut(kept: Attribute, offered: Attribute) {
    && IsCutOf(kept, offered)
    && |kept.key| == Min(|offered.key|, MAX_ATTR_TEXT_BYTES)
    && (offered.value.Text? ==> |kept.value.t| == Min(|offered.value.t|, MAX_ATTR_TEXT_BYTES))
  }

  /** A record that has passed has the fronts of its texts and the first attributes, as much as the buffers
      hold; both counters are raised, modulo 2^32, by exactly what is gone; the rest is as it was. */
  lemma PassageCutsAndCounts(r: Record)
    ensures var p := Passed(r);
      && p.timestamp == r.timestamp && p.level == r.level && p.source == r.source && p.thread == r.thread
      && p.logger <= r.logger && |p.logger| == Min(|r.logger|, MAX_MESSAGE_BYTES)
      && p.message <= r.message && |p.message| == Min(|r.message|, MAX_MESSAGE_BYTES)
      && |p.attributes| == Min(|r.attributes|, MAX_ATTRIBUTES)
      && (forall i :: 0 <= i < |p.attributes| ==> IsExactCut(p.attributes[i], r.attributes[i]))
      && p.truncatedAttributes == (r.truncatedAttributes + |r.attributes| - |p.attributes|) % WIDE
      && p.truncatedBytes == (r.truncatedBytes + |r.logger| + |r.message|
                              + TextBytes(Prefix(r.attributes, MAX_ATTRIBUTES))
                              - |p.logger| - |p.message| - TextBytes(p.attributes)) % WIDE
  {
    BytesAreCounted(Prefix(r.attributes, MAX_ATTRIBUTES));
    forall i | 0 <= i < |Passed(r).attributes| ensures IsExactCut(Passed(r).attributes[i], r.attributes[i]) {
      CutIsExact(r.attributes[i]);
    }
  }

  lemma CutIsExact(a: Attribute)
    ensures IsExactCut(Cut(a), a)
  {
  }

  lemma {:induction false} NothingLost(attributes: seq<Attribute>)
    requires forall i :: 0 <= i < |attributes| ==> FitsOne(attributes[i])
    ensures LostFromAll(attributes) == 0 && CutAll(attributes) == attributes
  {
    if attributes != [] {
      NothingLost(attributes[..|attributes| - 1]);
    }
    forall i | 0 <= i < |attributes| ensures Cut(attributes[i]) == attributes[i] {
      assert FitsOne(attributes[i]);
    }
  }

  lemma PassedFits(r: Record)
    ensures Fits(Passed(r))
  {
    var p := Passed(r);
    forall i | 0 <= i < |p.attributes| ensures FitsOne(p.attributes[i]) {
      assert p.attributes[i] == Cut(r.attributes[i]);
    }
  }

  lemma FittingPasses(r: Record)
    requires Fits(r)
    ensures Passed(r) == r
  {
    NothingLost(r.attributes);
    assert Prefix(r.attributes, MAX_ATTRIBUTES) == r.attributes;
  }

  /** A record passes unchanged if and only if it fits, and a second passage changes nothing. */
  lemma PassageIsExact(r: Record)
    ensures Passed(r) == r <==> Fits(r)
    ensures Passed(Passed(r)) == Passed(r)
  {
    PassedFits(r);
    FittingPasses(Passed(r));
    if Fits(r) { FittingPasses(r); }
  }
}
