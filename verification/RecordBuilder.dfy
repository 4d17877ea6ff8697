/** The bounded builder: one buffer for the message, one arena for all attribute texts. */
module RecordBuilder {
  import opened Basics
  import opened Records

  // ----- What a sequence of calls means

  /** The builder's content: the bytes used in the arena, and what has been stored. */
  datatype Draft = Draft(
    message: string, arena: string, attributes: seq<Attribute>,
    truncatedAttributes: u32, truncatedBytes: u32)

  const BLANK := Draft("", "", [], 0, 0)

  /** What is left of a text offered to an arena. */
  function Fitting(capacity: nat, arena: string, text: string): string {
    if |arena| <= capacity then Prefix(text, capacity - |arena|) else ""
  }

  function CopiedText(d: Draft, text: string): Draft {
    var copy := Fitting(MAX_ATTR_TEXT_BYTES, d.arena, text);
    d.(arena := d.arena + copy, truncatedBytes := Add32(d.truncatedBytes, |text| - |copy|))
  }

  function WithMessage(d: Draft, message: string): Draft {
    d.(message := Prefix(message, MAX_MESSAGE_BYTES),
       truncatedBytes := Add32(d.truncatedBytes, Excess(message, MAX_MESSAGE_BYTES)))
  }

  /** The text in a value; other values need no room. */
  function TextOf(v: Value): string { if v.Text? then v.t else "" }

  /** A value whose text has been copied. */
  function Stored(d: Draft, v: Value): Value {
    if v.Text? then Text(Fitting(MAX_ATTR_TEXT_BYTES, d.arena, v.t)) else v
  }

  function Appended(d: Draft, key: string, value: Value, kind: AttributeKind): Draft {
    if |d.attributes| >= MAX_ATTRIBUTES then d.(truncatedAttributes := Add32(d.truncatedAttributes, 1))
    else
      CopiedText(d, key)
      .(attributes := d.attributes + [Attribute(Fitting(MAX_ATTR_TEXT_BYTES, d.arena, key), value, kind)])
  }

  /** The value is copied before the number of attributes is looked at, the key after. */
  function WithAttribute(d: Draft, a: Attribute): Draft {
    Appended(CopiedText(d, TextOf(a.value)), a.key, Stored(d, a.value), a.kind)
  }

  // ----- The builder

  /** A view into the arena. */
  datatype TextRef = TextRef(offset: nat, length: nat)
  {
    function End(): nat { offset + length }
  }

  datatype StoredValue = Scalar(v: Value) | InArena(text: TextRef)

  datatype Slot = Slot(key: TextRef, value: StoredValue, kind: AttributeKind)

  /** A slot's texts lie between two places of the arena, the value's before the key's. */
  predicate Within(slot: Slot, start: nat, end: nat) {
    && start <= slot.key.offset && slot.key.End() <= end
    && (slot.value.InArena? ==> start <= slot.value.text.offset && slot.value.text.End() <= slot.key.offset)
    && (slot.value.Scalar? ==> !slot.value.v.Text?)
  }

  /** Every view lies in the used part of the arena, and no two overlap. */
  ghost predicate Disjoint(slots: seq<Slot>, used: nat) {
    && (forall i :: 0 <= i < |slots| ==> Within(slots[i], 0, used))
    && (forall i, j :: 0 <= i < j < |slots| ==> Within(slots[j], slots[i].key.End(), used))
  }

  function Resolve(arena: string, ref: TextRef): string
    requires ref.End() <= |arena|
  {
    arena[ref.offset..ref.End()]
  }

  function ResolveSlot(arena: string, slot: Slot): Attribute
    requires Within(slot, 0, |arena|)
  {
    Attribute(Resolve(arena, slot.key),
              if slot.value.Scalar? then slot.value.v else Text(Resolve(arena, slot.value.text)), slot.kind)
  }

  ghost function ResolveAll(arena: string, slots: seq<Slot>): (r: seq<Attribute>)
    requires Disjoint(slots, |arena|)
    ensures |r| == |slots| && forall i :: 0 <= i < |slots| ==> r[i] == ResolveSlot(arena, slots[i])
  {
    seq(|slots|, i requires 0 <= i < |slots| => ResolveSlot(arena, slots[i]))
  }

  /** Views keep their bytes when the arena grows behind them. */
  lemma ViewsStay(arena: string, more: string, slots: seq<Slot>)
    requires Disjoint(slots, |arena|)
    ensures Disjoint(slots, |arena + more|) && ResolveAll(arena + more, slots) == ResolveAll(arena, slots)
  {
    forall i | 0 <= i < |slots| ensures ResolveSlot(arena + more, slots[i]) == ResolveSlot(arena, slots[i]) {
      assert Within(slots[i], 0, |arena|);
      assert Resolve(arena + more, slots[i].key) == Resolve(arena, slots[i].key);
      if slots[i].value.InArena? {
        assert Resolve(arena + more, slots[i].value.text) == Resolve(arena, slots[i].value.text);
      }
    }
  }

  /** The value a slot is about to hold. */
  function ResolveValue(arena: string, value: StoredValue): Value
    requires value.InArena? ==> value.text.End() <= |arena|
  {
    if value.Scalar? then value.v else Text(Resolve(arena, value.text))
  }

  /** A value that comes last in the arena, behind all slots. */
  ghost predicate Last(value: StoredValue, arena: string, slots: seq<Slot>) {
    && (value.Scalar? ==> !value.v.Text?)
    && (value.InArena? ==> value.text.End() == |arena|
                           && forall i :: 0 <= i < |slots| ==> Within(slots[i], 0, value.text.offset))
  }

  lemma StaysDisjoint(arena: string, key: string, slots: seq<Slot>, value: StoredValue, kind: AttributeKind)
    requires Disjoint(slots, |arena|) && Last(value, arena, slots)
    ensures Disjoint(slots + [Slot(TextRef(|arena|, |key|), value, kind)], |arena + key|)
  {
    var slot := Slot(TextRef(|arena|, |key|), value, kind);
    forall i | 0 <= i < |slots| ensures Within(slot, slots[i].key.End(), |arena + key|) {
      assert Within(slots[i], 0, |arena|);
    }
    assert forall i :: 0 <= i < |slots| ==> Within(slots[i], 0, |arena + key|);
  }

  lemma SlotAdded(arena: string, key: string, slots: seq<Slot>, value: StoredValue, kind: AttributeKind)
    requires Disjoint(slots, |arena|) && Last(value, arena, slots)
    ensures var slot := Slot(TextRef(|arena|, |key|), value, kind);
      && Disjoint(slots + [slot], |arena + key|)
      && ResolveAll(arena + key, slots + [slot])
         == ResolveAll(arena, slots) + [Attribute(key, ResolveValue(arena, value), kind)]
  {
    var slot := Slot(TextRef(|arena|, |key|), value, kind);
    ViewsStay(arena, key, slots);
    StaysDisjoint(arena, key, slots, value, kind);
    assert ResolveSlot(arena + key, slot) == Attribute(key, ResolveValue(arena, value), kind) by {
      assert Resolve(arena + key, slot.key) == key;
      if value.InArena? { assert Resolve(arena + key, value.text) == Resolve(arena, value.text); }
    }
    var all, old' := ResolveAll(arena + key, slots + [slot]), ResolveAll(arena + key, slots);
    forall i | 0 <= i < |slots| ensures all[i] == old'[i] {
      assert (slots + [slot])[i] == slots[i];
    }
    assert all == old' + [ResolveSlot(arena + key, slot)];
  }

  class RecordBuilder {
    const messageBuffer: array<char>
    const textBuffer: array<char>
    const attributes: array<Slot>
    var messageSize: nat
    var textUsed: nat
    var attributeCount: nat
    var truncatedAttributeCount: u32
    var truncatedBytes: u32

    ghost predicate Valid()
      reads this, attributes
    {
      && messageBuffer.Length == MAX_MESSAGE_BYTES + 1
      && textBuffer.Length == MAX_ATTR_TEXT_BYTES
      && attributes.Length == MAX_ATTRIBUTES
      && messageBuffer != textBuffer
      && messageSize <= MAX_MESSAGE_BYTES
      && textUsed <= MAX_ATTR_TEXT_BYTES
      && attributeCount <= MAX_ATTRIBUTES
      && Disjoint(attributes[..attributeCount], textUsed)
    }

    ghost function Now(): Draft
      reads this, messageBuffer, textBuffer, attributes
      requires Valid()
    {
      Draft(messageBuffer[..messageSize], textBuffer[..textUsed],
            ResolveAll(textBuffer[..textUsed], attributes[..attributeCount]),
            truncatedAttributeCount, truncatedBytes)
    }

    constructor ()
      ensures Valid() && Now() == BLANK && fresh(messageBuffer) && fresh(textBuffer) && fresh(attributes)
    {
      messageBuffer := new char[MAX_MESSAGE_BYTES + 1];
      textBuffer := new char[MAX_ATTR_TEXT_BYTES];
      attributes := new Slot[MAX_ATTRIBUTES];
      messageSize, textUsed, attributeCount, truncatedAttributeCount, truncatedBytes := 0, 0, 0, 0, 0;
      new;
      messageBuffer[0] := '\0';
    }

    method Message(message: string)
      requires Valid()
      modifies this`messageSize, this`truncatedBytes, messageBuffer
      ensures Valid() && Now() == WithMessage(old(Now()), message)
    {
      ghost var arena, slots := textBuffer[..textUsed], attributes[..attributeCount];
      var copyLength := Min(|message|, MAX_MESSAGE_BYTES);
      forall i | 0 <= i < copyLength { messageBuffer[i] := message[i]; }
      messageSize := copyLength;
      messageBuffer[messageSize] := '\0';
      if |message| > copyLength {
        truncatedBytes := Add32(truncatedBytes, |message| - copyLength);
      }
      assert textBuffer[..textUsed] == arena && attributes[..attributeCount] == slots;
    }

    /** Copies as much of a text as fits behind the texts that are there, and leaves those alone. */
    method CopyText(input: string) returns (ref: TextRef)
      requires textBuffer.Length == MAX_ATTR_TEXT_BYTES && textUsed <= MAX_ATTR_TEXT_BYTES
      modifies this`textUsed, this`truncatedBytes, textBuffer
      ensures ref.offset == old(textUsed) && ref.End() == textUsed <= MAX_ATTR_TEXT_BYTES
      ensures textBuffer[..textUsed]
           == old(textBuffer[..textUsed]) + Fitting(MAX_ATTR_TEXT_BYTES, old(textBuffer[..textUsed]), input)
      ensures truncatedBytes == Add32(old(truncatedBytes), |input| - ref.length)
    {
      if input == "" {
        return TextRef(textUsed, 0);
      }
      var available := MAX_ATTR_TEXT_BYTES - textUsed;
      if available == 0 {
        truncatedBytes := Add32(truncatedBytes, |input|);
        return TextRef(textUsed, 0);
      }
      var copyLength := Min(|input|, available);
      forall i | 0 <= i < copyLength { textBuffer[textUsed + i] := input[i]; }
      ref := TextRef(textUsed, copyLength);
      textUsed := textUsed + copyLength;
      if |input| > copyLength {
        truncatedBytes := Add32(truncatedBytes, |input| - copyLength);
      }
    }

    method CopyAttributeValue(value: Value) returns (stored: StoredValue)
      requires Valid()
      modifies this`textUsed, this`truncatedBytes, textBuffer
      ensures Valid() && Now() == CopiedText(old(Now()), TextOf(value))
      ensures stored.Scalar? ==> stored.v == value && !value.Text?
      ensures stored.InArena? ==> stored.text.offset == old(textUsed) && stored.text.End() == textUsed
                                  && Text(Resolve(Now().arena, stored.text)) == Stored(old(Now()), value)
    {
      ghost var arena, slots := textBuffer[..textUsed], attributes[..attributeCount];
      if value.Text? {
        ViewsStay(arena, Fitting(MAX_ATTR_TEXT_BYTES, arena, value.t), slots);
        var ref := CopyText(value.t);
        stored := InArena(ref);
        assert attributes[..attributeCount] == slots;
      } else {
        stored := Scalar(value);
        assert arena + "" == arena;
      }
    }

    /** Copies the key and stores the attribute in the next slot. */
    method StoreAttribute(key: string, value: StoredValue, kind: AttributeKind)
      requires textBuffer.Length == MAX_ATTR_TEXT_BYTES && textUsed <= MAX_ATTR_TEXT_BYTES
      requires attributes.Length == MAX_ATTRIBUTES && attributeCount < MAX_ATTRIBUTES
      modifies this`textUsed, this`truncatedBytes, this`attributeCount, textBuffer, attributes
      ensures textUsed <= MAX_ATTR_TEXT_BYTES && attributeCount == old(attributeCount) + 1
      ensures var arena := old(textBuffer[..textUsed]);
        var copy := Fitting(MAX_ATTR_TEXT_BYTES, arena, key);
        && textBuffer[..textUsed] == arena + copy
        && truncatedBytes == Add32(old(truncatedBytes), |key| - |copy|)
        && attributes[..attributeCount]
           == old(attributes[..attributeCount]) + [Slot(TextRef(|arena|, |copy|), value, kind)]
    {
      var ref := CopyText(key);
      attributes[attributeCount] := Slot(ref, value, kind);
      attributeCount := attributeCount + 1;
    }

    method AppendAttribute(key: string, value: StoredValue, kind: AttributeKind)
      requires Valid() && Last(value, Now().arena, attributes[..attributeCount])
      modifies this`textUsed, this`truncatedBytes, this`truncatedAttributeCount, this`attributeCount,
               textBuffer, attributes
      ensures Valid()
      ensures Now() == Appended(old(Now()), key, ResolveValue(old(Now()).arena, value), kind)
    {
      if attributeCount >= MAX_ATTRIBUTES {
        truncatedAttributeCount := Add32(truncatedAttributeCount, 1);
        return;
      }
      ghost var arena := textBuffer[..textUsed];
      SlotAdded(arena, Fitting(MAX_ATTR_TEXT_BYTES, arena, key), attributes[..attributeCount], value, kind);
      StoreAttribute(key, value, kind);
    }

    method Attr(a: Attribute)
      requires Valid()
      modifies this, textBuffer, attributes
      ensures Valid() && Now() == WithAttribute(old(Now()), a)
    {
      var stored := CopyAttributeValue(a.value);
      AppendAttribute(a.key, stored, a.kind);
    }
  }
}
