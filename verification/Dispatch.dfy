/** Dispatch: the scoped context and the builder's attributes are merged into one record. */
module Dispatch {
  import opened Basics
  import opened Records

  // ----- The merge, step by step

  /** The position of a key, or the length if it is not there. */
  function Find(attributes: seq<Attribute>, key: string): (i: nat)
    ensures i <= |attributes|
    ensures i < |attributes| ==> attributes[i].key == key
    ensures forall j :: 0 <= j < i ==> attributes[j].key != key
  {
    if attributes == [] then 0
    else if attributes[0].key == key then 0
    else 1 + Find(attributes[1..], key)
  }

  datatype Merged = Merged(attributes: seq<Attribute>, refused: nat)

  function MergeOne(m: Merged, a: Attribute): Merged {
    var i := Find(m.attributes, a.key);
    if i < |m.attributes| then m.(attributes := m.attributes[i := a])
    else if |m.attributes| >= MAX_ATTRIBUTES then m.(refused := m.refused + 1)
    else m.(attributes := m.attributes + [a])
  }

  function MergeAll(offers: seq<Attribute>): Merged {
    if offers == [] then Merged([], 0)
    else MergeOne(MergeAll(offers[..|offers| - 1]), offers[|offers| - 1])
  }

  // ----- The merge in closed form

  /** The distinct keys, in the order in which they first appear. */
  function Keys(offers: seq<Attribute>): seq<string> {
    if offers == [] then []
    else
      var before, key := Keys(offers[..|offers| - 1]), offers[|offers| - 1].key;
      if key in before then before else before + [key]
  }

  ghost predicate Distinct<T>(s: seq<T>) {
    forall i, j :: 0 <= i < j < |s| ==> s[i] != s[j]
  }

  ghost predicate HasKey(offers: seq<Attribute>, key: string) {
    exists i :: 0 <= i < |offers| && offers[i].key == key
  }

  lemma {:induction false} KeysAreTheKeys(offers: seq<Attribute>)
    ensures Distinct(Keys(offers))
    ensures forall key :: key in Keys(offers) <==> HasKey(offers, key)
  {
    if offers != [] {
      var before := offers[..|offers| - 1];
      KeysAreTheKeys(before);
      forall key ensures key in Keys(offers) <==> HasKey(offers, key) {
        if key in Keys(before) {
          var i :| 0 <= i < |before| && before[i].key == key;
          assert offers[i].key == key;
        }
        if i :| 0 <= i < |offers| && offers[i].key == key {
          assert i < |before| ==> before[i].key == key;
        }
      }
    }
  }

  /** The keys that get a place. */
  function Winners(offers: seq<Attribute>): seq<string> {
    Prefix(Keys(offers), MAX_ATTRIBUTES)
  }

  /** The last attribute offered for a key. */
  function LastFor(offers: seq<Attribute>, key: string): Attribute
    requires HasKey(offers, key)
  {
    var last := offers[|offers| - 1];
    if last.key == key then last
    else
      assert HasKey(offers[..|offers| - 1], key) by {
        var i :| 0 <= i < |offers| && offers[i].key == key;
        assert offers[..|offers| - 1][i].key == key;
      }
      LastFor(offers[..|offers| - 1], key)
  }

  /** How many offers have a key outside a given list. */
  function CountOutside(offers: seq<Attribute>, keys: seq<string>): nat {
    if offers == [] then 0
    else CountOutside(offers[..|offers| - 1], keys) + (if offers[|offers| - 1].key in keys then 0 else 1)
  }

  /** Each winner, in order, with the value and kind last offered for it; every other offer refused. */
  ghost predicate ClosedForm(m: Merged, offers: seq<Attribute>) {
    && |m.attributes| == |Winners(offers)|
    && (forall i :: 0 <= i < |m.attributes| ==>
          && m.attributes[i].key == Winners(offers)[i]
          && HasKey(offers, Winners(offers)[i])
          && m.attributes[i] == LastFor(offers, Winners(offers)[i]))
    && m.refused == CountOutside(offers, Winners(offers))
  }

  lemma LastForNext(offers: seq<Attribute>, a: Attribute, key: string)
    requires HasKey(offers, key)
    ensures HasKey(offers + [a], key)
    ensures LastFor(offers + [a], key) == if a.key == key then a else LastFor(offers, key)
  {
    var i :| 0 <= i < |offers| && offers[i].key == key;
    assert (offers + [a])[i].key == key;
    assert (offers + [a])[..|offers|] == offers;
  }

  lemma {:induction false} NoneOutside(offers: seq<Attribute>, keys: seq<string>, more: seq<string>)
    requires forall i :: 0 <= i < |offers| ==> (offers[i].key in keys <==> offers[i].key in more)
    ensures CountOutside(offers, keys) == CountOutside(offers, more)
  {
    if offers != [] { NoneOutside(offers[..|offers| - 1], keys, more); }
  }

  /** The winners have been offered, and one more offer changes what was last offered for its own key only. */
  lemma WinnersAfter(offers: seq<Attribute>, a: Attribute)
    ensures forall k :: 0 <= k < |Winners(offers)| ==>
      && HasKey(offers, Winners(offers)[k]) && HasKey(offers + [a], Winners(offers)[k])
      && LastFor(offers + [a], Winners(offers)[k])
         == if a.key == Winners(offers)[k] then a else LastFor(offers, Winners(offers)[k])
  {
    KeysAreTheKeys(offers);
    forall k | 0 <= k < |Winners(offers)|
      ensures HasKey(offers, Winners(offers)[k]) && HasKey(offers + [a], Winners(offers)[k])
      ensures LastFor(offers + [a], Winners(offers)[k])
           == if a.key == Winners(offers)[k] then a else LastFor(offers, Winners(offers)[k])
    {
      assert Winners(offers)[k] in Keys(offers);
      LastForNext(offers, a, Winners(offers)[k]);
    }
  }

  lemma KeysAfter(offers: seq<Attribute>, a: Attribute)
    ensures Keys(offers + [a]) == if a.key in Keys(offers) then Keys(offers) else Keys(offers) + [a.key]
    ensures forall keys ::
              CountOutside(offers + [a], keys) == CountOutside(offers, keys) + (if a.key in keys then 0 else 1)
  {
    assert (offers + [a])[..|offers|] == offers;
  }

  lemma ReplacingKeepsForm(m: Merged, offers: seq<Attribute>, a: Attribute)
    requires ClosedForm(m, offers) && Find(m.attributes, a.key) < |m.attributes|
    ensures ClosedForm(MergeOne(m, a), offers + [a])
  {
    KeysAfter(offers, a);
    WinnersAfter(offers, a);
    KeysAreTheKeys(offers);
    var i, winners := Find(m.attributes, a.key), Winners(offers);
    assert winners[i] == a.key && a.key in winners && a.key in Keys(offers);
    assert Winners(offers + [a]) == winners;
    assert forall k :: 0 <= k < |winners| && k != i ==> winners[k] != a.key;
  }

  lemma NewKeyIsNoWinner(m: Merged, offers: seq<Attribute>, a: Attribute)
    requires ClosedForm(m, offers) && Find(m.attributes, a.key) == |m.attributes|
    ensures a.key !in Winners(offers)
  {
    forall k | 0 <= k < |Winners(offers)| ensures Winners(offers)[k] != a.key {
      assert Winners(offers)[k] == m.attributes[k].key;
    }
  }

  lemma RefusingKeepsForm(m: Merged, offers: seq<Attribute>, a: Attribute)
    requires ClosedForm(m, offers) && Find(m.attributes, a.key) == |m.attributes| >= MAX_ATTRIBUTES
    ensures ClosedForm(MergeOne(m, a), offers + [a])
  {
    KeysAfter(offers, a);
    WinnersAfter(offers, a);
    NewKeyIsNoWinner(m, offers, a);
    assert Winners(offers + [a]) == Winners(offers);
  }

  /** While there is room, a new key becomes one more winner, and still nothing is refused. */
  lemma OneMoreWinner(offers: seq<Attribute>, a: Attribute)
    requires |Winners(offers)| < MAX_ATTRIBUTES && a.key !in Winners(offers)
    ensures Winners(offers + [a]) == Winners(offers) + [a.key]
    ensures CountOutside(offers + [a], Winners(offers + [a])) == CountOutside(offers, Winners(offers))
  {
    KeysAfter(offers, a);
    KeysAreTheKeys(offers);
    var winners := Winners(offers);
    assert Keys(offers) == winners;
    assert Winners(offers + [a]) == winners + [a.key];
    forall k | 0 <= k < |offers| ensures offers[k].key in winners { assert HasKey(offers, offers[k].key); }
    NoneOutside(offers, winners, winners + [a.key]);
  }

  lemma LastIsLast(offers: seq<Attribute>, a: Attribute)
    ensures HasKey(offers + [a], a.key) && LastFor(offers + [a], a.key) == a
  {
    assert (offers + [a])[|offers|].key == a.key;
  }

  lemma AddingKeepsForm(m: Merged, offers: seq<Attribute>, a: Attribute)
    requires ClosedForm(m, offers) && Find(m.attributes, a.key) == |m.attributes| < MAX_ATTRIBUTES
    ensures ClosedForm(MergeOne(m, a), offers + [a])
  {
    WinnersAfter(offers, a);
    NewKeyIsNoWinner(m, offers, a);
    OneMoreWinner(offers, a);
    LastIsLast(offers, a);
  }

  lemma MergeOneKeepsForm(m: Merged, offers: seq<Attribute>, a: Attribute)
    requires ClosedForm(m, offers)
    ensures ClosedForm(MergeOne(m, a), offers + [a])
  {
    if Find(m.attributes, a.key) < |m.attributes| {
      ReplacingKeepsForm(m, offers, a);
    } else if |m.attributes| >= MAX_ATTRIBUTES {
      RefusingKeepsForm(m, offers, a);
    } else {
      AddingKeepsForm(m, offers, a);
    }
  }

  /** The in-place merge is: the first eight distinct keys in the order of their first appearance, each
      with the value and kind last offered for it; refused are exactly the offers with other keys. */
  lemma {:induction false} MergeIsClosedForm(offers: seq<Attribute>)
    ensures ClosedForm(MergeAll(offers), offers)
  {
    if offers != [] {
      MergeIsClosedForm(offers[..|offers| - 1]);
      MergeOneKeepsForm(MergeAll(offers[..|offers| - 1]), offers[..|offers| - 1], offers[|offers| - 1]);
      assert offers == offers[..|offers| - 1] + [offers[|offers| - 1]];
    }
  }

  /** The keys of a merged record are pairwise distinct. */
  lemma MergedKeysAreDistinct(offers: seq<Attribute>)
    ensures forall i, j :: 0 <= i < j < |MergeAll(offers).attributes| ==>
              MergeAll(offers).attributes[i].key != MergeAll(offers).attributes[j].key
  {
    MergeIsClosedForm(offers);
    KeysAreTheKeys(offers);
  }

  // ----- Copying the context

  datatype ContextEntry = ContextEntry(key: string, value: Value)

  /** What a scoped context offers: keys and texts copied, key first, into an arena of their own. */
  datatype ContextCopy = ContextCopy(offers: seq<Attribute>, arena: string, truncatedBytes: u32)

  function CopyText(c: ContextCopy, text: string): (string, ContextCopy) {
    var copy := if |c.arena| <= CONTEXT_TEXT_BYTES then Prefix(text, CONTEXT_TEXT_BYTES - |c.arena|) else "";
    (copy, c.(arena := c.arena + copy, truncatedBytes := Add32(c.truncatedBytes, |text| - |copy|)))
  }

  function CopyEntry(c: ContextCopy, e: ContextEntry): ContextCopy {
    var (key, afterKey) := CopyText(c, e.key);
    if e.value.Text? then
      var (text, afterText) := CopyText(afterKey, e.value.t);
      afterText.(offers := c.offers + [Attribute(key, Text(text), Default)])
    else
      afterKey.(offers := c.offers + [Attribute(key, e.value, Default)])
  }

  function CopyContext(context: seq<ContextEntry>, truncatedBytes: u32): ContextCopy {
    if context == [] then ContextCopy([], "", truncatedBytes)
    else CopyEntry(CopyContext(context[..|context| - 1], truncatedBytes), context[|context| - 1])
  }

  function ContextText(context: seq<ContextEntry>): string {
    if context == [] then ""
    else
      var e := context[|context| - 1];
      ContextText(context[..|context| - 1]) + e.key + (if e.value.Text? then e.value.t else "")
  }

  ghost predicate CopyAccounts(c: ContextCopy, asked: string, start: u32) {
    && c.arena == Prefix(asked, CONTEXT_TEXT_BYTES)
    && c.truncatedBytes == (start + |asked| - |c.arena|) % WIDE
  }

  lemma CopyTextAccounts(c: ContextCopy, asked: string, start: u32, text: string)
    requires CopyAccounts(c, asked, start)
    ensures CopyAccounts(CopyText(c, text).1, asked + text, start)
    ensures CopyText(c, text).0 <= text
    ensures |asked + text| <= CONTEXT_TEXT_BYTES ==> CopyText(c, text).0 == text
  {
    var copy := CopyText(c, text).0;
    assert c.arena + copy == Prefix(asked + text, CONTEXT_TEXT_BYTES);
    AddedAgain(start, |asked| - |c.arena|, |text| - |copy|);
  }

  lemma AddedAgain(start: u32, before: nat, more: nat)
    ensures Add32((start + before) % WIDE, more) == (start + before + more) % WIDE
  {
    Add32Twice(start, before, more);
  }

  function Whole(e: ContextEntry): Attribute { Attribute(e.key, e.value, Default) }

  ghost predicate IsCopyOf(a: Attribute, e: ContextEntry) {
    IsCutOf(a, Whole(e))
  }

  lemma CopyEntryAccounts(c: ContextCopy, asked: string, start: u32, e: ContextEntry)
    requires CopyAccounts(c, asked, start)
    ensures var d, all := CopyEntry(c, e), asked + e.key + (if e.value.Text? then e.value.t else "");
      && CopyAccounts(d, all, start)
      && |d.offers| == |c.offers| + 1 && d.offers[..|c.offers|] == c.offers
      && IsCopyOf(d.offers[|c.offers|], e)
      && (|all| <= CONTEXT_TEXT_BYTES ==> d.offers[|c.offers|] == Whole(e))
  {
    CopyTextAccounts(c, asked, start, e.key);
    if e.value.Text? {
      CopyTextAccounts(CopyText(c, e.key).1, asked + e.key, start, e.value.t);
    } else {
      assert asked + e.key + "" == asked + e.key;
    }
  }

  /** Every offer is its entry, cut short at most, and whole if all fits. */
  ghost predicate CopiesOf(offers: seq<Attribute>, context: seq<ContextEntry>, fits: bool) {
    && |offers| == |context|
    && forall i :: 0 <= i < |context| ==> IsCopyOf(offers[i], context[i]) && (fits ==> offers[i] == Whole(context[i]))
  }

  lemma OneMoreCopy(offers: seq<Attribute>, context: seq<ContextEntry>, a: Attribute, e: ContextEntry,
                    fitted: bool, fits: bool)
    requires CopiesOf(offers, context, fitted) && (fits ==> fitted && a == Whole(e)) && IsCopyOf(a, e)
    ensures CopiesOf(offers + [a], context + [e], fits)
  {
  }

  /** The context's arena holds the first 512 bytes of all its keys and texts; every offer is its entry, cut
      short at most, and whole if all fits; and what is missing has been counted. */
  lemma {:induction false} ContextKeepsPrefixes(context: seq<ContextEntry>, start: u32)
    ensures var c, text := CopyContext(context, start), ContextText(context);
      CopyAccounts(c, text, start) && CopiesOf(c.offers, context, |text| <= CONTEXT_TEXT_BYTES)
  {
    if context != [] {
      var before, e := context[..|context| - 1], context[|context| - 1];
      ContextKeepsPrefixes(before, start);
      var c, d := CopyContext(before, start), CopyContext(context, start);
      CopyEntryAccounts(c, ContextText(before), start, e);
      assert context == before + [e] && d.offers == c.offers + [d.offers[|c.offers|]];
      OneMoreCopy(c.offers, before, d.offers[|c.offers|], e,
                  |ContextText(before)| <= CONTEXT_TEXT_BYTES, |ContextText(context)| <= CONTEXT_TEXT_BYTES);
    }
  }

  /** The room in the context's arena once so many bytes have asked for it. */
  function RoomAfter(asked: nat): nat {
    if asked <= CONTEXT_TEXT_BYTES then CONTEXT_TEXT_BYTES - asked else 0
  }

  /** As much of an entry as there is room for behind what has asked before: of the key, then of the text. */
  function CutEntry(e: ContextEntry, asked: nat): Attribute {
    Attribute(Prefix(e.key, RoomAfter(asked)),
              if e.value.Text? then Text(Prefix(e.value.t, RoomAfter(asked + |e.key|))) else e.value, Default)
  }

  ghost predicate ExactCopies(offers: seq<Attribute>, context: seq<ContextEntry>) {
    && |offers| == |context|
    && forall i :: 0 <= i < |context| ==> offers[i] == CutEntry(context[i], |ContextText(context[..i])|)
  }

  lemma CopyTextKeeps(c: ContextCopy, asked: string, start: u32, text: string)
    requires CopyAccounts(c, asked, start)
    ensures CopyText(c, text).0 == Prefix(text, RoomAfter(|asked|))
  {
  }

  lemma CopyEntryKeeps(c: ContextCopy, asked: string, start: u32, e: ContextEntry)
    requires CopyAccounts(c, asked, start)
    ensures CopyEntry(c, e).offers == c.offers + [CutEntry(e, |asked|)]
  {
    CopyTextKeeps(c, asked, start, e.key);
    CopyTextAccounts(c, asked, start, e.key);
    if e.value.Text? { CopyTextKeeps(CopyText(c, e.key).1, asked + e.key, start, e.value.t); }
  }

  /** Each entry keeps exactly as much of its key and its text as the arena has room for behind all that has
      asked for room before. */
  lemma {:induction false} ContextIsCutExactly(context: seq<ContextEntry>, start: u32)
    ensures ExactCopies(CopyContext(context, start).offers, context)
  {
    if context != [] {
      var before, e := context[..|context| - 1], context[|context| - 1];
      ContextIsCutExactly(before, start);
      ContextKeepsPrefixes(before, start);
      CopyEntryKeeps(CopyContext(before, start), ContextText(before), start, e);
      forall i | 0 <= i < |before| ensures before[..i] == context[..i] { }
    }
  }

  // ----- Dispatch

  /** The record that Dispatch builds, apart from what it takes over unchanged. */
  datatype Merge = Merge(attributes: seq<Attribute>, truncatedAttributes: u32, truncatedBytes: u32)

  function MergeOf(context: seq<ContextEntry>, attributes: seq<Attribute>,
                   truncatedAttributes: u32, truncatedBytes: u32): Merge {
    var copy := CopyContext(context, truncatedBytes);
    var merged := MergeAll(copy.offers + attributes);
    Merge(merged.attributes, Add32(truncatedAttributes, merged.refused), copy.truncatedBytes)
  }

  /** The record holds what the merge of these offers leaves, the context's before the builder's. */
  ghost predicate MergesOffers(context: seq<ContextEntry>, attributes: seq<Attribute>, truncatedAttributes: u32,
                               m: Merge, offers: seq<Attribute>, refused: nat) {
    && ExactCopies(offers, context)
    && ClosedForm(Merged(m.attributes, refused), offers + attributes)
    && m.truncatedAttributes == (truncatedAttributes + refused) % WIDE
  }

  ghost predicate MergedFrom(context: seq<ContextEntry>, attributes: seq<Attribute>,
                             truncatedAttributes: u32, truncatedBytes: u32, m: Merge) {
    && m.truncatedBytes == (truncatedBytes + Excess(ContextText(context), CONTEXT_TEXT_BYTES)) % WIDE
    && exists offers, refused :: MergesOffers(context, attributes, truncatedAttributes, m, offers, refused)
  }

  /** The context's entries, each cut to the room there is, are offered first and the builder's attributes
      after them; both counters rise, modulo 2^32, by what the merge refuses and what the arena cannot hold. */
  lemma {:induction false} MergeOfExactly(context: seq<ContextEntry>, attributes: seq<Attribute>,
                                          truncatedAttributes: u32, truncatedBytes: u32)
    ensures MergedFrom(context, attributes, truncatedAttributes, truncatedBytes,
                       MergeOf(context, attributes, truncatedAttributes, truncatedBytes))
  {
    var copy := CopyContext(context, truncatedBytes);
    var merged := MergeAll(copy.offers + attributes);
    ContextKeepsPrefixes(context, truncatedBytes);
    ContextIsCutExactly(context, truncatedBytes);
    MergeIsClosedForm(copy.offers + attributes);
    assert Merged(merged.attributes, merged.refused) == merged;
    assert MergesOffers(context, attributes, truncatedAttributes,
                        MergeOf(context, attributes, truncatedAttributes, truncatedBytes), copy.offers, merged.refused);
  }

  // ----- Who wins

  /** The last offer for a key. */
  ghost predicate LastOffer(offers: seq<Attribute>, p: nat, key: string) {
    p < |offers| && offers[p].key == key && forall q :: p < q < |offers| ==> offers[q].key != key
  }

  lemma {:induction false} LastForIsLastOffer(offers: seq<Attribute>, p: nat, key: string)
    requires LastOffer(offers, p, key)
    ensures HasKey(offers, key) && LastFor(offers, key) == offers[p]
  {
    if p < |offers| - 1 {
      assert offers[|offers| - 1].key != key;
      LastForIsLastOffer(offers[..|offers| - 1], p, key);
    }
  }

  lemma {:induction false} SomeLastOffer(offers: seq<Attribute>, key: string) returns (p: nat)
    requires HasKey(offers, key)
    ensures LastOffer(offers, p, key)
  {
    p := |offers| - 1;
    if offers[p].key != key {
      var i :| 0 <= i < |offers| && offers[i].key == key;
      assert offers[..p][i].key == key;
      p := SomeLastOffer(offers[..p], key);
    }
  }

  lemma {:induction false} MergedIsLast(copies: seq<Attribute>, attributes: seq<Attribute>, i: nat, p: nat)
    requires var merged := MergeAll(copies + attributes).attributes;
      && i < |merged|
      && (|| LastOffer(attributes, p, merged[i].key)
          || (!HasKey(attributes, merged[i].key) && LastOffer(copies, p, merged[i].key)))
    ensures var merged := MergeAll(copies + attributes).attributes;
      merged[i] == if HasKey(attributes, merged[i].key) then attributes[p] else copies[p]
  {
    var offers := copies + attributes;
    var key := MergeAll(offers).attributes[i].key;
    MergeIsClosedForm(offers);
    assert HasKey(offers, key) && MergeAll(offers).attributes[i] == LastFor(offers, key);
    if LastOffer(attributes, p, key) {
      BehindContext(copies, attributes, p, key);
      LastForIsLastOffer(offers, |copies| + p, key);
    } else {
      BeforeBuilder(copies, attributes, p, key);
      LastForIsLastOffer(offers, p, key);
    }
  }

  lemma {:induction false} MergedIsOffered(copies: seq<Attribute>, attributes: seq<Attribute>, i: nat)
    requires i < |MergeAll(copies + attributes).attributes|
    ensures HasKey(copies + attributes, MergeAll(copies + attributes).attributes[i].key)
  {
    MergeIsClosedForm(copies + attributes);
  }

  /** What a record holds under a key is the builder's last attribute with that key, if the builder has one, and
      otherwise the context's last entry with it. */
  lemma {:induction false} BuilderWins(context: seq<ContextEntry>, attributes: seq<Attribute>,
                                       truncatedAttributes: u32, truncatedBytes: u32, i: nat)
    requires i < |MergeOf(context, attributes, truncatedAttributes, truncatedBytes).attributes|
    ensures var a := MergeOf(context, attributes, truncatedAttributes, truncatedBytes).attributes[i];
      && (forall p: nat :: LastOffer(attributes, p, a.key) ==> a == attributes[p])
      && (!HasKey(attributes, a.key) ==>
            exists offers, p :: ExactCopies(offers, context) && LastOffer(offers, p, a.key) && a == offers[p])
  {
    var copies := CopyContext(context, truncatedBytes).offers;
    var a := MergeAll(copies + attributes).attributes[i];
    forall p: nat | LastOffer(attributes, p, a.key) ensures a == attributes[p] {
      MergedIsLast(copies, attributes, i, p);
    }
    if !HasKey(attributes, a.key) {
      ContextIsCutExactly(context, truncatedBytes);
      MergedIsOffered(copies, attributes, i);
      OnlyInContext(copies, attributes, a.key);
      var p := SomeLastOffer(copies, a.key);
      MergedIsLast(copies, attributes, i, p);
      assert ExactCopies(copies, context) && LastOffer(copies, p, a.key) && a == copies[p];
    }
  }

  lemma BehindContext(copies: seq<Attribute>, attributes: seq<Attribute>, p: nat, key: string)
    requires LastOffer(attributes, p, key)
    ensures LastOffer(copies + attributes, |copies| + p, key)
  {
    forall q | |copies| + p < q < |copies + attributes| ensures (copies + attributes)[q].key != key {
      assert (copies + attributes)[q] == attributes[q - |copies|];
    }
  }

  lemma BeforeBuilder(copies: seq<Attribute>, attributes: seq<Attribute>, p: nat, key: string)
    requires LastOffer(copies, p, key) && !HasKey(attributes, key)
    ensures LastOffer(copies + attributes, p, key)
  {
    forall q | p < q < |copies + attributes| ensures (copies + attributes)[q].key != key {
      if q >= |copies| { assert (copies + attributes)[q] == attributes[q - |copies|]; }
    }
  }

  lemma OnlyInContext(copies: seq<Attribute>, attributes: seq<Attribute>, key: string)
    requires HasKey(copies + attributes, key) && !HasKey(attributes, key)
    ensures HasKey(copies, key)
  {
    var i :| 0 <= i < |copies + attributes| && (copies + attributes)[i].key == key;
    assert forall j :: |copies| <= j < |copies + attributes| ==> (copies + attributes)[j] == attributes[j - |copies|];
    assert copies[i].key == key;
  }

  lemma {:induction false} FewKeysWin(offers: seq<Attribute>, key: string)
    requires |Keys(offers)| <= MAX_ATTRIBUTES && HasKey(offers, key)
    ensures HasKey(MergeAll(offers).attributes, key) && MergeAll(offers).refused == 0
  {
    MergeIsClosedForm(offers);
    KeysAreTheKeys(offers);
    NothingOutside(offers, Keys(offers));
    assert Winners(offers) == Keys(offers);
    var i :| 0 <= i < |Keys(offers)| && Keys(offers)[i] == key;
    assert MergeAll(offers).attributes[i].key == Winners(offers)[i];
  }

  /** There is only one way to cut a context's entries. */
  lemma {:induction false} CutsAreUnique(offers: seq<Attribute>, context: seq<ContextEntry>, start: u32)
    requires ExactCopies(offers, context)
    ensures CopyContext(context, start).offers == offers
  {
    ContextIsCutExactly(context, start);
    var copies := CopyContext(context, start).offers;
    forall i | 0 <= i < |context| ensures copies[i] == offers[i] {
      assert offers[i] == CutEntry(context[i], |ContextText(context[..i])|);
    }
  }

  lemma {:induction false} NothingRefused(context: seq<ContextEntry>, attributes: seq<Attribute>,
                                          truncatedAttributes: u32, truncatedBytes: u32, offers: seq<Attribute>)
    requires CopyContext(context, truncatedBytes).offers == offers && MergeAll(offers + attributes).refused == 0
    ensures var m := MergeOf(context, attributes, truncatedAttributes, truncatedBytes);
      m.attributes == MergeAll(offers + attributes).attributes && m.truncatedAttributes == truncatedAttributes
  {
  }

  /** If no more than eight keys are offered, each has a place and nothing is refused. */
  lemma {:induction false} FewKeysHavePlaces(context: seq<ContextEntry>, attributes: seq<Attribute>,
                                             truncatedAttributes: u32, truncatedBytes: u32,
                                             offers: seq<Attribute>, key: string)
    requires ExactCopies(offers, context) && |Keys(offers + attributes)| <= MAX_ATTRIBUTES
    requires HasKey(offers + attributes, key)
    ensures var m := MergeOf(context, attributes, truncatedAttributes, truncatedBytes);
      HasKey(m.attributes, key) && m.truncatedAttributes == truncatedAttributes
  {
    CutsAreUnique(offers, context, truncatedBytes);
    FewKeysWin(offers + attributes, key);
    NothingRefused(context, attributes, truncatedAttributes, truncatedBytes, offers);
  }

  lemma {:induction false} NothingOutside(offers: seq<Attribute>, keys: seq<string>)
    requires forall key :: HasKey(offers, key) ==> key in keys
    ensures CountOutside(offers, keys) == 0
  {
    if offers != [] {
      var front := offers[..|offers| - 1];
      assert HasKey(offers, offers[|offers| - 1].key);
      forall key | HasKey(front, key) ensures key in keys {
        var i :| 0 <= i < |front| && front[i].key == key;
        assert offers[i].key == key;
      }
      NothingOutside(front, keys);
    }
  }

  // ----- The code

  method AppendOrReplace(merged: array<Attribute>, count: nat, refused: u32, a: Attribute)
    returns (newCount: nat, newRefused: u32)
    requires merged.Length == MAX_ATTRIBUTES && count <= MAX_ATTRIBUTES
    modifies merged
    ensures newCount <= MAX_ATTRIBUTES
    ensures var m := MergeOne(Merged(old(merged[..count]), 0), a);
            merged[..newCount] == m.attributes && newRefused == Add32(refused, m.refused)
  {
    ghost var before := merged[..count];
    var i := 0;
    while i < count
      invariant i <= count && merged[..count] == before
      invariant Find(before, a.key) >= i
    {
      if merged[i].key == a.key {
        FoundAt(before, a.key, i);
        merged[i] := a;
        return count, refused;
      }
      FindSkips(before, a.key, i);
      i := i + 1;
    }
    if count >= MAX_ATTRIBUTES {
      return count, Add32(refused, 1);
    }
    merged[count] := a;
    return count + 1, refused;
  }

  lemma FoundAt(attributes: seq<Attribute>, key: string, i: nat)
    requires i < |attributes| && attributes[i].key == key && Find(attributes, key) >= i
    ensures Find(attributes, key) == i
  {
  }

  lemma FindSkips(attributes: seq<Attribute>, key: string, i: nat)
    requires i < |attributes| && attributes[i].key != key && Find(attributes, key) >= i
    ensures Find(attributes, key) >= i + 1
  {
  }

  lemma MergeOneShifts(m: Merged, a: Attribute)
    ensures MergeOne(m, a).attributes == MergeOne(m.(refused := 0), a).attributes
    ensures MergeOne(m, a).refused == m.refused + MergeOne(m.(refused := 0), a).refused
  {
  }

  /** Offers one attribute after a list of others. */
  method OfferNext(merged: array<Attribute>, count: nat, refused: u32, ghost start: u32,
                   ghost sofar: seq<Attribute>, a: Attribute) returns (newCount: nat, newRefused: u32)
    requires merged.Length == MAX_ATTRIBUTES && count <= MAX_ATTRIBUTES
    requires merged[..count] == MergeAll(sofar).attributes && refused == Add32(start, MergeAll(sofar).refused)
    modifies merged
    ensures newCount <= MAX_ATTRIBUTES && merged[..newCount] == MergeAll(sofar + [a]).attributes
    ensures newRefused == Add32(start, MergeAll(sofar + [a]).refused)
  {
    assert (sofar + [a])[..|sofar|] == sofar;
    MergeOneShifts(MergeAll(sofar), a);
    Add32Twice(start, MergeAll(sofar).refused, 1);
    newCount, newRefused := AppendOrReplace(merged, count, refused, a);
  }

  /** Copies as much of a text as fits behind the texts that are there, and leaves those alone. */
  method CopyContextText(storage: array<char>, used: nat, truncatedBytes: u32, input: string)
    returns (view: string, newUsed: nat, counter: u32)
    requires storage.Length == CONTEXT_TEXT_BYTES && used <= storage.Length
    modifies storage
    ensures newUsed <= storage.Length && storage[..newUsed] == old(storage[..used]) + view
    ensures view == Prefix(input, CONTEXT_TEXT_BYTES - used) && counter == Add32(truncatedBytes, |input| - |view|)
  {
    view, newUsed, counter := "", used, truncatedBytes;
    assert storage[..used] + "" == storage[..used];
    if input == "" {
      return;
    }
    var available := storage.Length - used;
    if available == 0 {
      assert Prefix(input, 0) == "";
      counter := Add32(truncatedBytes, |input|);
      return;
    }
    var copyLength := Min(|input|, available);
    forall i | 0 <= i < copyLength { storage[used + i] := input[i]; }
    newUsed := used + copyLength;
    view := storage[used..newUsed];
    assert view == Prefix(input, available) && storage[..newUsed] == storage[..used] + view;
    if |input| > copyLength {
      counter := Add32(truncatedBytes, |input| - copyLength);
    }
  }

  /** The key and then the value of one entry, copied behind what a context copy holds already. */
  method CopyContextEntry(storage: array<char>, used: nat, truncatedBytes: u32, e: ContextEntry, ghost c: ContextCopy)
    returns (a: Attribute, newUsed: nat, counter: u32)
    requires storage.Length == CONTEXT_TEXT_BYTES && used <= storage.Length
    requires storage[..used] == c.arena && truncatedBytes == c.truncatedBytes
    modifies storage
    ensures newUsed <= storage.Length
    ensures var d := CopyEntry(c, e);
            storage[..newUsed] == d.arena && counter == d.truncatedBytes && d.offers == c.offers + [a]
  {
    var key;
    key, newUsed, counter := CopyContextText(storage, used, truncatedBytes, e.key);
    var value := e.value;
    if e.value.Text? {
      var text;
      text, newUsed, counter := CopyContextText(storage, newUsed, counter, e.value.t);
      value := Text(text);
    }
    a := Attribute(key, value, Default);
  }

  method OfferContext(merged: array<Attribute>, storage: array<char>, context: seq<ContextEntry>,
                      truncatedAttributes: u32, truncatedBytes: u32)
    returns (count: nat, refused: u32, bytes: u32)
    requires merged.Length == MAX_ATTRIBUTES && storage.Length == CONTEXT_TEXT_BYTES
    modifies merged, storage
    ensures var copy := CopyContext(context, truncatedBytes);
      && bytes == copy.truncatedBytes
      && count <= MAX_ATTRIBUTES && merged[..count] == MergeAll(copy.offers).attributes
      && refused == Add32(truncatedAttributes, MergeAll(copy.offers).refused)
  {
    count, refused, bytes := 0, truncatedAttributes, truncatedBytes;
    var used: nat := 0;
    ghost var copy := ContextCopy([], "", truncatedBytes);
    var i := 0;
    while i < |context|
      invariant i <= |context| && count <= MAX_ATTRIBUTES && used <= storage.Length
      invariant copy == CopyContext(context[..i], truncatedBytes)
      invariant storage[..used] == copy.arena && bytes == copy.truncatedBytes
      invariant merged[..count] == MergeAll(copy.offers).attributes
      invariant refused == Add32(truncatedAttributes, MergeAll(copy.offers).refused)
    {
      assert context[..i + 1][..i] == context[..i];
      var a;
      a, used, bytes := CopyContextEntry(storage, used, bytes, context[i], copy);
      count, refused := OfferNext(merged, count, refused, truncatedAttributes, copy.offers, a);
      copy := CopyEntry(copy, context[i]);
      i := i + 1;
    }
    assert context[..i] == context;
  }

  method OfferAttributes(merged: array<Attribute>, count: nat, refused: u32, ghost start: u32,
                         ghost offers: seq<Attribute>, attributes: seq<Attribute>)
    returns (newCount: nat, newRefused: u32)
    requires merged.Length == MAX_ATTRIBUTES && count <= MAX_ATTRIBUTES
    requires merged[..count] == MergeAll(offers).attributes && refused == Add32(start, MergeAll(offers).refused)
    modifies merged
    ensures newCount <= MAX_ATTRIBUTES && merged[..newCount] == MergeAll(offers + attributes).attributes
    ensures newRefused == Add32(start, MergeAll(offers + attributes).refused)
  {
    newCount, newRefused := count, refused;
    var i := 0;
    assert offers + attributes[..0] == offers;
    while i < |attributes|
      invariant i <= |attributes| && newCount <= MAX_ATTRIBUTES
      invariant merged[..newCount] == MergeAll(offers + attributes[..i]).attributes
      invariant newRefused == Add32(start, MergeAll(offers + attributes[..i]).refused)
    {
      assert offers + attributes[..i + 1] == (offers + attributes[..i]) + [attributes[i]];
      newCount, newRefused := OfferNext(merged, newCount, newRefused, start, offers + attributes[..i], attributes[i]);
      i := i + 1;
    }
    assert attributes[..i] == attributes;
  }

  method MergeAttributes(context: seq<ContextEntry>, attributes: seq<Attribute>,
                         truncatedAttributes: u32, truncatedBytes: u32) returns (result: Merge)
    ensures result == MergeOf(context, attributes, truncatedAttributes, truncatedBytes)
    ensures MergedFrom(context, attributes, truncatedAttributes, truncatedBytes, result)
  {
    MergeOfExactly(context, attributes, truncatedAttributes, truncatedBytes);
    var merged := new Attribute[MAX_ATTRIBUTES];
    var storage := new char[CONTEXT_TEXT_BYTES];
    ghost var offers := CopyContext(context, truncatedBytes).offers;
    var count, refused, bytes := OfferContext(merged, storage, context, truncatedAttributes, truncatedBytes);
    count, refused := OfferAttributes(merged, count, refused, truncatedAttributes, offers, attributes);
    result := Merge(merged[..count], refused, bytes);
  }
}
