/** The invariant of the asynchronous sink, kept by every step of every thread. */
module AsyncInvariant {
  import opened AsyncModel
  import opened AsyncCounts
  import opened AsyncShape
  import opened AsyncEffects

  // ----- Records: order, and one place for each

  /** The records handed to the wrapped sink, by way of the queue or directly. */
  function Written(log: seq<Event>, queued: bool): seq<Item> {
    if log == [] then []
    else
      var e := log[|log| - 1];
      Written(log[..|log| - 1], queued) + (if e.Wrote? && e.queued == queued then [e.item] else [])
  }

  lemma WrittenAppend(log: seq<Event>, e: Event, queued: bool)
    ensures Written(log + [e], queued)
            == Written(log, queued) + (if e.Wrote? && e.queued == queued then [e.item] else [])
  {
    assert (log + [e])[..|log|] == log;
  }

  /** Records of one thread appear in the order of its calls. */
  ghost predicate InCallOrder(items: seq<Item>) {
    forall j, k :: 0 <= j < k < |items| && items[j].tid == items[k].tid ==> items[j].call < items[k].call
  }

  /** All these records belong to calls whose record has found its place. */
  ghost predicate ArePlaced(s: State, items: seq<Item>)
    requires |s.calls| == |s.threads|
  {
    forall k :: 0 <= k < |items| ==>
      items[k].tid < |s.threads| && items[k].call < Placed(s, items[k].tid)
  }

  /** What the worker delivers is what was accepted, in the order of acceptance. */
  ghost predicate Flows(s: State) {
    && |s.threads| > 0
    && s.accepted == Written(s.log, true) + Hand(s.threads[0]) + s.queue
  }

  /** Each record has one place, and those of one thread are in order there. */
  ghost predicate Settled(c: Config, s: State) {
    && |s.calls| == |s.threads|
    && var direct := Written(s.log, false);
    && InCallOrder(s.accepted) && ArePlaced(s, s.accepted)
    && InCallOrder(direct) && ArePlaced(s, direct)
    && (forall x :: x in direct ==> x !in s.accepted)
    && (!c.policy.SyncFallback? ==> direct == [])
  }

  ghost predicate Records(c: Config, s: State) {
    Flows(s) && Settled(c, s)
  }

  lemma InitRecords(c: Config, producers: nat)
    ensures Records(c, Init(producers))
  {
  }

  lemma PlacedGrows(s: State, i: nat, t: State, items: seq<Item>)
    requires |s.calls| == |s.threads| && i < |s.threads| == |t.threads| == |t.calls|
    requires t.threads == s.threads[i := t.threads[i]] && t.calls == s.calls[i := t.calls[i]]
    requires Placed(s, i) <= Placed(t, i)
    requires ArePlaced(s, items)
    ensures ArePlaced(t, items)
  {
    forall k | 0 <= k < |items|
      ensures items[k].tid < |t.threads| && items[k].call < Placed(t, items[k].tid)
    {
      assert items[k].call < Placed(s, items[k].tid);
      if items[k].tid != i {
        assert Placed(t, items[k].tid) == Placed(s, items[k].tid);
      }
    }
  }

  /** The record of a Write that is not yet placed is newer than all placed ones of its thread. */
  lemma PlaceOne(s: State, t: State, i: nat, items: seq<Item>, item: Item)
    requires |s.calls| == |s.threads| && i < |s.threads| == |t.threads| == |t.calls|
    requires InCallOrder(items) && ArePlaced(s, items) && ArePlaced(t, items)
    requires item.tid == i && item.call == Placed(s, i) && item.call < Placed(t, i)
    ensures InCallOrder(items + [item]) && ArePlaced(t, items + [item]) && item !in items
  {
    var all := items + [item];
    forall j, k | 0 <= j < k < |all| && all[j].tid == all[k].tid ensures all[j].call < all[k].call {
      if k == |items| {
        assert all[j] == items[j] && items[j].call < Placed(s, items[j].tid);
      }
    }
  }

  // The three ways in which a step may move a record: into the queue, to the wrapped sink, or neither.

  predicate Accepts(q: Pc) { q.Write? && q.writeAt.CountAccepted? }

  predicate HandsOver(p: Pc) { p.Deliver? && p.deliverAt.HandOver? }

  lemma AcceptKeepsFlow(s: State, i: nat, t: State)
    requires Flows(s) && i < |s.threads| == |t.threads| && t.threads == s.threads[i := t.threads[i]]
    requires MovesRecords(s, i, t) && Accepts(t.threads[i])
    ensures Flows(t)
  {
    var before := Written(s.log, true) + Hand(s.threads[0]);
    assert Hand(s.threads[i]) == Hand(t.threads[i]) == [];
    assert Hand(t.threads[0]) == Hand(s.threads[0]);
    Behind(before, s.queue, [t.threads[i].item]);
  }

  lemma Behind<T>(a: seq<T>, b: seq<T>, c: seq<T>)
    ensures (a + b) + c == a + (b + c)
  {
  }

  lemma HandOverKeepsFlow(s: State, i: nat, t: State)
    requires Flows(s) && i < |s.threads| == |t.threads| && t.threads == s.threads[i := t.threads[i]]
    requires MovesRecords(s, i, t) && HandsOver(s.threads[i])
    requires s.threads[i].source.FromQueue? <==> i == 0
    ensures Flows(t)
  {
    var p := s.threads[i];
    WrittenAppend(s.log, Wrote(p.carried, p.source.FromQueue?), true);
    assert Hand(t.threads[i]) == [];
    if i == 0 {
      assert Hand(p) == [p.carried];
      assert Written(t.log, true) + [] == Written(s.log, true) + [p.carried];
    } else {
      assert Written(s.log, true) + [] == Written(s.log, true);
    }
  }

  lemma OtherwiseKeepsFlow(s: State, i: nat, t: State)
    requires Flows(s) && i < |s.threads| == |t.threads| && t.threads == s.threads[i := t.threads[i]]
    requires MovesRecords(s, i, t) && !Accepts(t.threads[i]) && !HandsOver(s.threads[i])
    requires s.threads[i].Loop? ==> i == 0
    ensures Flows(t)
  {
    WritesNothing(s, i, t, true);
    TakeOrNothing(s, i, t);
    if i == 0 {
      TakenFromQueue(Written(s.log, true), s.queue, Hand(t.threads[0]), t.queue);
    } else {
      NothingTaken(Hand(t.threads[i]), t.queue, s.queue);
    }
  }

  lemma TakenFromQueue(written: seq<Item>, before: seq<Item>, hand: seq<Item>, after: seq<Item>)
    requires hand + after == before
    ensures written + [] + before == written + hand + after
  {
    Behind(written, hand, after);
    assert written + [] == written;
  }

  lemma NothingTaken(hand: seq<Item>, after: seq<Item>, before: seq<Item>)
    requires hand == [] && hand + after == before
    ensures after == before
  {
    assert [] + after == after;
  }

  lemma AcceptKeepsSettled(c: Config, s: State, i: nat, t: State)
    requires Settled(c, s) && Moves(c, s, i, t) && Effect(c, s, i, t) && ThreadOk(c, s, i) && Accepts(t.threads[i])
    ensures Settled(c, t)
  {
    var item, direct := t.threads[i].item, Written(s.log, false);
    PlacedGrows(s, i, t, s.accepted);
    PlacedGrows(s, i, t, direct);
    PlaceOne(s, t, i, s.accepted, item);
    PlaceOne(s, t, i, direct, item);
  }

  lemma HandOverKeepsSettled(c: Config, s: State, i: nat, t: State)
    requires Settled(c, s) && Moves(c, s, i, t) && Effect(c, s, i, t) && ThreadOk(c, s, i) && HandsOver(s.threads[i])
    ensures Settled(c, t)
  {
    var p, direct := s.threads[i], Written(s.log, false);
    PlacedGrows(s, i, t, s.accepted);
    PlacedGrows(s, i, t, direct);
    WrittenAppend(s.log, Wrote(p.carried, p.source.FromQueue?), false);
    if p.source.FromCaller? {
      PlaceOne(s, t, i, direct, p.carried);
      PlaceOne(s, t, i, s.accepted, p.carried);
    } else {
      assert direct + [] == direct;
    }
  }

  lemma OtherwiseKeepsSettled(c: Config, s: State, i: nat, t: State)
    requires Settled(c, s) && Moves(c, s, i, t) && Effect(c, s, i, t)
    requires !Accepts(t.threads[i]) && !HandsOver(s.threads[i])
    ensures Settled(c, t)
  {
    PlacedGrows(s, i, t, s.accepted);
    PlacedGrows(s, i, t, Written(s.log, false));
    WritesNothing(s, i, t, false);
    TakeOrNothing(s, i, t);
  }

  lemma WritesNothing(s: State, i: nat, t: State, queued: bool)
    requires i < |s.threads| == |t.threads| && MovesRecords(s, i, t)
    requires !HandsOver(s.threads[i])
    ensures Written(t.log, queued) == Written(s.log, queued)
  {
    if t.log != s.log {
      WrittenAppend(s.log, t.log[|s.log|], queued);
    }
  }

  lemma TakeOrNothing(s: State, i: nat, t: State)
    requires i < |s.threads| == |t.threads| && MovesRecords(s, i, t)
    requires !Accepts(t.threads[i]) && !HandsOver(s.threads[i])
    ensures Hand(s.threads[i]) == [] && Hand(t.threads[i]) + t.queue == s.queue && t.accepted == s.accepted
    ensures Hand(t.threads[i]) != [] ==> s.threads[i].Loop?
  {
  }

  lemma StepRecords(c: Config, s: State, i: nat, t: State)
    requires Records(c, s) && Shape(c, s) && Shape(c, t) && Moves(c, s, i, t) && Effect(c, s, i, t)
    ensures Records(c, t)
  {
    assert ThreadOk(c, s, i) && ThreadOk(c, t, i);
    if Accepts(t.threads[i]) {
      AcceptKeepsFlow(s, i, t);
      AcceptKeepsSettled(c, s, i, t);
    } else if HandsOver(s.threads[i]) {
      HandOverKeepsFlow(s, i, t);
      HandOverKeepsSettled(c, s, i, t);
    } else {
      OtherwiseKeepsFlow(s, i, t);
      OtherwiseKeepsSettled(c, s, i, t);
    }
  }

  // ----- Flushes: what a flush has to see through

  /** The records the wrapped sink has received. */
  function Received(log: seq<Event>): set<Item> {
    set e | e in log && e.Wrote? :: e.item
  }

  ghost predicate FlushOk(s: State, pc: Pc) {
    && Owed(pc) <= s.returned
    && (PassedWait(pc) ==> Owed(pc) <= Received(s.log))
    && JustHanded(pc) <= Received(s.log)
    && (forall x :: x in JustAccepted(pc) ==> x in s.accepted)
  }

  /** A Write that returned undropped has been accepted or handed over. */
  ghost predicate ReturnedArrived(s: State) {
    forall x :: x in s.returned ==> x in s.accepted || x in Received(s.log)
  }

  /** The wrapped sink was never flushed before it had what that flush owed. */
  ghost predicate FlushedAfterReceipt(log: seq<Event>) {
    forall k :: 0 <= k < |log| && log[k].Flushed? ==> log[k].owed <= Received(log[..k])
  }

  ghost predicate Flushes(s: State) {
    && ReturnedArrived(s)
    && (forall j :: 0 <= j < |s.threads| ==> FlushOk(s, s.threads[j]))
    && FlushedAfterReceipt(s.log)
  }

  lemma InitFlushes(producers: nat)
    ensures Flushes(Init(producers))
  {
  }

  lemma WrittenIsReceived(log: seq<Event>, queued: bool)
    ensures forall x :: x in Written(log, queued) ==> x in Received(log)
  {
    if log != [] {
      WrittenIsReceived(log[..|log| - 1], queued);
      assert forall e :: e in log[..|log| - 1] ==> e in log;
    }
  }

  /** With no work outstanding, everything accepted has been handed over. */
  lemma NothingOutstanding(c: Config, s: State)
    requires Counts(c, s) && Records(c, s) && Flushes(s) && s.outstanding == 0
    ensures s.queue == [] && s.accepted == Written(s.log, true) && s.returned <= Received(s.log)
  {
    SumAtLeast(Pending, s.threads, 0);
    WrittenIsReceived(s.log, true);
    assert s.accepted == Written(s.log, true);
  }

  lemma ReceivedGrows(before: seq<Event>, after: seq<Event>)
    requires before <= after
    ensures Received(before) <= Received(after)
  {
    assert forall e :: e in before ==> e in after;
  }

  /** Neither records nor events are ever taken back. */
  ghost predicate HistoryGrows(s: State, t: State) {
    s.log <= t.log && s.accepted <= t.accepted && s.returned <= t.returned
  }

  lemma OtherFlushesOk(s: State, t: State, pc: Pc)
    requires FlushOk(s, pc) && HistoryGrows(s, t)
    ensures FlushOk(t, pc)
  {
    ReceivedGrows(s.log, t.log);
    assert forall x :: x in s.accepted ==> x in t.accepted;
  }

  lemma HandedIsReceived(s: State, i: nat, t: State)
    requires i < |s.threads| == |t.threads| && FlushOk(s, s.threads[i])
    requires HistoryGrows(s, t) && MovesRecords(s, i, t) && MovesFlushes(s, i, t)
    ensures JustHanded(t.threads[i]) <= Received(t.log)
  {
    ReceivedGrows(s.log, t.log);
    var p := s.threads[i];
    if HandsOver(p) {
      assert t.log[|s.log|] == Wrote(p.carried, p.source.FromQueue?) && t.log[|s.log|] in t.log;
    }
  }

  /** The acting thread owes no more than it did, unless it has just begun a flush; and it passes its wait
      only if nothing is outstanding. */
  lemma ActingFlushOk(c: Config, s: State, i: nat, t: State)
    requires Counts(c, s) && Records(c, s) && Flushes(s) && Moves(c, s, i, t)
    requires HistoryGrows(s, t) && MovesRecords(s, i, t) && MovesFlushes(s, i, t)
    ensures FlushOk(t, t.threads[i])
  {
    assert FlushOk(s, s.threads[i]);
    HandedIsReceived(s, i, t);
    ReceivedGrows(s.log, t.log);
    if s.outstanding == 0 { NothingOutstanding(c, s); }
  }

  lemma ReturnedStayArrived(s: State, i: nat, t: State)
    requires i < |s.threads| == |t.threads| && ReturnedArrived(s) && FlushOk(s, s.threads[i])
    requires HistoryGrows(s, t) && MovesFlushes(s, i, t)
    ensures ReturnedArrived(t)
  {
    ReceivedGrows(s.log, t.log);
    assert forall x :: x in s.accepted ==> x in t.accepted;
  }

  lemma NextIsFlushedAfterReceipt(s: State, i: nat, t: State)
    requires i < |s.threads| == |t.threads| && FlushedAfterReceipt(s.log) && FlushOk(s, s.threads[i])
    requires MovesRecords(s, i, t)
    ensures FlushedAfterReceipt(t.log)
  {
    forall k | 0 <= k < |t.log| && t.log[k].Flushed? ensures t.log[k].owed <= Received(t.log[..k]) {
      if k < |s.log| {
        assert t.log[..k] == s.log[..k] && t.log[k] == s.log[k];
      } else {
        assert t.log[..k] == s.log;
      }
    }
  }

  lemma HistoryOnlyGrows(s: State, i: nat, t: State)
    requires i < |s.threads| == |t.threads| && MovesRecords(s, i, t) && MovesFlushes(s, i, t)
    ensures HistoryGrows(s, t)
  {
  }

  lemma StepFlushes(c: Config, s: State, i: nat, t: State)
    requires Counts(c, s) && Records(c, s) && Flushes(s) && Moves(c, s, i, t) && Effect(c, s, i, t)
    ensures Flushes(t)
  {
    HistoryOnlyGrows(s, i, t);
    assert FlushOk(s, s.threads[i]);
    ActingFlushOk(c, s, i, t);
    forall j | 0 <= j < |t.threads| ensures FlushOk(t, t.threads[j]) {
      if j != i { OtherFlushesOk(s, t, s.threads[j]); }
    }
    ReturnedStayArrived(s, i, t);
    NextIsFlushedAfterReceipt(s, i, t);
  }

  // ----- Wake-ups: a waiting flush is never forgotten

  /** Waiting on the flush condition, or about to with the mutex in hand. */
  predicate Waiting(s: State, j: nat)
    requires j < |s.threads|
  {
    s.threads[j].Flush? && (s.threads[j].flushAt.Wait? || (s.threads[j].flushAt.Asleep? && j in s.sleepers))
  }

  ghost predicate WakeUps(s: State) {
    (exists j :: 0 <= j < |s.threads| && Waiting(s, j)) ==> s.outstanding > 0 || Sum(Waker, s.threads) > 0
  }

  lemma StepWakeUps(c: Config, s: State, i: nat, t: State)
    requires WakeUps(s) && Shape(c, s) && Shape(c, t) && Counts(c, t) && Moves(c, s, i, t) && Effect(c, s, i, t)
    ensures WakeUps(t)
  {
    var p, q := s.threads[i], t.threads[i];
    SumUpdate(Waker, s.threads, i, q);
    SumAtLeast(Waker, t.threads, i);
    SumAtLeast(Pending, t.threads, i);
    if t.outstanding <= 0 && Sum(Waker, t.threads) == 0 && exists j :: 0 <= j < |t.threads| && Waiting(t, j) {
      var j :| 0 <= j < |t.threads| && Waiting(t, j);
      assert t.outstanding == 0 && t.queue == [] && !q.Deliver?;
      assert ThreadOk(c, t, j);
      // j was waiting before, so someone had promised a wake-up; nobody can have broken the promise
      assert Waiting(s, j) by {
        if j == i { assert p == Flush(q.owed, Wait); }
      }
    }
  }

  // ----- Shutdown

  /** While the sink runs, a policy that never gives up drops nothing. */
  ghost predicate NoDrops(c: Config, s: State) {
    s.running && (c.policy.Block? || c.policy.SyncFallback?) ==>
      s.dropped == 0 && forall j :: 0 <= j < |s.threads| ==> !s.threads[j].Drop?
  }

  /** Once the worker has left its loop it delivers nothing more. */
  ghost predicate Retired(s: State) {
    && |s.threads| > 0
    && (LeftLoop(s.threads[0]) ==>
          s.exitMark <= |s.accepted| && Written(s.log, true) == s.accepted[..s.exitMark])
  }

  ghost predicate Endings(c: Config, s: State) {
    NoDrops(c, s) && Retired(s)
  }

  lemma StepNoDrops(c: Config, s: State, i: nat, t: State)
    requires i < |s.threads| == |t.threads| && t.threads == s.threads[i := t.threads[i]]
    requires NoDrops(c, s) && MovesShutdown(c, s, i, t)
    ensures NoDrops(c, t)
  {
    if t.running && (c.policy.Block? || c.policy.SyncFallback?) {
      assert !s.threads[i].Drop?;
      forall j | 0 <= j < |t.threads| ensures !t.threads[j].Drop? {
        assert !s.threads[j].Drop?;
      }
    }
  }

  /** Only the worker delivers queued records. */
  lemma QueuedWritesStay(s: State, i: nat, t: State)
    requires i < |s.threads| == |t.threads| && MovesRecords(s, i, t)
    requires Hand(s.threads[i]) == []
    ensures Written(t.log, true) == Written(s.log, true)
  {
    var p := s.threads[i];
    if p.Deliver? && p.deliverAt.HandOver? {
      WrittenAppend(s.log, Wrote(p.carried, false), true);
    } else {
      WritesNothing(s, i, t, true);
    }
  }

  lemma AcceptedGrows(s: State, i: nat, t: State)
    requires i < |s.threads| == |t.threads| && MovesRecords(s, i, t)
    ensures s.accepted <= t.accepted
  {
  }

  lemma FrontStays(before: seq<Item>, after: seq<Item>, n: nat)
    requires before <= after && n <= |before|
    ensures after[..n] == before[..n]
  {
  }

  lemma StaysRetired(c: Config, s: State, i: nat, t: State)
    requires Retired(s) && LeftLoop(s.threads[0]) && i < |s.threads| == |t.threads| && ThreadOk(c, s, i)
    requires MovesRecords(s, i, t) && t.exitMark == s.exitMark
    ensures Retired(t)
  {
    QueuedWritesStay(s, i, t);
    AcceptedGrows(s, i, t);
    FrontStays(s.accepted, t.accepted, s.exitMark);
  }

  /** The worker leaves with an empty hand and an empty queue. */
  lemma Retires(c: Config, s: State, t: State)
    requires Records(c, s) && 0 < |s.threads| == |t.threads| && MovesRecords(s, 0, t) && ThreadOk(c, t, 0)
    requires s.queue == [] && Hand(s.threads[0]) == [] && t.exitMark == |s.accepted| && LeftLoop(t.threads[0])
    ensures Retired(t)
  {
    QueuedWritesStay(s, 0, t);
    assert s.accepted == Written(s.log, true);
    assert t.accepted == s.accepted;
    assert s.accepted[..|s.accepted|] == s.accepted;
  }

  lemma StepRetired(c: Config, s: State, i: nat, t: State)
    requires Retired(s) && Shape(c, s) && Records(c, s) && Moves(c, s, i, t)
    requires MovesRecords(s, i, t) && MovesShutdown(c, s, i, t)
    ensures Retired(t)
  {
    assert ThreadOk(c, s, i) && ThreadOk(c, t, i);
    if LeftLoop(s.threads[0]) {
      assert t.exitMark == s.exitMark;
      StaysRetired(c, s, i, t);
    } else if LeftLoop(t.threads[0]) {
      assert i == 0;
      Retires(c, s, t);
    }
  }

  lemma StepEndings(c: Config, s: State, i: nat, t: State)
    requires Endings(c, s) && Shape(c, s) && Records(c, s) && Moves(c, s, i, t) && Effect(c, s, i, t)
    ensures Endings(c, t)
  {
    StepNoDrops(c, s, i, t);
    StepRetired(c, s, i, t);
  }

  // ----- All together

  ghost predicate Inv(c: Config, s: State) {
    && Counts(c, s) && Shape(c, s) && Records(c, s) && Flushes(s) && WakeUps(s) && Endings(c, s)
  }

  lemma InitInv(c: Config, producers: nat)
    ensures Inv(c, Init(producers))
  {
    InitCounts(c, producers);
    InitShape(c, producers);
    InitRecords(c, producers);
    InitFlushes(producers);
  }

  lemma StepInv(c: Config, s: State, i: nat, ch: Choice)
    requires Inv(c, s) && Enabled(s, i, ch)
    ensures Inv(c, Next(c, s, i, ch))
    ensures Moves(c, s, i, Next(c, s, i, ch)) && Effect(c, s, i, Next(c, s, i, ch))
  {
    var t := Next(c, s, i, ch);
    assert ThreadOk(c, s, i) && FlushOk(s, s.threads[i]);
    StepCounts(c, s, i, ch);
    StepShape(c, s, i, ch);
    StepEffect(c, s, i, ch);
    StepRecords(c, s, i, t);
    StepFlushes(c, s, i, t);
    StepWakeUps(c, s, i, t);
    StepEndings(c, s, i, t);
  }

  /** Thread i has taken the sink from s to t. */
  ghost predicate Stepped(c: Config, s: State, i: nat, t: State) {
    Inv(c, s) && Inv(c, t) && Moves(c, s, i, t) && Effect(c, s, i, t)
  }

  /** Every state of every run satisfies the invariant. */
  lemma {:induction false} Reachable(c: Config, producers: nat, run: seq<State>, k: nat)
    requires Run(c, producers, run) && k < |run|
    ensures Inv(c, run[k]) && |run[k].threads| == producers + 1
  {
    if k == 0 {
      InitInv(c, producers);
    } else {
      Reachable(c, producers, run, k - 1);
      assert StepAt(c, run, k);
      var i := StepOf(c, run[k - 1], run[k]);
    }
  }

  lemma StepOf(c: Config, s: State, t: State) returns (i: nat)
    requires Inv(c, s) && Step(c, s, t)
    ensures Stepped(c, s, i, t)
  {
    var j: nat, ch: Choice :| Enabled(s, j, ch) && t == Next(c, s, j, ch);
    StepInv(c, s, j, ch);
    i := j;
  }

  /** The step that a run takes after its k-th state. */
  lemma RunStep(c: Config, producers: nat, run: seq<State>, k: nat) returns (i: nat)
    requires Run(c, producers, run) && k + 1 < |run|
    ensures Stepped(c, run[k], i, run[k + 1])
    ensures |run[k].threads| == |run[k + 1].threads| == producers + 1
  {
    Reachable(c, producers, run, k);
    Reachable(c, producers, run, k + 1);
    assert StepAt(c, run, k + 1);
    i := StepOf(c, run[k], run[k + 1]);
  }
}
