/** The order in which one thread's records reach the wrapped sink: which records a synchronous
    fallback overtakes, and that nothing else changes the order. */
module AsyncOrder {
  import opened AsyncModel
  import opened AsyncShape
  import opened AsyncEffects
  import opened AsyncInvariant
  import opened AsyncTheorems

  // ----- Only a fallback overtakes, and only a queued record is overtaken

  /** Thread i hands its own record to the wrapped sink. */
  ghost predicate FallsBack(s: State, t: State, x: Item) {
    t.log == s.log + [Wrote(x, false)]
  }

  /** A record handed over by its own thread is newer than all that this thread has had accepted. */
  lemma FallbackIsNewest(c: Config, s: State, i: nat, t: State, x: Item, y: Item)
    requires Stepped(c, s, i, t) && FallsBack(s, t, x) && y in s.accepted && y.tid == x.tid
    ensures y.call < x.call
  {
    assert t.log[|s.log|] == Wrote(x, false);
    assert ThreadOk(c, s, i) && s.threads[i] == Deliver(x, FromCaller, HandOver);
    var n :| 0 <= n < |s.accepted| && s.accepted[n] == y;
    assert y.call < Placed(s, y.tid);
  }

  /** A run's log only grows, by one event at a time. */
  lemma LogGrows(c: Config, producers: nat, run: seq<State>, k: nat)
    requires Run(c, producers, run) && k + 1 < |run|
    ensures run[k].log <= run[k + 1].log && |run[k + 1].log| <= |run[k].log| + 1
  {
    var i := RunStep(c, producers, run, k);
  }

  lemma FallbackAfterQueued(c: Config, producers: nat, run: seq<State>, k: nat, a: nat, x: Item)
    requires Run(c, producers, run) && k + 1 < |run| && FallsBack(run[k], run[k + 1], x) && a < |run[k].log|
    requires run[k].log[a].Wrote? && run[k].log[a].queued && run[k].log[a].item.tid == x.tid
    ensures run[k].log[a].item.call < x.call
  {
    var i := RunStep(c, producers, run, k);
    var n := WrittenAt(run[k].log, a);
    InAccepted(c, run[k], n);
    FallbackIsNewest(c, run[k], i, run[k + 1], x, run[k].log[a].item);
  }

  lemma InAccepted(c: Config, s: State, n: nat)
    requires Records(c, s) && n < |Written(s.log, true)|
    ensures Written(s.log, true)[n] in s.accepted
  {
    assert s.accepted[n] == Written(s.log, true)[n];
  }

  lemma {:induction false} QueuedBeforeFallback(c: Config, producers: nat, run: seq<State>, k: nat, a: nat, b: nat)
    requires Run(c, producers, run) && k < |run| && a < b < |run[k].log|
    requires run[k].log[a].Wrote? && run[k].log[b].Wrote? && run[k].log[a].item.tid == run[k].log[b].item.tid
    requires run[k].log[a].queued && !run[k].log[b].queued
    ensures run[k].log[a].item.call < run[k].log[b].item.call
  {
    if k > 0 {
      LogGrows(c, producers, run, k - 1);
      var before, log := run[k - 1].log, run[k].log;
      assert before[a] == log[a];
      if b < |before| {
        assert before[b] == log[b];
        QueuedBeforeFallback(c, producers, run, k - 1, a, b);
      } else {
        assert log == before + [log[b]] && log[b] == Wrote(log[b].item, false);
        FallbackAfterQueued(c, producers, run, k - 1, a, log[b].item);
      }
    }
  }

  /** Two records of one thread reach the wrapped sink in the order of their calls, unless the first was
      handed over by a fallback and the second was queued. */
  lemma OnlyFallbacksOvertake(c: Config, producers: nat, run: seq<State>, k: nat, a: nat, b: nat)
    requires Run(c, producers, run) && k < |run| && a < b < |run[k].log|
    requires run[k].log[a].Wrote? && run[k].log[b].Wrote? && run[k].log[a].item.tid == run[k].log[b].item.tid
    ensures run[k].log[a].item.call < run[k].log[b].item.call || (!run[k].log[a].queued && run[k].log[b].queued)
  {
    var log := run[k].log;
    if log[a].queued && !log[b].queued {
      QueuedBeforeFallback(c, producers, run, k, a, b);
    } else if log[a].queued == log[b].queued {
      Reachable(c, producers, run, k);
      var m := WrittenAt(log, a);
      var n := WrittenAt(log, b);
      WrittenGrows(log, a, b, log[a].queued);
      var items := if log[a].queued then run[k].accepted else Written(log, false);
      assert items[m] == log[a].item && items[n] == log[b].item;
    }
  }

  // ----- Exactly which records a fallback overtakes

  lemma StepPlaces(c: Config, producers: nat, run: seq<State>, k: nat, f: nat)
    requires Run(c, producers, run) && k + 1 < |run| && f <= producers
    ensures Placed(run[k], f) <= Placed(run[k + 1], f)
  {
    var i := RunStep(c, producers, run, k);
    assert f != i ==> run[k + 1].threads[f] == run[k].threads[f] && run[k + 1].calls[f] == run[k].calls[f];
  }

  lemma {:induction false} PlacedNeverDrops(c: Config, producers: nat, run: seq<State>, j: nat, k: nat, f: nat)
    requires Run(c, producers, run) && j <= k < |run| && f <= producers
    ensures Placed(run[j], f) <= Placed(run[k], f)
  {
    if j < k {
      PlacedNeverDrops(c, producers, run, j, k - 1, f);
      StepPlaces(c, producers, run, k - 1, f);
    }
  }

  lemma AcceptedNow(c: Config, producers: nat, run: seq<State>, k: nat, y: Item)
    requires Run(c, producers, run) && k + 1 < |run| && y in run[k + 1].accepted && y !in run[k].accepted
    ensures y.tid <= producers
    ensures Placed(run[k], y.tid) == y.call
  {
    var i := RunStep(c, producers, run, k);
    assert ThreadOk(c, run[k], i);
  }

  /** A record that is accepted after step j is none of those that its thread had placed by then. */
  lemma {:induction false} AcceptedLater(c: Config, producers: nat, run: seq<State>, j: nat, k: nat, y: Item)
    requires Run(c, producers, run) && j <= k < |run| && y.tid <= producers
    requires y in run[k].accepted && y !in run[j].accepted
    ensures Placed(run[j], y.tid) <= y.call
  {
    if y in run[k - 1].accepted {
      AcceptedLater(c, producers, run, j, k - 1, y);
    } else {
      AcceptedNow(c, producers, run, k - 1, y);
      PlacedNeverDrops(c, producers, run, j, k - 1, y.tid);
    }
  }

  /** When a thread falls back for record x, those of its records that are in the queue or in the worker's
      hand are older than x and come after it; every other record of the thread that the worker ever
      delivers either has been delivered before or is newer. */
  lemma FallbackOvertakesExactly(c: Config, producers: nat, run: seq<State>, j: nat, k: nat, x: Item, y: Item)
    requires Run(c, producers, run) && j + 1 <= k < |run| && FallsBack(run[j], run[j + 1], x)
    requires y in run[k].accepted && y.tid == x.tid
    ensures y in Hand(run[j].threads[0]) + run[j].queue <==> y.call < x.call && y !in Written(run[j].log, true)
  {
    Reachable(c, producers, run, k);
    var i := RunStep(c, producers, run, j);
    if y in run[j].accepted {
      AcceptedBefore(c, run[j], i, run[j + 1], x, y);
    } else {
      AcceptedAfter(c, run[j], i, run[j + 1], x, y);
      AcceptedLater(c, producers, run, j, k, y);
    }
  }

  lemma AcceptedBefore(c: Config, s: State, i: nat, t: State, x: Item, y: Item)
    requires Stepped(c, s, i, t) && FallsBack(s, t, x) && y in s.accepted && y.tid == x.tid
    ensures y.call < x.call && (y in Hand(s.threads[0]) + s.queue <==> y !in Written(s.log, true))
  {
    FallbackIsNewest(c, s, i, t, x, y);
    assert s.accepted == Written(s.log, true) + (Hand(s.threads[0]) + s.queue);
    OncePlaced(s.accepted, Written(s.log, true), Hand(s.threads[0]) + s.queue, y);
  }

  lemma AcceptedAfter(c: Config, s: State, i: nat, t: State, x: Item, y: Item)
    requires Stepped(c, s, i, t) && FallsBack(s, t, x) && y !in s.accepted && y.tid == x.tid
    ensures y !in Hand(s.threads[0]) + s.queue && y.tid < |s.threads| == |s.calls| && Placed(s, y.tid) == x.call
  {
    assert t.log[|s.log|] == Wrote(x, false);
    assert ThreadOk(c, s, i) && s.threads[i] == Deliver(x, FromCaller, HandOver);
    assert s.accepted == Written(s.log, true) + (Hand(s.threads[0]) + s.queue);
  }

  lemma OncePlaced(all: seq<Item>, front: seq<Item>, back: seq<Item>, y: Item)
    requires InCallOrder(all) && all == front + back && y in all
    ensures y in back <==> y !in front
  {
    forall m, n | 0 <= m < |front| && 0 <= n < |back| ensures front[m] != back[n] {
      assert all[m] == front[m] && all[|front| + n] == back[n];
    }
  }
}
