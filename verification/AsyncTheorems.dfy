/** What the asynchronous sink promises, over every run and every number of threads. */
module AsyncTheorems {
  import opened AsyncModel
  import opened AsyncCounts
  import opened AsyncShape
  import opened AsyncEffects
  import opened AsyncInvariant

  // ----- Flush

  /** A flush that waits while nothing is left to do has been promised a wake-up. */
  lemma FlushIsNeverForgotten(c: Config, producers: nat, run: seq<State>, k: nat, flusher: nat)
    requires Run(c, producers, run) && k < |run| && flusher < |run[k].threads| && Waiting(run[k], flusher)
    requires run[k].outstanding == 0
    ensures exists j :: 0 <= j < |run[k].threads| && CommittedToNotify(run[k].threads[j])
  {
    Reachable(c, producers, run, k);
    WaiterHasWaker(run[k], flusher);
  }

  lemma WaiterHasWaker(s: State, flusher: nat)
    requires WakeUps(s) && flusher < |s.threads| && Waiting(s, flusher) && s.outstanding == 0
    ensures exists j :: 0 <= j < |s.threads| && CommittedToNotify(s.threads[j])
  {
    var j := SumWitness(Waker, s.threads);
    assert CommittedToNotify(s.threads[j]);
  }

  /** The promise is kept: whoever gives it either still has it to keep, or has left work for
      another thread to finish, or has woken every waiting flush. */
  lemma PromiseIsKept(c: Config, producers: nat, run: seq<State>, k: nat, i: nat, flusher: nat)
    requires Run(c, producers, run) && k + 1 < |run| && i <= producers && flusher <= producers
    requires CommittedToNotify(run[k].threads[i]) && !CommittedToNotify(run[k + 1].threads[i])
    ensures run[k + 1].outstanding > 0 || !Waiting(run[k + 1], flusher)
  {
    var j := RunStep(c, producers, run, k);
    var t := run[k + 1];
    assert ThreadOk(c, t, flusher);
    SumAtLeast(Pending, t.threads, i);
  }

  /** A thread is in a flush only if it was, with the same debt, or has just begun one. */
  ghost predicate SameDebt(s: State, t: State, f: nat) {
    && f < |s.threads| == |t.threads|
    && (InFlush(t.threads[f]) ==>
          || (InFlush(s.threads[f]) && Owed(t.threads[f]) == Owed(s.threads[f]))
          || (s.threads[f].Idle? && Owed(t.threads[f]) == s.returned))
  }

  lemma StepSameDebt(c: Config, producers: nat, run: seq<State>, k: nat, f: nat)
    requires Run(c, producers, run) && k + 1 < |run| && f <= producers
    ensures SameDebt(run[k], run[k + 1], f)
  {
    var i := RunStep(c, producers, run, k);
    assert f != i ==> run[k + 1].threads[f] == run[k].threads[f];
  }

  /** Between the call of Flush and its flush of the wrapped sink, what it owes does not change. */
  lemma {:induction false} FlushKeepsItsDebt(c: Config, producers: nat, run: seq<State>, j: nat, k: nat, f: nat)
    requires Run(c, producers, run) && j < k < |run| && f <= producers
    requires run[j].threads[f].Idle? && forall m :: j < m <= k ==> !run[m].threads[f].Idle?
    ensures InFlush(run[k].threads[f]) ==> Owed(run[k].threads[f]) == run[j].returned
  {
    if k > j + 1 { FlushKeepsItsDebt(c, producers, run, j, k - 1, f); }
    StepSameDebt(c, producers, run, k - 1, f);
    assert run[k - 1].threads[f].Idle? <==> k - 1 == j;
  }

  /** The flush barrier: when a Flush that began after step j is about to flush the wrapped sink,
      that sink has every record whose Write had returned undropped by step j. */
  lemma FlushBarrier(c: Config, producers: nat, run: seq<State>, j: nat, k: nat, f: nat)
    requires Run(c, producers, run) && j < k < |run| && f <= producers
    requires run[j].threads[f].Idle? && forall m :: j < m <= k ==> !run[m].threads[f].Idle?
    requires run[k].threads[f].Flush? && run[k].threads[f].flushAt.SinkFlush?
    ensures run[j].returned <= Received(run[k].log)
  {
    FlushKeepsItsDebt(c, producers, run, j, k, f);
    Reachable(c, producers, run, k);
    assert FlushOk(run[k], run[k].threads[f]);
  }

  // ----- Records

  lemma {:induction false} WrittenAt(log: seq<Event>, k: nat) returns (n: nat)
    requires k < |log| && log[k].Wrote?
    ensures n == |Written(log[..k], log[k].queued)| < |Written(log, log[k].queued)|
    ensures Written(log, log[k].queued)[n] == log[k].item
  {
    n := |Written(log[..k], log[k].queued)|;
    if k < |log| - 1 {
      var shorter := log[..|log| - 1];
      assert shorter[..k] == log[..k] && shorter[k] == log[k];
      var m := WrittenAt(shorter, k);
    }
  }

  lemma {:induction false} WrittenGrows(log: seq<Event>, j: nat, k: nat, queued: bool)
    requires j <= k <= |log|
    ensures Written(log[..j], queued) <= Written(log[..k], queued)
    ensures j < k && log[j].Wrote? && log[j].queued == queued ==>
              |Written(log[..j], queued)| < |Written(log[..k], queued)|
  {
    if j < k {
      WrittenGrows(log, j, k - 1, queued);
      assert log[..k] == log[..k - 1] + [log[k - 1]];
      WrittenAppend(log[..k - 1], log[k - 1], queued);
    }
  }

  /** No record is handed over twice; and unless producers may fall back, each thread's records
      are handed over in the order of its calls. */
  lemma DeliveredOnceInOrder(c: Config, producers: nat, run: seq<State>, k: nat, a: nat, b: nat)
    requires Run(c, producers, run) && k < |run| && a < b < |run[k].log|
    requires run[k].log[a].Wrote? && run[k].log[b].Wrote?
    ensures run[k].log[a].item != run[k].log[b].item
    ensures !c.policy.SyncFallback? && run[k].log[a].item.tid == run[k].log[b].item.tid ==>
              run[k].log[a].item.call < run[k].log[b].item.call
  {
    Reachable(c, producers, run, k);
    var log := run[k].log;
    var m := WrittenAt(log, a);
    var n := WrittenAt(log, b);
    WrittenGrows(log, a, b, log[a].queued);
    WrittenGrows(log, b, |log|, log[b].queued);
    assert log[..|log|] == log;
    assert Written(log, true) <= run[k].accepted;
    if log[a].queued == log[b].queued {
      assert m < n;
      var items := if log[a].queued then run[k].accepted else Written(log, false);
      assert items[m] == log[a].item && items[n] == log[b].item;
    } else {
      assert log[a].queued ==> log[a].item in run[k].accepted;
      assert log[b].queued ==> log[b].item in run[k].accepted;
    }
  }

  /** What the worker has delivered is a prefix of what was accepted, and the rest is still there. */
  lemma DeliveredIsPrefix(c: Config, producers: nat, run: seq<State>, k: nat)
    requires Run(c, producers, run) && k < |run|
    ensures Written(run[k].log, true) <= run[k].accepted
    ensures |run[k].accepted| - |Written(run[k].log, true)| <= |run[k].queue| + 1
    ensures |run[k].queue| <= c.capacity
    ensures |run[k].queue| <= |run[k].accepted| && run[k].queue == run[k].accepted[|run[k].accepted| - |run[k].queue|..]
  {
    Reachable(c, producers, run, k);
  }

  // ----- Counters

  /** In every state: the outstanding work is in the queue or in some thread's hands, so its counter never
      wraps below zero; each Write is counted once or still under way; each drop has been reported, is
      pending, or is in the hands of a thread that counts or reports it; and no policy that waits or falls
      back loses a record while the sink runs. */
  lemma CountersAlways(c: Config, producers: nat, run: seq<State>, k: nat)
    requires Run(c, producers, run) && k < |run|
    ensures var s := run[k];
      && s.outstanding == |s.queue| + Sum(Pending, s.threads)
      && s.enqueued + s.dropped + s.fallbackWrites + Sum(Uncounted, s.threads) == s.started
      && ReportedDrops(s.log) + s.unreported + Sum(Unreported, s.threads) == s.dropped
      && s.timeoutDropped <= s.dropped
      && (s.running && (c.policy.Block? || c.policy.SyncFallback?) ==> s.dropped == 0)
  {
    Reachable(c, producers, run, k);
  }

  /** Nobody is inside a call and the worker is between batches. */
  ghost predicate Quiescent(s: State) {
    && s.queue == [] && |s.threads| > 0 && s.threads[0].Loop?
    && forall j :: 1 <= j < |s.threads| ==> s.threads[j].Idle?
  }

  /** At rest the books balance. */
  lemma CountersAtRest(c: Config, producers: nat, run: seq<State>, k: nat)
    requires Run(c, producers, run) && k < |run| && Quiescent(run[k])
    ensures var s := run[k];
      && s.outstanding == 0
      && s.enqueued + s.dropped + s.fallbackWrites == s.started
      && s.delivered == s.enqueued + s.fallbackWrites
      && ReportedDrops(s.log) + s.unreported == s.dropped
      && s.accepted == Written(s.log, true)
  {
    Reachable(c, producers, run, k);
    var s := run[k];
    forall m: Meter | m != Waker ensures Sum(m, s.threads) == 0 {
      forall j | 0 <= j < |s.threads| ensures Weight(m, s.threads[j]) == 0 {
        if j > 0 { assert s.threads[j].Idle?; }
      }
      SumZero(m, s.threads);
    }
  }
}
