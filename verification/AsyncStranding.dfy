/** When a record can be stranded by Shutdown: the exact condition, read from the state beforehand. */
module AsyncStranding {
  import opened Basics
  import opened AsyncModel
  import opened AsyncShape
  import opened AsyncEffects
  import opened AsyncInvariant
  import opened AsyncShutdown

  /** A Write that is about to offer its record to the queue without looking at the running flag again. */
  predicate Queueing(pc: Pc) {
    pc.Write? && (pc.writeAt.Announce? || pc.writeAt.Offer?)
  }

  ghost predicate AnyQueueing(s: State) {
    exists j :: 0 <= j < |s.threads| && Queueing(s.threads[j])
  }

  /** The running flag is cleared and nobody is about to queue. Writes that wait for space may remain. */
  ghost predicate Sealed(s: State) {
    !s.running && !AnyQueueing(s)
  }

  function Last(run: seq<State>): State
    requires |run| > 0
  {
    run[|run| - 1]
  }

  ghost predicate Continues(c: Config, producers: nat, run: seq<State>, more: seq<State>) {
    Run(c, producers, more) && run <= more
  }

  /** The worker takes no more records, and one is in the queue. */
  ghost predicate LeftBehind(s: State) {
    |s.threads| > 0 && LeftLoop(s.threads[0]) && s.queue != []
  }

  // ----- Sealed sinks leave nothing behind

  /** Thread i does not come to the point of queueing. */
  predicate NoNewcomer(s: State, i: nat, t: State) {
    i < |s.threads| == |t.threads| && (Queueing(t.threads[i]) ==> Queueing(s.threads[i]))
  }

  lemma WriteNoNewcomer(c: Config, s: State, i: nat, item: Item, at: WriteAt, ch: Choice)
    requires i < |s.threads| && s.threads[i] == Write(item, at) && !s.running
    ensures NoNewcomer(s, i, NextWrite(c, s, i, item, at, ch))
  {
  }

  lemma NotifyNoNewcomer(c: Config, s: State, i: nat, next: AfterNotify, at: NotifyAt)
    requires i < |s.threads| && s.threads[i] == Notify(next, at)
    ensures NoNewcomer(s, i, NextNotify(c, s, i, next, at))
  {
  }

  lemma FlushNoNewcomer(c: Config, s: State, i: nat, owed: set<Item>, at: FlushAt)
    requires i < |s.threads| && s.threads[i] == Flush(owed, at)
    ensures NoNewcomer(s, i, NextFlush(c, s, i, owed, at))
  {
  }

  lemma LoopNoNewcomer(c: Config, s: State, i: nat, at: LoopAt)
    requires i < |s.threads| && s.threads[i] == Loop(at)
    ensures NoNewcomer(s, i, NextLoop(c, s, i, at))
  {
  }

  lemma OtherNoNewcomer(s: State, i: nat, ch: Choice)
    requires i < |s.threads| == |s.calls|
    ensures s.threads[i].Idle? ==> NoNewcomer(s, i, NextCall(s, i, ch))
    ensures s.threads[i].Drop? ==> NoNewcomer(s, i, NextDrop(s, i, s.threads[i].dropAt))
    ensures s.threads[i].Deliver? ==>
              NoNewcomer(s, i, NextDeliver(s, i, s.threads[i].carried, s.threads[i].source, s.threads[i].deliverAt))
    ensures s.threads[i].ReportEmit? ==> NoNewcomer(s, i, NextReport(s, i, s.threads[i].count, s.threads[i].after))
  {
  }

  /** Without the running flag no step brings a thread to the point of queueing. */
  lemma NoNewQueueing(c: Config, s: State, i: nat, ch: Choice)
    requires Enabled(s, i, ch) && !s.running
    ensures NoNewcomer(s, i, Next(c, s, i, ch))
  {
    match s.threads[i] {
      case Write(item, at) => WriteNoNewcomer(c, s, i, item, at, ch);
      case Notify(next, at) => NotifyNoNewcomer(c, s, i, next, at);
      case Flush(owed, at) => FlushNoNewcomer(c, s, i, owed, at);
      case Loop(at) => LoopNoNewcomer(c, s, i, at);
      case Idle => OtherNoNewcomer(s, i, ch);
      case Drop(_) => OtherNoNewcomer(s, i, ch);
      case Deliver(_, _, _) => OtherNoNewcomer(s, i, ch);
      case ReportEmit(_, _) => OtherNoNewcomer(s, i, ch);
      case ReportTake(_) =>
      case StopBegin =>
      case StopJoin =>
    }
  }

  /** A step of a sealed sink accepts nothing and keeps it sealed. */
  ghost predicate StaysSealed(s: State, t: State) {
    && Sealed(t) && t.accepted == s.accepted && |t.queue| <= |s.queue| && |t.threads| == |s.threads|
    && (LeftBehind(t) ==> LeftBehind(s))
  }

  lemma StepSeals(c: Config, s: State, i: nat, t: State)
    requires Stepped(c, s, i, t) && Sealed(s) && (Queueing(t.threads[i]) ==> Queueing(s.threads[i]))
    ensures StaysSealed(s, t)
  {
    assert ThreadOk(c, s, i) && ThreadOk(c, t, i);
    assert !Queueing(s.threads[i]);
    forall j | 0 <= j < |t.threads| ensures !Queueing(t.threads[j]) {
      assert !Queueing(s.threads[j]);
    }
  }

  lemma StepAtSeals(c: Config, producers: nat, run: seq<State>, k: nat)
    requires Run(c, producers, run) && k + 1 < |run| && Sealed(run[k])
    ensures StaysSealed(run[k], run[k + 1])
  {
    Reachable(c, producers, run, k);
    assert StepAt(c, run, k + 1);
    var i: nat, ch: Choice :| Enabled(run[k], i, ch) && run[k + 1] == Next(c, run[k], i, ch);
    NoNewQueueing(c, run[k], i, ch);
    StepInv(c, run[k], i, ch);
    StepSeals(c, run[k], i, run[k + 1]);
  }

  lemma {:induction false} SealedLeavesNothing(c: Config, producers: nat, run: seq<State>, j: nat, k: nat)
    requires Run(c, producers, run) && j <= k < |run| && Sealed(run[j]) && !LeftBehind(run[j])
    ensures Sealed(run[k]) && !LeftBehind(run[k]) && run[k].accepted == run[j].accepted
  {
    if j < k {
      SealedLeavesNothing(c, producers, run, j, k - 1);
      StepAtSeals(c, producers, run, k - 1);
    }
  }

  /** A stopped worker has delivered every record that a sealed sink had accepted, even if Writes that wait
      for space, or fall back, are still under way. */
  lemma SealedDrains(c: Config, producers: nat, run: seq<State>, j: nat, k: nat)
    requires Run(c, producers, run) && j <= k < |run| && Sealed(run[j]) && !LeftLoop(run[j].threads[0])
    requires run[k].threads[0] == Loop(Stopped)
    ensures run[k].queue == [] && run[k].accepted == run[j].accepted == Written(run[k].log, true)
  {
    SealedLeavesNothing(c, producers, run, j, k);
    StrandedExactly(c, producers, run, k);
    assert run[k].queue == [];
  }

  // ----- The worker leaves only after the running flag is cleared

  predicate PastRunning(pc: Pc) { pc == Loop(TestDrained) || LeftLoop(pc) }

  lemma StepPastRunning(c: Config, s: State, ch: Choice)
    requires Enabled(s, 0, ch) && WorkerPc(s.threads[0]) && (PastRunning(s.threads[0]) ==> !s.running)
    ensures var t := Next(c, s, 0, ch); 0 < |t.threads| && (PastRunning(t.threads[0]) ==> !t.running)
  {
    match s.threads[0] {
      case Loop(at) =>
        match at { case Head => case TestDrained => case Take(_) => case Nap => case FinalFlush => }
      case Deliver(_, _, at) =>
      case Notify(next, at) =>
      case ReportTake(_) =>
      case ReportEmit(_, after) =>
    }
  }

  lemma StepAtPastRunning(c: Config, producers: nat, run: seq<State>, k: nat)
    requires Run(c, producers, run) && k + 1 < |run|
    requires PastRunning(run[k].threads[0]) ==> !run[k].running
    ensures PastRunning(run[k + 1].threads[0]) ==> !run[k + 1].running
  {
    Reachable(c, producers, run, k);
    assert StepAt(c, run, k + 1);
    var i: nat, ch: Choice :| Enabled(run[k], i, ch) && run[k + 1] == Next(c, run[k], i, ch);
    assert ThreadOk(c, run[k], 0);
    if i == 0 {
      StepPastRunning(c, run[k], ch);
    } else {
      OthersLeaveWorker(c, run[k], i, ch);
    }
  }

  lemma OthersLeaveWorker(c: Config, s: State, i: nat, ch: Choice)
    requires Inv(c, s) && Enabled(s, i, ch) && i > 0
    ensures var t := Next(c, s, i, ch);
      |t.threads| == |s.threads| && t.threads[0] == s.threads[0] && (t.running ==> s.running)
  {
    StepInv(c, s, i, ch);
  }

  lemma {:induction false} LeftMeansClosed(c: Config, producers: nat, run: seq<State>, k: nat)
    requires Run(c, producers, run) && k < |run|
    ensures PastRunning(run[k].threads[0]) ==> !run[k].running
  {
    if k > 0 {
      LeftMeansClosed(c, producers, run, k - 1);
      StepAtPastRunning(c, producers, run, k - 1);
    }
  }

  // ----- A thread that is about to queue can wait until the worker has stopped

  lemma RunGrows(c: Config, producers: nat, run: seq<State>, t: State)
    requires Run(c, producers, run) && Step(c, Last(run), t) && Sized(t, producers)
    ensures Continues(c, producers, run, run + [t]) && Last(run + [t]) == t
  {
    var more := run + [t];
    forall k | 0 < k < |more| ensures StepAt(c, more, k) {
      if k < |run| {
        assert StepAt(c, run, k);
        assert more[k - 1] == run[k - 1] && more[k] == run[k];
      }
    }
    forall k | 0 <= k < |more| ensures Sized(more[k], producers) {
      if k < |run| { assert more[k] == run[k] && Sized(run[k], producers); }
    }
  }

  lemma EnabledSteps(c: Config, producers: nat, s: State, i: nat, ch: Choice)
    requires Inv(c, s) && Enabled(s, i, ch) && Sized(s, producers)
    ensures var t := Next(c, s, i, ch); Step(c, s, t) && Sized(t, producers) && Stepped(c, s, i, t)
  {
    StepInv(c, s, i, ch);
    assert Step(c, s, Next(c, s, i, ch));
    StepKeepsSize(c, producers, s, Next(c, s, i, ch));
  }

  lemma OneMoreStep(c: Config, producers: nat, run: seq<State>, i: nat, ch: Choice) returns (more: seq<State>)
    requires Run(c, producers, run) && Enabled(Last(run), i, ch)
    ensures Continues(c, producers, run, more) && Last(more) == Next(c, Last(run), i, ch)
    ensures Stepped(c, Last(run), i, Last(more))
  {
    Reachable(c, producers, run, |run| - 1);
    EnabledSteps(c, producers, Last(run), i, ch);
    RunGrows(c, producers, run, Next(c, Last(run), i, ch));
    more := run + [Next(c, Last(run), i, ch)];
  }

  /** How many steps the holder of the flush mutex has left before it gives the mutex back. */
  function FlushRank(pc: Pc): nat {
    if !pc.Flush? then 0
    else if pc.flushAt.TestOutstanding? then 3
    else if pc.flushAt.TestEmpty? then 2
    else if pc.flushAt.Wait? then 1
    else 0
  }

  function LockRank(s: State): nat {
    (if s.flushLock.Some? && s.flushLock.value < |s.threads| then FlushRank(s.threads[s.flushLock.value]) else 0)
    + (if s.deliveryLock.Some? then 1 else 0)
  }

  /** A lock holder is on its way to give its lock back. */
  lemma HolderMoves(c: Config, s: State, i: nat)
    requires Inv(c, s) && Enabled(s, i, Proceed) && i > 0
    requires s.flushLock == Some(i) || s.deliveryLock == Some(i)
    ensures var t := Next(c, s, i, Proceed);
      LockRank(t) < LockRank(s) && t.queue == s.queue
  {
    assert ThreadOk(c, s, i);
    match s.threads[i] {
      case Flush(owed, at) =>
        match at { case TestOutstanding => case TestEmpty => case Wait => }
      case ReportEmit(_, _) => assert s.flushLock != Some(i);
      case Deliver(_, _, at) => assert at.CountDelivered? && s.flushLock != Some(i);
    }
  }

  /** Thread i is about to queue, and the worker may still go about its work. */
  ghost predicate Parked(s: State, i: nat, pc: Pc) {
    0 < i < |s.threads| && s.threads[i] == pc && Queueing(pc) && !s.running && !LeftBehind(s)
  }

  lemma StaysParked(c: Config, s: State, n: nat, t: State, i: nat, pc: Pc)
    requires Stepped(c, s, n, t) && Parked(s, i, pc) && n != i && !Queueing(s.threads[n])
    ensures Parked(t, i, pc)
  {
    assert ThreadOk(c, s, n) && ThreadOk(c, t, n);
  }

  lemma HoldersAreNotQueueing(c: Config, s: State, n: nat)
    requires Inv(c, s) && n < |s.threads| && (n == 0 || s.flushLock == Some(n) || s.deliveryLock == Some(n))
    ensures !Queueing(s.threads[n])
  {
    assert ThreadOk(c, s, n);
  }

  /** The worker's measure, or else the locks', goes down. */
  ghost predicate Closer(c: Config, s: State, t: State) {
    && |s.threads| > 0 && |t.threads| > 0
    && (Fuel(c, t) < Fuel(c, s) || (Fuel(c, t) == Fuel(c, s) && LockRank(t) < LockRank(s)))
  }

  lemma FuelOrLock(c: Config, s: State, n: nat)
    requires c.batch > 0 && Inv(c, s) && !s.running && Enabled(s, n, Proceed)
    requires n == 0 || s.flushLock == Some(n) || s.deliveryLock == Some(n)
    ensures Closer(c, s, Next(c, s, n, Proceed))
  {
    assert ThreadOk(c, s, 0);
    if n == 0 {
      WorkerBurnsFuel(c, s, Proceed);
    } else {
      HolderMoves(c, s, n);
      OthersLeaveWorker(c, s, n, Proceed);
    }
  }

  lemma Mover(c: Config, producers: nat, run: seq<State>) returns (n: nat)
    requires Run(c, producers, run) && Last(run).threads[0] != Loop(Stopped)
    ensures Inv(c, Last(run)) && Enabled(Last(run), n, Proceed) && !Queueing(Last(run).threads[n])
    ensures n == 0 || Last(run).flushLock == Some(n) || Last(run).deliveryLock == Some(n)
  {
    Reachable(c, producers, run, |run| - 1);
    n := WorkerOrHolderMoves(c, Last(run));
    HoldersAreNotQueueing(c, Last(run), n);
  }

  lemma MovesCloser(c: Config, producers: nat, run: seq<State>, i: nat, pc: Pc) returns (more: seq<State>)
    requires c.batch > 0 && Run(c, producers, run) && Parked(Last(run), i, pc)
    requires Last(run).threads[0] != Loop(Stopped)
    ensures Continues(c, producers, run, more) && Parked(Last(more), i, pc) && Closer(c, Last(run), Last(more))
  {
    var n := Mover(c, producers, run);
    FuelOrLock(c, Last(run), n);
    more := OneMoreStep(c, producers, run, n, Proceed);
    StaysParked(c, Last(run), n, Last(more), i, pc);
  }

  /** The worker and the holders of locks can always bring the worker to its stop, and leave the parked
      thread where it is. */
  lemma {:induction false} WorkerCanStop(c: Config, producers: nat, run: seq<State>, i: nat, pc: Pc)
    returns (more: seq<State>)
    requires c.batch > 0 && Run(c, producers, run) && Parked(Last(run), i, pc)
    ensures Continues(c, producers, run, more)
    ensures Parked(Last(more), i, pc) && Last(more).threads[0] == Loop(Stopped)
    decreases Fuel(c, Last(run)), LockRank(Last(run))
  {
    if Last(run).threads[0] == Loop(Stopped) {
      more := run;
    } else {
      var next := MovesCloser(c, producers, run, i, pc);
      more := WorkerCanStop(c, producers, next, i, pc);
    }
  }

  lemma Offers(c: Config, s: State, i: nat, item: Item)
    requires c.capacity > 0 && 0 < i < |s.threads| == |s.calls| && s.threads[i] == Write(item, Offer) && s.queue == []
    ensures Enabled(s, i, Proceed)
    ensures Next(c, s, i, Proceed).queue == [item]
    ensures Next(c, s, i, Proceed).threads == s.threads[i := Write(item, CountAccepted)]
  {
  }

  lemma Announces(c: Config, s: State, i: nat, item: Item)
    requires 0 < i < |s.threads| == |s.calls| && s.threads[i] == Write(item, Announce)
    ensures Enabled(s, i, Proceed)
    ensures Next(c, s, i, Proceed).queue == s.queue
    ensures Next(c, s, i, Proceed).threads == s.threads[i := Write(item, Offer)]
  {
  }

  /** And then it queues its record behind the stopped worker. */
  lemma QueuesBehind(c: Config, producers: nat, run: seq<State>, i: nat, pc: Pc) returns (more: seq<State>)
    requires c.capacity > 0 && Run(c, producers, run)
    requires Parked(Last(run), i, pc) && Last(run).threads[0] == Loop(Stopped)
    ensures Continues(c, producers, run, more)
    ensures Last(more).threads[0] == Loop(Stopped) && Last(more).queue == [pc.item]
  {
    var offering := run;
    if pc.writeAt.Announce? {
      Announces(c, Last(run), i, pc.item);
      offering := OneMoreStep(c, producers, run, i, Proceed);
    }
    assert Sized(Last(offering), producers);
    Offers(c, Last(offering), i, pc.item);
    more := OneMoreStep(c, producers, offering, i, Proceed);
  }

  // ----- The exact condition

  lemma StrandingNeedsQueueing(c: Config, producers: nat, run: seq<State>, more: seq<State>)
    requires Run(c, producers, run) && !Last(run).running && !LeftBehind(Last(run))
    requires Continues(c, producers, run, more) && LeftBehind(Last(more))
    ensures c.capacity > 0 && AnyQueueing(Last(run))
  {
    QueueWithinCapacity(c, producers, more, |more| - 1);
    if !AnyQueueing(Last(run)) {
      SealedStaysInMore(c, producers, run, more);
    }
  }

  lemma QueueWithinCapacity(c: Config, producers: nat, run: seq<State>, k: nat)
    requires Run(c, producers, run) && k < |run|
    ensures |run[k].queue| <= c.capacity
  {
    Reachable(c, producers, run, k);
  }

  lemma SealedStaysInMore(c: Config, producers: nat, run: seq<State>, more: seq<State>)
    requires |run| > 0 && Run(c, producers, more) && run <= more && Sealed(Last(run)) && !LeftBehind(Last(run))
    ensures !LeftBehind(Last(more))
  {
    assert more[|run| - 1] == Last(run);
    SealedLeavesNothing(c, producers, more, |run| - 1, |more| - 1);
  }

  lemma WorkerIsNotQueueing(c: Config, producers: nat, run: seq<State>, k: nat)
    requires Run(c, producers, run) && k < |run|
    ensures !Queueing(run[k].threads[0])
  {
    Reachable(c, producers, run, k);
    HoldersAreNotQueueing(c, run[k], 0);
  }

  lemma QueueingCanStrand(c: Config, producers: nat, run: seq<State>) returns (more: seq<State>)
    requires c.batch > 0 && c.capacity > 0 && Run(c, producers, run)
    requires !Last(run).running && !LeftBehind(Last(run)) && AnyQueueing(Last(run))
    ensures Continues(c, producers, run, more)
    ensures Last(more).threads[0] == Loop(Stopped) && LeftBehind(Last(more))
  {
    var s := Last(run);
    var i :| 0 <= i < |s.threads| && Queueing(s.threads[i]);
    WorkerIsNotQueueing(c, producers, run, |run| - 1);
    var stopped := WorkerCanStop(c, producers, run, i, s.threads[i]);
    more := QueuesBehind(c, producers, stopped, i, s.threads[i]);
  }

  /** In a state whose running flag is cleared or whose worker has left its loop, with nothing left behind
      yet: some continuation leaves a record behind a worker that takes no more, and some continuation does
      so with the worker stopped, exactly if some thread is about to queue a record and there is a queue. */
  lemma StrandingIsPossibleExactly(c: Config, producers: nat, run: seq<State>)
    requires c.batch > 0 && Run(c, producers, run) && !LeftBehind(Last(run))
    requires !Last(run).running || LeftLoop(Last(run).threads[0])
    ensures (exists more :: Continues(c, producers, run, more) && LeftBehind(Last(more)))
       <==> c.capacity > 0 && AnyQueueing(Last(run))
    ensures (exists more :: Continues(c, producers, run, more) && LeftBehind(Last(more))
                            && Last(more).threads[0] == Loop(Stopped))
       <==> c.capacity > 0 && AnyQueueing(Last(run))
  {
    LeftMeansClosed(c, producers, run, |run| - 1);
    forall more | Continues(c, producers, run, more) && LeftBehind(Last(more))
      ensures c.capacity > 0 && AnyQueueing(Last(run))
    {
      StrandingNeedsQueueing(c, producers, run, more);
    }
    if c.capacity > 0 && AnyQueueing(Last(run)) {
      var more := QueueingCanStrand(c, producers, run);
      assert Continues(c, producers, run, more) && LeftBehind(Last(more)) && Last(more).threads[0] == Loop(Stopped);
    }
  }
}
