/** Shutdown: the worker drains the queue and stops, unless a Write slips in behind it. */
module AsyncShutdown {
  import opened Basics
  import opened AsyncModel
  import opened AsyncCounts
  import opened AsyncShape
  import opened AsyncEffects
  import opened AsyncInvariant

  /** The running flag is cleared and no Write is past its test of that flag. */
  ghost predicate Closing(s: State) {
    && !s.running && |s.threads| > 0
    && forall j :: 1 <= j < |s.threads| ==> !Late(s.threads[j])
  }

  /** Once closing, a sink accepts and falls back no more. */
  ghost predicate Frozen(s: State, t: State) {
    && Closing(t) && t.accepted == s.accepted && t.fallbackWrites == s.fallbackWrites
  }

  lemma StepFreezes(c: Config, producers: nat, run: seq<State>, k: nat)
    requires Run(c, producers, run) && k + 1 < |run| && Closing(run[k])
    ensures Frozen(run[k], run[k + 1])
    ensures |run[k + 1].queue| <= |run[k].queue|
  {
    var i := RunStep(c, producers, run, k);
    var s, t := run[k], run[k + 1];
    assert ThreadOk(c, s, i) && ThreadOk(c, t, i);
    forall j | 1 <= j < |t.threads| ensures !Late(t.threads[j]) {
      assert !Late(s.threads[j]);
    }
  }

  lemma {:induction false} RunFreezes(c: Config, producers: nat, run: seq<State>, j: nat, k: nat)
    requires Run(c, producers, run) && j <= k < |run| && Closing(run[j])
    ensures Frozen(run[j], run[k])
  {
    if j < k {
      RunFreezes(c, producers, run, j, k - 1);
      StepFreezes(c, producers, run, k - 1);
    }
  }

  // ----- Everything accepted is delivered

  /** A worker that leaves its loop marks what has been accepted so far, once. */
  lemma StepLeaves(c: Config, producers: nat, run: seq<State>, k: nat)
    requires Run(c, producers, run) && k + 1 < |run|
    ensures LeftLoop(run[k + 1].threads[0]) ==>
              run[k + 1].exitMark == if LeftLoop(run[k].threads[0]) then run[k].exitMark else |run[k].accepted|
  {
    var i := RunStep(c, producers, run, k);
    assert ThreadOk(c, run[k], i);
  }

  lemma {:induction false} LeavesBehindNothing(c: Config, producers: nat, run: seq<State>, j: nat, k: nat)
    requires Run(c, producers, run) && j <= k < |run| && Closing(run[j])
    requires !LeftLoop(run[j].threads[0])
    ensures LeftLoop(run[k].threads[0]) ==> run[k].exitMark == |run[j].accepted|
  {
    if j < k {
      LeavesBehindNothing(c, producers, run, j, k - 1);
      RunFreezes(c, producers, run, j, k - 1);
      StepLeaves(c, producers, run, k - 1);
    }
  }

  /** If no Write was past its test of the running flag while the worker still ran its loop, then
      a stopped worker has delivered every accepted record and left no work outstanding. */
  lemma ShutdownDrains(c: Config, producers: nat, run: seq<State>, j: nat, k: nat)
    requires Run(c, producers, run) && j <= k < |run| && Closing(run[j])
    requires !LeftLoop(run[j].threads[0])
    requires run[k].threads[0] == Loop(Stopped)
    ensures run[k].queue == [] && run[k].outstanding == 0
    ensures run[k].accepted == run[j].accepted == Written(run[k].log, true)
  {
    LeavesBehindNothing(c, producers, run, j, k);
    RunFreezes(c, producers, run, j, k);
    Reachable(c, producers, run, k);
    NothingPending(c, run[k]);
  }

  lemma NothingPending(c: Config, s: State)
    requires Inv(c, s) && Closing(s) && s.threads[0] == Loop(Stopped) && s.exitMark == |s.accepted|
    ensures s.queue == [] && s.outstanding == 0 && s.accepted == Written(s.log, true)
  {
    assert s.accepted[..s.exitMark] == s.accepted;
    forall j | 0 <= j < |s.threads| ensures Weight(Pending, s.threads[j]) == 0 {
      assert ThreadOk(c, s, j);
    }
    SumZero(Pending, s.threads);
  }

  /** After the worker has left its loop, exactly the records accepted behind its back are stranded:
      everything accepted is delivered if and only if nothing was accepted since. */
  lemma StrandedExactly(c: Config, producers: nat, run: seq<State>, k: nat)
    requires Run(c, producers, run) && k < |run| && LeftLoop(run[k].threads[0])
    ensures run[k].exitMark <= |run[k].accepted| && run[k].queue == run[k].accepted[run[k].exitMark..]
    ensures Written(run[k].log, true) == run[k].accepted <==> |run[k].accepted| == run[k].exitMark
  {
    Reachable(c, producers, run, k);
    var s := run[k];
    assert ThreadOk(c, s, 0) && Hand(s.threads[0]) == [];
    assert s.accepted == s.accepted[..s.exitMark] + s.queue;
  }

  /** Only the worker takes records off the queue. */
  lemma QueueStays(s: State, i: nat, t: State)
    requires i < |s.threads| == |t.threads| && MovesRecords(s, i, t) && !s.threads[i].Loop?
    ensures s.queue <= t.queue
  {
  }

  lemma OthersStrand(c: Config, s: State, i: nat, t: State)
    requires Moves(c, s, i, t) && MovesRecords(s, i, t) && MovesShutdown(c, s, i, t) && ThreadOk(c, s, i)
    requires s.threads[0] == Loop(Stopped)
    ensures t.threads[0] == Loop(Stopped) && s.queue <= t.queue
  {
    assert i != 0;
    QueueStays(s, i, t);
  }

  /** A stopped worker stays stopped, and takes nothing off the queue. */
  lemma StepStrands(c: Config, producers: nat, run: seq<State>, k: nat)
    requires Run(c, producers, run) && k + 1 < |run|
    requires run[k].threads[0] == Loop(Stopped)
    ensures run[k + 1].threads[0] == Loop(Stopped)
    ensures run[k].queue <= run[k + 1].queue
  {
    var i := RunStep(c, producers, run, k);
    assert ThreadOk(c, run[k], i);
    OthersStrand(c, run[k], i, run[k + 1]);
  }

  lemma QueuedIsOutstanding(c: Config, producers: nat, run: seq<State>, k: nat)
    requires Run(c, producers, run) && k < |run| && run[k].queue != []
    ensures run[k].outstanding > 0
  {
    Reachable(c, producers, run, k);
  }

  /** A stranded record stays, and with it the outstanding work, so no later Flush gets past its wait. */
  lemma {:induction false} StrandedForever(c: Config, producers: nat, run: seq<State>, j: nat, k: nat)
    requires Run(c, producers, run) && j <= k < |run|
    requires run[j].threads[0] == Loop(Stopped) && run[j].queue != []
    ensures run[k].threads[0] == Loop(Stopped)
    ensures run[j].queue <= run[k].queue && run[k].outstanding > 0
  {
    if j < k {
      StrandedForever(c, producers, run, j, k - 1);
      StepStrands(c, producers, run, k - 1);
    }
    QueuedIsOutstanding(c, producers, run, k);
  }

  /** Every Write that a closing sink still sees ends as one drop. */
  lemma LaterWritesAreDropped(c: Config, producers: nat, run: seq<State>, j: nat, k: nat)
    requires Run(c, producers, run) && j <= k < |run| && Closing(run[j])
    requires forall m, i :: (m == j || m == k) && 1 <= i < |run[m].threads| ==> !NotYetCounted(run[m].threads[i])
    ensures run[k].dropped - run[j].dropped == run[k].started - run[j].started
    ensures run[k].enqueued == run[j].enqueued && run[k].fallbackWrites == run[j].fallbackWrites
  {
    RunFreezes(c, producers, run, j, k);
    forall m | m == j || m == k
      ensures run[m].enqueued == |run[m].accepted|
      ensures run[m].enqueued + run[m].dropped + run[m].fallbackWrites == run[m].started
    {
      Reachable(c, producers, run, m);
      BooksClosed(c, run[m]);
    }
  }

  lemma BooksClosed(c: Config, s: State)
    requires Inv(c, s) && Closing(s) && forall i :: 1 <= i < |s.threads| ==> !NotYetCounted(s.threads[i])
    ensures s.enqueued == |s.accepted|
    ensures s.enqueued + s.dropped + s.fallbackWrites == s.started
  {
    forall i | 0 <= i < |s.threads|
      ensures Weight(Unaccepted, s.threads[i]) == 0 && Weight(Uncounted, s.threads[i]) == 0
    {
      assert ThreadOk(c, s, i);
      assert i > 0 ==> !NotYetCounted(s.threads[i]);
    }
    SumZero(Unaccepted, s.threads);
    SumZero(Uncounted, s.threads);
  }

  // ----- The worker stops

  /** An upper bound on the steps the worker has left once the sink is closing. */
  function Fuel(c: Config, s: State): nat
    requires |s.threads| > 0
  {
    20 * |s.queue| + Rank(c, s.queue != [], s.threads[0])
  }

  function Rank(c: Config, work: bool, pc: Pc): nat {
    match pc
    case Deliver(_, _, at) => if at.HandOver? then 19 else if at.CountDelivered? then 18 else 17
    case Loop(Take(drained)) => if work && drained < c.batch then 7 else 16
    case ReportTake(after) => if after.ToBatchEnd? then 15 else 6
    case ReportEmit(_, after) => if after.ToBatchEnd? then 14 else 5
    case Notify(next, at) =>
      (if next.ToLoop? then 11 else 1) + (if at.TestCount? then 2 else if at.TestQueue? then 1 else 0)
    case Loop(Nap) => 10
    case Loop(Head) => 9
    case Loop(TestDrained) => 8
    case Loop(FinalFlush) => 4
    case _ => 0
  }

  /** Every step of the worker burns fuel, whatever the other threads have done in between. */
  lemma WorkerBurnsFuel(c: Config, s: State, ch: Choice)
    requires c.batch > 0 && Enabled(s, 0, ch) && !s.running && WorkerPc(s.threads[0])
    ensures |Next(c, s, 0, ch).threads| > 0 && Fuel(c, Next(c, s, 0, ch)) < Fuel(c, s)
  {
    match s.threads[0] {
      case Loop(at) => LoopBurnsFuel(c, s, at);
      case Deliver(item, source, at) => DeliverBurnsFuel(c, s, item, source, at);
      case Notify(next, at) => NotifyBurnsFuel(c, s, next, at);
      case ReportTake(after) =>
      case ReportEmit(count, after) =>
    }
  }

  lemma LoopBurnsFuel(c: Config, s: State, at: LoopAt)
    requires c.batch > 0 && |s.threads| > 0 && !s.running && s.threads[0] == Loop(at) && !at.Stopped?
    ensures Fuel(c, NextLoop(c, s, 0, at)) < Fuel(c, s)
  {
    match at { case Head => case TestDrained => case Take(_) => case Nap => case FinalFlush => }
  }

  lemma DeliverBurnsFuel(c: Config, s: State, item: Item, source: Source, at: DeliverAt)
    requires |s.threads| > 0 && s.threads[0] == Deliver(item, source, at) && source.FromQueue?
    ensures Fuel(c, NextDeliver(s, 0, item, source, at)) < Fuel(c, s)
  {
    match at { case HandOver => case CountDelivered => case Settle => }
  }

  lemma NotifyBurnsFuel(c: Config, s: State, next: AfterNotify, at: NotifyAt)
    requires |s.threads| > 0 && s.threads[0] == Notify(next, at) && (next.ToLoop? || next.ToStopped?)
    ensures Fuel(c, NextNotify(c, s, 0, next, at)) < Fuel(c, s)
  {
    match at { case TestCount => case TestQueue => case Wake => }
  }

  /** How often the worker moves between two states of a run. */
  function WorkerMoves(run: seq<State>, j: nat, k: nat): nat
    requires j <= k < |run| && forall m :: j <= m <= k ==> |run[m].threads| > 0
    decreases k - j
  {
    if j == k then 0
    else WorkerMoves(run, j, k - 1) + (if run[k].threads[0] == run[k - 1].threads[0] then 0 else 1)
  }

  lemma StepBurnsFuel(c: Config, producers: nat, run: seq<State>, k: nat)
    requires c.batch > 0 && Run(c, producers, run) && k + 1 < |run| && Closing(run[k])
    ensures Fuel(c, run[k + 1]) + (if run[k + 1].threads[0] == run[k].threads[0] then 0 else 1) <= Fuel(c, run[k])
  {
    Reachable(c, producers, run, k);
    assert StepAt(c, run, k + 1);
    var i: nat, ch: Choice :| Enabled(run[k], i, ch) && run[k + 1] == Next(c, run[k], i, ch);
    if i == 0 {
      assert ThreadOk(c, run[k], 0);
      WorkerBurnsFuel(c, run[k], ch);
    } else {
      OthersKeepFuel(c, producers, run, k, i, ch);
    }
  }

  lemma OthersKeepFuel(c: Config, producers: nat, run: seq<State>, k: nat, i: nat, ch: Choice)
    requires Run(c, producers, run) && k + 1 < |run| && Closing(run[k]) && 0 < i
    requires Enabled(run[k], i, ch) && run[k + 1] == Next(c, run[k], i, ch)
    ensures run[k + 1].threads[0] == run[k].threads[0]
    ensures run[k + 1].queue == run[k].queue
  {
    Reachable(c, producers, run, k);
    StepInv(c, run[k], i, ch);
    OthersKeepQueue(c, run[k], i, run[k + 1]);
  }

  lemma OthersKeepQueue(c: Config, s: State, i: nat, t: State)
    requires Closing(s) && Moves(c, s, i, t) && Effect(c, s, i, t) && i > 0
    ensures |t.threads| > 0 && t.threads[0] == s.threads[0] && t.queue == s.queue
  {
    assert !Late(s.threads[i]);
  }

  /** A closing sink's worker takes only so many more steps. */
  lemma {:induction false} WorkerTerminates(c: Config, producers: nat, run: seq<State>, j: nat, k: nat)
    requires c.batch > 0 && Run(c, producers, run) && j <= k < |run| && Closing(run[j])
    ensures WorkerMoves(run, j, k) + Fuel(c, run[k]) <= Fuel(c, run[j])
    decreases k - j
  {
    if j < k {
      WorkerTerminates(c, producers, run, j, k - 1);
      RunFreezes(c, producers, run, j, k - 1);
      StepBurnsFuel(c, producers, run, k - 1);
    }
  }

  lemma WorkerOrHolderMoves(c: Config, s: State) returns (i: nat)
    requires Inv(c, s) && s.threads[0] != Loop(Stopped)
    ensures Enabled(s, i, Proceed) && (i == 0 || s.flushLock == Some(i) || s.deliveryLock == Some(i))
  {
    assert ThreadOk(c, s, 0);
    if Enabled(s, 0, Proceed) {
      i := 0;
    } else if s.deliveryLock.Some? && Enabled(s.(deliveryLock := None), 0, Proceed) {
      i := s.deliveryLock.value;
      assert ThreadOk(c, s, i);
    } else {
      i := s.flushLock.value;
      assert ThreadOk(c, s, i);
    }
  }

  /** The worker is never stuck: until it has stopped, either it can move or the holder of the
      lock it is waiting for can. */
  lemma WorkerIsNeverStuck(c: Config, producers: nat, run: seq<State>, k: nat)
    requires Run(c, producers, run) && k < |run|
    requires run[k].threads[0] != Loop(Stopped)
    ensures exists i: nat :: Enabled(run[k], i, Proceed)
                          && (i == 0 || run[k].flushLock == Some(i) || run[k].deliveryLock == Some(i))
  {
    Reachable(c, producers, run, k);
    var i := WorkerOrHolderMoves(c, run[k]);
  }
}
