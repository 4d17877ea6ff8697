/** Calls that run by themselves come to their end: what can hold a Write or a Flush up, and nothing else can. */
module AsyncProgress {
  import opened Basics
  import opened AsyncModel
  import opened AsyncShape
  import opened AsyncInvariant
  import opened AsyncStranding

  /** Only thread i has moved. */
  ghost predicate Alone(c: Config, producers: nat, run: seq<State>, more: seq<State>, i: nat) {
    && Run(c, producers, run) && Continues(c, producers, run, more) && i <= producers
    && (forall m :: |run| <= m < |more| ==>
          |more[m].threads| == |Last(run).threads| && more[m].threads == Last(run).threads[i := more[m].threads[i]])
  }

  // ----- Write

  predicate Room(c: Config, s: State) { |s.queue| < c.capacity }

  /** A Write whose fate is still open. */
  predicate Undecided(pc: Pc) {
    (pc.Write? && !pc.writeAt.CountAccepted?) || (pc.Notify? && pc.next.ToRejected?)
  }

  predicate InWrite(pc: Pc) {
    match pc
    case Write(_, _) => true
    case Drop(_) => true
    case Deliver(_, source, _) => source.FromCaller?
    case Notify(next, _) => next.ToRejected? || next.ToReturn?
    case _ => false
  }

  /** The policy is to wait without a limit, the sink runs, and the queue is full. */
  predicate MustWait(c: Config, s: State) {
    c.policy.Block? && s.running && !Room(c, s)
  }

  function NotifyRank(at: NotifyAt): nat {
    match at
    case TestCount => 3
    case TestQueue => 2
    case Wake => 1
  }

  /** How many steps a Write has left. */
  function StepsLeft(pc: Pc, room: bool, running: bool): nat {
    match pc
    case Write(_, at) =>
      (match at
       case TestRunning => 16
       case LoopTest => if running && !room then 15 else 4
       case Announce => if room then 3 else 14
       case Offer => if room then 2 else 13
       case CountAccepted => 1
       case Withdraw => 12
       case SpaceTestRunning => 6
       case SpaceTestQueue => if running || room then 5 else 7
       case FallbackAnnounce => 8
       case FallbackCount => 7)
    case Drop(at) => if at.CountDropped? then 3 else if at.CountUnreported? then 2 else 1
    case Deliver(_, _, at) => if at.HandOver? then 6 else if at.CountDelivered? then 5 else 4
    case Notify(next, at) => NotifyRank(at) + if next.ToRejected? then 8 else 0
    case _ => 0
  }

  /** Nothing that another thread holds is in the way of thread i. */
  predicate Clear(s: State, i: nat) {
    s.flushLock.None? && (s.deliveryLock.None? || s.deliveryLock == Some(i))
  }

  /** The record is sure to be queued if no other thread moves. */
  predicate SureToQueue(c: Config, s: State, i: nat, x: Item) {
    && s.running && Room(c, s) && i < |s.threads| && s.threads[i].Write? && s.threads[i].item == x
    && var at := s.threads[i].writeAt;
    at.TestRunning? || at.LoopTest? || at.Announce? || at.Offer? || at.SpaceTestRunning? || at.SpaceTestQueue?
  }

  predicate QueuedNow(s: State, i: nat, x: Item, before: seq<Item>) {
    && s.accepted == before + [x] && i < |s.threads|
    && (s.threads[i] == Write(x, CountAccepted) || (s.threads[i].Idle? && x in s.returned))
  }

  ghost predicate WriteNearer(c: Config, s: State, i: nat, t: State) {
    && i < |s.threads| == |t.threads|
    && (InWrite(t.threads[i]) || t.threads[i].Idle?)
    && StepsLeft(t.threads[i], Room(c, t), t.running) < StepsLeft(s.threads[i], Room(c, s), s.running)
    && Clear(t, i) && t.running == s.running
    && (Undecided(t.threads[i]) ==> !MustWait(c, t))
  }

  lemma WriteStepNearer(c: Config, s: State, i: nat, x: Item, at: WriteAt)
    requires i < |s.threads| && s.threads[i] == Write(x, at) && Clear(s, i) && (!at.CountAccepted? ==> !MustWait(c, s))
    requires at.LoopTest? || at.SpaceTestRunning? || at.SpaceTestQueue? ==> c.Blocks()
    ensures WriteNearer(c, s, i, NextWrite(c, s, i, x, at, Expire))
  {
  }

  lemma DropStepNearer(c: Config, s: State, i: nat, at: DropAt)
    requires i < |s.threads| && s.threads[i] == Drop(at) && Clear(s, i)
    ensures WriteNearer(c, s, i, NextDrop(s, i, at))
  {
  }

  lemma DeliverStepNearer(c: Config, s: State, i: nat, x: Item, at: DeliverAt)
    requires i < |s.threads| && s.threads[i] == Deliver(x, FromCaller, at) && Clear(s, i)
    ensures WriteNearer(c, s, i, NextDeliver(s, i, x, FromCaller, at))
  {
  }

  lemma NotifyStepNearer(c: Config, s: State, i: nat, next: AfterNotify, at: NotifyAt)
    requires i < |s.threads| && s.threads[i] == Notify(next, at) && Clear(s, i)
    requires next.ToReturn? || (next.ToRejected? && !MustWait(c, s))
    ensures WriteNearer(c, s, i, NextNotify(c, s, i, next, at))
  {
  }

  lemma WriteIsEnabled(c: Config, s: State, i: nat)
    requires i < |s.threads| && Shape(c, s) && InWrite(s.threads[i]) && Clear(s, i)
    ensures i > 0 && Enabled(s, i, Expire)
  {
    assert ThreadOk(c, s, i);
  }

  lemma InWriteNearer(c: Config, s: State, i: nat)
    requires i < |s.threads| && Shape(c, s) && InWrite(s.threads[i]) && Clear(s, i) && Enabled(s, i, Expire)
    requires Undecided(s.threads[i]) ==> !MustWait(c, s)
    ensures WriteNearer(c, s, i, Next(c, s, i, Expire))
  {
    assert ThreadOk(c, s, i);
    match s.threads[i] {
      case Write(x, at) => WriteStepNearer(c, s, i, x, at);
      case Drop(at) => DropStepNearer(c, s, i, at);
      case Deliver(x, _, at) => DeliverStepNearer(c, s, i, x, at);
      case Notify(next, at) => NotifyStepNearer(c, s, i, next, at);
    }
  }

  lemma SureStep(c: Config, s: State, i: nat, x: Item)
    requires SureToQueue(c, s, i, x) && Enabled(s, i, Expire)
    ensures var t := Next(c, s, i, Expire);
      (SureToQueue(c, t, i, x) && t.accepted == s.accepted) || QueuedNow(t, i, x, s.accepted)
  {
  }

  lemma QueuedStep(c: Config, s: State, i: nat, x: Item, before: seq<Item>)
    requires QueuedNow(s, i, x, before) && !s.threads[i].Idle? && Enabled(s, i, Expire)
    ensures QueuedNow(Next(c, s, i, Expire), i, x, before)
  {
  }

  /** One more step of thread i. */
  lemma AloneGrows(c: Config, producers: nat, run: seq<State>, i: nat, ch: Choice) returns (more: seq<State>)
    requires Run(c, producers, run) && i <= producers && Enabled(Last(run), i, ch)
    ensures Alone(c, producers, run, more, i) && Last(more) == Next(c, Last(run), i, ch)
    ensures more == run + [Last(more)] && Inv(c, Last(run))
  {
    Reachable(c, producers, run, |run| - 1);
    EnabledSteps(c, producers, Last(run), i, ch);
    RunGrows(c, producers, run, Next(c, Last(run), i, ch));
    more := run + [Next(c, Last(run), i, ch)];
  }

  lemma AloneJoins(c: Config, producers: nat, run: seq<State>, next: seq<State>, more: seq<State>, i: nat)
    requires Alone(c, producers, run, next, i) && Alone(c, producers, next, more, i) && |next| == |run| + 1
    ensures Alone(c, producers, run, more, i)
  {
    assert Last(next) == next[|run|];
    assert more[|run|] == next[|run|];
  }

  /** A Write that runs by itself returns, unless it has to wait for room without a limit or another thread
      holds a mutex. If the sink runs and there is room, its record is queued. */
  lemma {:induction false} WriteReturnsAlone(c: Config, producers: nat, run: seq<State>, i: nat)
    returns (more: seq<State>)
    requires Run(c, producers, run) && i <= producers
    requires |Last(run).threads| == producers + 1 && InWrite(Last(run).threads[i]) && Clear(Last(run), i)
    requires Undecided(Last(run).threads[i]) ==> !MustWait(c, Last(run))
    ensures Alone(c, producers, run, more, i) && Last(more).threads == Last(run).threads[i := Idle]
    ensures forall x :: SureToQueue(c, Last(run), i, x) ==> QueuedNow(Last(more), i, x, Last(run).accepted)
    ensures forall x, before :: QueuedNow(Last(run), i, x, before) ==> QueuedNow(Last(more), i, x, before)
    decreases StepsLeft(Last(run).threads[i], Room(c, Last(run)), Last(run).running)
  {
    var s := Last(run);
    Reachable(c, producers, run, |run| - 1);
    WriteIsEnabled(c, s, i);
    InWriteNearer(c, s, i);
    var next := AloneGrows(c, producers, run, i, Expire);
    forall x | SureToQueue(c, s, i, x)
      ensures (SureToQueue(c, Last(next), i, x) && Last(next).accepted == s.accepted)
           || QueuedNow(Last(next), i, x, s.accepted)
    {
      SureStep(c, s, i, x);
    }
    forall x, before | QueuedNow(s, i, x, before) ensures QueuedNow(Last(next), i, x, before) {
      QueuedStep(c, s, i, x, before);
    }
    if Last(next).threads[i].Idle? {
      more := next;
    } else {
      var rest := WriteReturnsAlone(c, producers, next, i);
      AloneJoins(c, producers, run, next, rest, i);
      more := rest;
    }
  }

  // ----- Flush

  function ReportOf(count: nat): seq<Event> {
    if count == 0 then [] else [Reported(count)]
  }

  /** The log once the flush of thread i has returned, if nobody else moves: pending drops are reported first,
      if reports are wanted. */
  function LogAfterFlush(c: Config, s: State, i: nat): seq<Event>
    requires i < |s.threads|
  {
    match s.threads[i]
    case Flush(owed, SinkFlush) => s.log + [Flushed(owed)]
    case Flush(owed, _) => s.log + (if c.emitReports then ReportOf(s.unreported) else []) + [Flushed(owed)]
    case ReportTake(ToFlushSink(owed)) => s.log + ReportOf(s.unreported) + [Flushed(owed)]
    case ReportEmit(count, ToFlushSink(owed)) => s.log + ReportOf(count) + [Flushed(owed)]
    case _ => s.log
  }

  /** Nothing is left to do, no mutex is held by another thread, and the flush has not gone to sleep
      without having been woken. */
  predicate CanFlush(s: State, i: nat) {
    && i < |s.threads| && s.outstanding == 0 && s.queue == []
    && (s.flushLock.None? || s.flushLock == Some(i)) && (s.deliveryLock.None? || s.deliveryLock == Some(i))
    && match s.threads[i]
       case Flush(_, at) => !at.Wait? && (at.Asleep? ==> i !in s.sleepers)
       case ReportTake(after) => after.ToFlushSink?
       case ReportEmit(_, after) => after.ToFlushSink?
       case _ => false
  }

  function FlushStepsLeft(pc: Pc): nat {
    match pc
    case Flush(_, at) =>
      (match at
       case Asleep => 7
       case Lock => 6
       case TestOutstanding => 5
       case TestEmpty => 4
       case SinkFlush => 1
       case Wait => 8)
    case ReportTake(_) => 3
    case ReportEmit(_, _) => 2
    case _ => 0
  }

  ghost predicate FlushNearer(c: Config, s: State, i: nat, t: State) {
    && i < |s.threads| == |t.threads|
    && (CanFlush(t, i) || t.threads[i].Idle?)
    && FlushStepsLeft(t.threads[i]) < FlushStepsLeft(s.threads[i])
    && LogAfterFlush(c, t, i) == LogAfterFlush(c, s, i)
  }

  lemma FlushIsEnabled(c: Config, s: State, i: nat)
    requires Shape(c, s) && CanFlush(s, i)
    ensures Enabled(s, i, Proceed)
  {
    assert ThreadOk(c, s, i);
  }

  lemma FlushingNearer(c: Config, s: State, i: nat, owed: set<Item>, at: FlushAt)
    requires CanFlush(s, i) && s.threads[i] == Flush(owed, at)
    ensures FlushNearer(c, s, i, NextFlush(c, s, i, owed, at))
  {
    assert s.log + [] == s.log;
  }

  lemma ReportingNearer(c: Config, s: State, i: nat, count: nat, after: AfterReport)
    requires CanFlush(s, i) && s.threads[i] == ReportEmit(count, after)
    ensures FlushNearer(c, s, i, NextReport(s, i, count, after))
  {
    assert s.log + [] == s.log;
  }

  lemma FlushStepNearer(c: Config, s: State, i: nat)
    requires CanFlush(s, i) && Enabled(s, i, Proceed)
    ensures FlushNearer(c, s, i, Next(c, s, i, Proceed))
  {
    match s.threads[i] {
      case Flush(owed, at) => FlushingNearer(c, s, i, owed, at);
      case ReportTake(_) =>
      case ReportEmit(count, after) => ReportingNearer(c, s, i, count, after);
    }
  }

  /** A Flush that runs by itself when nothing is left to do returns: it reports the pending drops, if there
      are any and reports are wanted, and then flushes the wrapped sink. */
  lemma {:induction false} FlushReturnsAlone(c: Config, producers: nat, run: seq<State>, i: nat)
    returns (more: seq<State>)
    requires Run(c, producers, run) && i <= producers && CanFlush(Last(run), i)
    ensures Alone(c, producers, run, more, i) && Last(more).threads == Last(run).threads[i := Idle]
    ensures Last(more).log == LogAfterFlush(c, Last(run), i)
    decreases FlushStepsLeft(Last(run).threads[i])
  {
    Reachable(c, producers, run, |run| - 1);
    FlushIsEnabled(c, Last(run), i);
    FlushStepNearer(c, Last(run), i);
    var next := AloneGrows(c, producers, run, i, Proceed);
    if Last(next).threads[i].Idle? {
      more := next;
    } else {
      var rest := FlushReturnsAlone(c, producers, next, i);
      AloneJoins(c, producers, run, next, rest, i);
      more := rest;
    }
  }

  // ----- Whole calls

  lemma Trans(c: Config, producers: nat, run: seq<State>, next: seq<State>, more: seq<State>, i: nat)
    requires Alone(c, producers, run, next, i) && Alone(c, producers, next, more, i) && |next| == |run| + 1
    requires Last(run).threads[i].Idle? && Last(more).threads == Last(next).threads[i := Idle]
    ensures Alone(c, producers, run, more, i) && Last(more).threads == Last(run).threads
  {
    AloneJoins(c, producers, run, next, more, i);
    assert Last(next) == next[|run|];
  }

  /** While the sink runs and has room, any idle thread can write a record by itself: it is queued, and the call
      returns. */
  lemma {:induction false} WriteAlone(c: Config, producers: nat, run: seq<State>, i: nat) returns (more: seq<State>)
    requires Run(c, producers, run) && 0 < i <= producers && Last(run).threads[i].Idle?
    requires Last(run).running && Room(c, Last(run)) && Clear(Last(run), i)
    ensures Alone(c, producers, run, more, i) && Last(more).threads == Last(run).threads
    ensures var x := Item(i, Last(run).calls[i]);
      Last(more).accepted == Last(run).accepted + [x] && x in Last(more).returned
  {
    Reachable(c, producers, run, |run| - 1);
    var next := AloneGrows(c, producers, run, i, CallWrite);
    var x := Item(i, Last(run).calls[i]);
    assert SureToQueue(c, Last(next), i, x);
    more := WriteReturnsAlone(c, producers, next, i);
    Trans(c, producers, run, next, more, i);
  }

  /** When nothing is left to do, any idle thread can flush the sink by itself. */
  lemma {:induction false} FlushAlone(c: Config, producers: nat, run: seq<State>, i: nat) returns (more: seq<State>)
    requires Run(c, producers, run) && 0 < i <= producers && Last(run).threads[i].Idle?
    requires Last(run).outstanding == 0 && Last(run).queue == []
    requires Last(run).flushLock.None? && Last(run).deliveryLock.None?
    ensures Alone(c, producers, run, more, i) && Last(more).threads == Last(run).threads
    ensures Last(more).log == Last(run).log + (if c.emitReports then ReportOf(Last(run).unreported) else [])
                              + [Flushed(Last(run).returned)]
  {
    Reachable(c, producers, run, |run| - 1);
    var next := AloneGrows(c, producers, run, i, CallFlush);
    more := FlushReturnsAlone(c, producers, next, i);
    Trans(c, producers, run, next, more, i);
  }

  /** The first call of Shutdown returns by itself once the worker has stopped, every later one at once. */
  lemma {:induction false} ShutdownAlone(c: Config, producers: nat, run: seq<State>, i: nat)
    returns (more: seq<State>)
    requires Run(c, producers, run) && 0 < i <= producers
    requires (Last(run).threads[i].StopJoin? && Last(run).threads[0] == Loop(Stopped))
          || (Last(run).threads[i].StopBegin? && !Last(run).running)
    ensures Alone(c, producers, run, more, i) && Last(more).threads == Last(run).threads[i := Idle]
  {
    Reachable(c, producers, run, |run| - 1);
    more := AloneGrows(c, producers, run, i, Proceed);
  }

  // ----- The worker

  /** The worker is about to take the oldest record or to hand it over. */
  predicate Serving(c: Config, s: State, x: Item) {
    && |s.threads| > 0 && s.deliveryLock.None?
    && match s.threads[0]
       case Loop(Take(drained)) => drained < c.batch && s.queue != [] && s.queue[0] == x
       case Loop(at) => (at.Head? || at.TestDrained? || at.Nap?) && c.batch > 0 && s.queue != [] && s.queue[0] == x
       case Deliver(item, FromQueue(_), HandOver) => item == x
       case _ => false
  }

  function ServingRank(pc: Pc): nat {
    match pc
    case Loop(at) => if at.Nap? then 5 else if at.Head? then 4 else if at.TestDrained? then 3 else 2
    case Deliver(_, _, _) => 1
    case _ => 0
  }

  lemma ServingStep(c: Config, s: State, x: Item)
    requires Serving(c, s, x) && |s.calls| == |s.threads|
    ensures Enabled(s, 0, Proceed)
    ensures var t := Next(c, s, 0, Proceed);
      || (Serving(c, t, x) && t.log == s.log && ServingRank(t.threads[0]) < ServingRank(s.threads[0]))
      || t.log == s.log + [Wrote(x, true)]
  {
  }

  /** A worker that runs by itself hands over the oldest record of the queue next. */
  lemma {:induction false} WorkerServesAlone(c: Config, producers: nat, run: seq<State>, x: Item)
    returns (more: seq<State>)
    requires Run(c, producers, run) && Serving(c, Last(run), x)
    ensures Alone(c, producers, run, more, 0) && Last(more).log == Last(run).log + [Wrote(x, true)]
    decreases ServingRank(Last(run).threads[0])
  {
    Reachable(c, producers, run, |run| - 1);
    ServingStep(c, Last(run), x);
    var next := AloneGrows(c, producers, run, 0, Proceed);
    if Last(next).log == Last(run).log + [Wrote(x, true)] {
      more := next;
    } else {
      var rest := WorkerServesAlone(c, producers, next, x);
      AloneJoins(c, producers, run, next, rest, 0);
      more := rest;
    }
  }
}
