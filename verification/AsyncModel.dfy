/** The asynchronous sink as a transition system.

    Every thread is a program counter; one step is one atomic access or one locked
    section of the source. Thread 0 is the worker, every other thread belongs to the
    application and may call Write, Flush and Shutdown at any time and in any order. */
module AsyncModel {
  import opened Basics

  datatype Policy = DropNewest | Block | BlockForTimeout | SyncFallback

  datatype Config = Config(capacity: nat, batch: nat, policy: Policy, emitReports: bool)
  {
    predicate Blocks() { policy.Block? || policy.BlockForTimeout? }
  }

  /** A record in flight, named by the thread that offered it and by that thread's call
      number. The payload never changes on the way, so the name stands for it. */
  datatype Item = Item(tid: nat, call: nat)

  /** What the wrapped sink sees. A flush on behalf of Flush carries the records whose
      Write had returned, undropped, when that Flush began. */
  datatype Event =
    | Wrote(item: Item, queued: bool)
    | Reported(count: nat)
    | Flushed(owed: set<Item>)

  /** Who runs the shared Deliver code: the worker in its batch, or a producer that falls back. */
  datatype Source = FromQueue(drained: nat) | FromCaller

  /** Where NotifyFlushWaiters returns to. */
  datatype AfterNotify = ToRejected(item: Item) | ToReturn(item: Item) | ToLoop(drained: nat) | ToStopped

  /** Where EmitDropReportIfNeededLocked returns to. */
  datatype AfterReport = ToBatchEnd(drained: nat) | ToFinalFlush | ToFlushSink(owed: set<Item>)

  datatype WriteAt =
    | TestRunning | LoopTest
    | Announce | Offer | CountAccepted | Withdraw
    | SpaceTestRunning | SpaceTestQueue
    | FallbackAnnounce | FallbackCount

  /** The points of Write that only look. */
  predicate Looks(at: WriteAt) {
    at.TestRunning? || at.LoopTest? || at.SpaceTestRunning? || at.SpaceTestQueue?
  }

  datatype DropAt = CountDropped(timed: bool) | CountUnreported(timed: bool) | CountTimed

  datatype DeliverAt = HandOver | CountDelivered | Settle

  datatype NotifyAt = TestCount | TestQueue | Wake

  datatype FlushAt = Lock | TestOutstanding | TestEmpty | Wait | Asleep | SinkFlush

  datatype LoopAt = Head | TestDrained | Take(drained: nat) | Nap | FinalFlush | Stopped

  datatype Pc =
    | Idle
    | Write(item: Item, writeAt: WriteAt)
    | Drop(dropAt: DropAt)
    | Deliver(carried: Item, source: Source, deliverAt: DeliverAt)
    | Notify(next: AfterNotify, notifyAt: NotifyAt)
    | ReportTake(after: AfterReport)
    | ReportEmit(count: nat, after: AfterReport)
    | Flush(owed: set<Item>, flushAt: FlushAt)
    | StopBegin
    | StopJoin
    | Loop(loopAt: LoopAt)

  datatype State = State(
    queue: seq<Item>,
    running: bool,
    outstanding: int,
    enqueued: nat,
    delivered: nat,
    dropped: nat,
    timeoutDropped: nat,
    fallbackWrites: nat,
    unreported: nat,
    flushLock: Option<nat>,
    deliveryLock: Option<nat>,
    sleepers: set<nat>,
    threads: seq<Pc>,
    // history: names new items and records the past, decides nothing
    calls: seq<nat>,
    started: nat,
    accepted: seq<Item>,
    log: seq<Event>,
    returned: set<Item>,
    exitMark: nat)
  {
    function At(i: nat, pc: Pc): State
      requires i < |threads|
    {
      this.(threads := threads[i := pc])
    }
  }

  /** What an idle thread calls, whether a timed wait has expired, and whether a sleeper
      wakes without having been notified. */
  datatype Choice = CallWrite | CallFlush | CallShutdown | Proceed | Expire | WakeUp

  function Init(producers: nat): State {
    State([], true, 0, 0, 0, 0, 0, 0, 0, None, None, {},
          [Loop(Head)] + seq(producers, i => Idle),
          seq(producers + 1, i => 0), 0, [], [], {}, 0)
  }

  predicate Enabled(s: State, i: nat, ch: Choice) {
    && i < |s.threads| && |s.calls| == |s.threads|
    && match s.threads[i]
       case Idle => i > 0 && (ch.CallWrite? || ch.CallFlush? || ch.CallShutdown?)
       case Deliver(_, _, at) => at.HandOver? ==> s.deliveryLock.None?
       case ReportTake(_) => s.deliveryLock.None?
       case Notify(_, at) => at.Wake? ==> s.flushLock.None?
       case Flush(_, at) =>
         && (at.Lock? ==> s.flushLock.None?)
         && (at.Asleep? ==> i !in s.sleepers || ch.WakeUp?)
         && (at.SinkFlush? ==> s.deliveryLock.None?)
       case StopJoin => s.threads[0] == Loop(Stopped)
       case Loop(at) => !at.Stopped? && (at.FinalFlush? ==> s.deliveryLock.None?)
       case _ => true
  }

  function Next(c: Config, s: State, i: nat, ch: Choice): State
    requires Enabled(s, i, ch)
  {
    match s.threads[i]
    case Idle => NextCall(s, i, ch)
    case Write(item, at) => NextWrite(c, s, i, item, at, ch)
    case Drop(at) => NextDrop(s, i, at)
    case Deliver(item, source, at) => NextDeliver(s, i, item, source, at)
    case Notify(next, at) => NextNotify(c, s, i, next, at)
    case ReportTake(after) =>
      s.At(i, ReportEmit(s.unreported, after)).(deliveryLock := Some(i), unreported := 0)
    case ReportEmit(count, after) => NextReport(s, i, count, after)
    case Flush(owed, at) => NextFlush(c, s, i, owed, at)
    case StopBegin => s.At(i, if s.running then StopJoin else Idle).(running := false)
    case StopJoin => s.At(i, Idle)
    case Loop(at) => NextLoop(c, s, i, at)
  }

  /** An application thread begins a call. */
  function NextCall(s: State, i: nat, ch: Choice): State
    requires i < |s.threads| && |s.calls| == |s.threads|
  {
    match ch
    case CallWrite =>
      s.At(i, Write(Item(i, s.calls[i]), TestRunning))
      .(calls := s.calls[i := s.calls[i] + 1], started := s.started + 1)
    case CallFlush => s.At(i, Flush(s.returned, Lock))
    case _ => s.At(i, StopBegin)
  }

  /** Write, TryEnqueueOwned and the four overflow policies. */
  function NextWrite(c: Config, s: State, i: nat, item: Item, at: WriteAt, ch: Choice): State
    requires i < |s.threads|
  {
    match at
    case TestRunning =>
      if !s.running then s.At(i, Drop(CountDropped(false)))
      else s.At(i, Write(item, if c.Blocks() then LoopTest else Announce))
    case LoopTest =>
      if s.running then s.At(i, Write(item, Announce))
      else s.At(i, Drop(CountDropped(c.policy.BlockForTimeout?)))
    case Announce => s.At(i, Write(item, Offer)).(outstanding := s.outstanding + 1)
    case Offer =>
      if |s.queue| >= c.capacity then s.At(i, Write(item, Withdraw))
      else s.At(i, Write(item, CountAccepted)).(queue := s.queue + [item], accepted := s.accepted + [item])
    case CountAccepted => s.At(i, Idle).(enqueued := s.enqueued + 1, returned := s.returned + {item})
    case Withdraw => s.At(i, Notify(ToRejected(item), TestCount)).(outstanding := s.outstanding - 1)
    case SpaceTestRunning => s.At(i, Write(item, if s.running then SpaceTestQueue else LoopTest))
    case SpaceTestQueue =>
      if |s.queue| < c.capacity then s.At(i, Write(item, LoopTest))
      else if c.policy.BlockForTimeout? && ch.Expire? then s.At(i, Drop(CountDropped(true)))
      else s.At(i, Write(item, SpaceTestRunning))
    case FallbackAnnounce => s.At(i, Write(item, FallbackCount)).(outstanding := s.outstanding + 1)
    case FallbackCount =>
      s.At(i, Deliver(item, FromCaller, HandOver)).(fallbackWrites := s.fallbackWrites + 1)
  }

  /** RecordDrop and RecordTimeoutDrop. */
  function NextDrop(s: State, i: nat, at: DropAt): State
    requires i < |s.threads|
  {
    match at
    case CountDropped(timed) => s.At(i, Drop(CountUnreported(timed))).(dropped := s.dropped + 1)
    case CountUnreported(timed) => s.At(i, if timed then Drop(CountTimed) else Idle).(unreported := s.unreported + 1)
    case CountTimed => s.At(i, Idle).(timeoutDropped := s.timeoutDropped + 1)
  }

  /** Deliver, and the decrement that its callers do next. */
  function NextDeliver(s: State, i: nat, item: Item, source: Source, at: DeliverAt): State
    requires i < |s.threads|
  {
    match at
    case HandOver =>
      s.At(i, Deliver(item, source, CountDelivered))
      .(deliveryLock := Some(i), log := s.log + [Wrote(item, source.FromQueue?)])
    case CountDelivered =>
      s.At(i, Deliver(item, source, Settle)).(deliveryLock := None, delivered := s.delivered + 1)
    case Settle =>
      s.At(i, if source.FromQueue? then Loop(Take(source.drained + 1)) else Notify(ToReturn(item), TestCount))
      .(outstanding := s.outstanding - 1)
  }

  /** NotifyFlushWaiters. */
  function NextNotify(c: Config, s: State, i: nat, next: AfterNotify, at: NotifyAt): State
    requires i < |s.threads|
  {
    match at
    case TestCount => if s.outstanding == 0 then s.At(i, Notify(next, TestQueue)) else Resume(c, s, i, next)
    case TestQueue => if s.queue == [] then s.At(i, Notify(next, Wake)) else Resume(c, s, i, next)
    case Wake => Resume(c, s, i, next).(sleepers := {})
  }

  /** Return from NotifyFlushWaiters. */
  function Resume(c: Config, s: State, i: nat, next: AfterNotify): State
    requires i < |s.threads|
  {
    match next
    case ToRejected(item) =>
      s.At(i, match c.policy
              case DropNewest => Drop(CountDropped(false))
              case SyncFallback => Write(item, FallbackAnnounce)
              case _ => Write(item, SpaceTestRunning))
    case ToReturn(item) => s.At(i, Idle).(returned := s.returned + {item})
    case ToLoop(drained) => s.At(i, Loop(if drained == 0 then Nap else Head))
    case ToStopped => s.At(i, Loop(Stopped))
  }

  /** The second half of EmitDropReportIfNeededLocked. */
  function NextReport(s: State, i: nat, count: nat, after: AfterReport): State
    requires i < |s.threads|
  {
    s.At(i, match after
            case ToBatchEnd(drained) => Notify(ToLoop(drained), TestCount)
            case ToFinalFlush => Loop(FinalFlush)
            case ToFlushSink(owed) => Flush(owed, SinkFlush))
    .(deliveryLock := None, log := if count == 0 then s.log else s.log + [Reported(count)])
  }

  /** Flush. */
  function NextFlush(c: Config, s: State, i: nat, owed: set<Item>, at: FlushAt): State
    requires i < |s.threads|
  {
    match at
    case Lock => s.At(i, Flush(owed, TestOutstanding)).(flushLock := Some(i))
    case TestOutstanding => s.At(i, Flush(owed, if s.outstanding == 0 then TestEmpty else Wait))
    case TestEmpty =>
      if s.queue != [] then s.At(i, Flush(owed, Wait))
      else s.At(i, if c.emitReports then ReportTake(ToFlushSink(owed)) else Flush(owed, SinkFlush)).(flushLock := None)
    case Wait => s.At(i, Flush(owed, Asleep)).(flushLock := None, sleepers := s.sleepers + {i})
    case Asleep => s.At(i, Flush(owed, Lock)).(sleepers := s.sleepers - {i})
    case SinkFlush => s.At(i, Idle).(log := s.log + [Flushed(owed)])
  }

  /** ConsumeLoop. */
  function NextLoop(c: Config, s: State, i: nat, at: LoopAt): State
    requires i < |s.threads|
  {
    match at
    case Head => s.At(i, Loop(if s.running then Take(0) else TestDrained))
    case TestDrained =>
      if s.queue != [] then s.At(i, Loop(Take(0)))
      else s.At(i, if c.emitReports then ReportTake(ToFinalFlush) else Loop(FinalFlush)).(exitMark := |s.accepted|)
    case Take(drained) =>
      if drained < c.batch && s.queue != []
      then s.At(i, Deliver(s.queue[0], FromQueue(drained), HandOver)).(queue := s.queue[1..])
      else s.At(i, if c.emitReports then ReportTake(ToBatchEnd(drained)) else Notify(ToLoop(drained), TestCount))
    case Nap => s.At(i, Loop(Head))
    case FinalFlush => s.At(i, Notify(ToStopped, TestCount)).(log := s.log + [Flushed({})])
    case Stopped => s
  }

  ghost predicate Step(c: Config, s: State, t: State) {
    exists i: nat, ch: Choice :: Enabled(s, i, ch) && t == Next(c, s, i, ch)
  }

  /** The worker and the application threads. */
  predicate Sized(s: State, producers: nat) {
    |s.threads| == |s.calls| == producers + 1
  }

  /** A finite run of the sink with a given number of application threads, which no step changes. */
  ghost predicate Run(c: Config, producers: nat, run: seq<State>) {
    && |run| > 0
    && run[0] == Init(producers)
    && (forall k :: 0 < k < |run| ==> StepAt(c, run, k))
    && (forall k :: 0 <= k < |run| ==> Sized(run[k], producers))
  }

  ghost predicate StepAt(c: Config, run: seq<State>, k: nat)
    requires 0 < k < |run|
  {
    Step(c, run[k - 1], run[k])
  }
}
