/** What one step of one thread does to the shared state: the facts from which the
    invariants over all runs follow. */
module AsyncEffects {
  import opened AsyncModel
  import opened AsyncCounts

  // ----- Points of interest

  /** A Write whose record is neither in the queue, nor with the wrapped sink, nor given up. */
  predicate Untaken(pc: Pc) {
    match pc
    case Write(_, at) => !at.CountAccepted?
    case Deliver(_, source, at) => source.FromCaller? && at.HandOver?
    case Notify(next, _) => next.ToRejected?
    case _ => false
  }

  /** How many of thread j's records have found their place. */
  function Placed(s: State, j: nat): int
    requires j < |s.threads| && j < |s.calls|
  {
    if Untaken(s.threads[j]) then s.calls[j] as int - 1 else s.calls[j]
  }

  /** The record the worker has taken off the queue and not yet handed over. */
  function Hand(pc: Pc): seq<Item> {
    if pc.Deliver? && pc.source.FromQueue? && pc.deliverAt.HandOver? then [pc.carried] else []
  }

  /** The records that a flush in progress has to see through. */
  function Owed(pc: Pc): set<Item> {
    match pc
    case Flush(owed, _) => owed
    case ReportTake(after) => if after.ToFlushSink? then after.owed else {}
    case ReportEmit(_, after) => if after.ToFlushSink? then after.owed else {}
    case _ => {}
  }

  predicate InFlush(pc: Pc) {
    pc.Flush? || (pc.ReportTake? && pc.after.ToFlushSink?) || (pc.ReportEmit? && pc.after.ToFlushSink?)
  }

  /** A flush that has seen no work outstanding. */
  predicate PassedWait(pc: Pc) {
    match pc
    case Flush(_, at) => at.TestEmpty? || at.SinkFlush?
    case ReportTake(after) => after.ToFlushSink?
    case ReportEmit(_, after) => after.ToFlushSink?
    case _ => false
  }

  /** The record this thread has handed to the wrapped sink and not finished with. */
  function JustHanded(pc: Pc): set<Item> {
    match pc
    case Deliver(item, _, at) => if at.HandOver? then {} else {item}
    case Notify(next, _) => if next.ToReturn? then {next.item} else {}
    case _ => {}
  }

  /** The record this thread has put in the queue and not yet counted. */
  function JustAccepted(pc: Pc): set<Item> {
    if pc.Write? && pc.writeAt.CountAccepted? then {pc.item} else {}
  }

  /** A Write past its first test of the running flag that may still queue or deliver its record. */
  predicate Late(pc: Pc) {
    match pc
    case Write(_, at) => !at.TestRunning?
    case Deliver(_, source, _) => source.FromCaller?
    case Notify(next, _) => next.ToRejected? || next.ToReturn?
    case _ => false
  }

  /** The worker has left its loop. */
  predicate LeftLoop(pc: Pc) {
    match pc
    case Loop(at) => at.FinalFlush? || at.Stopped?
    case Notify(next, _) => next.ToStopped?
    case ReportTake(after) => after.ToFinalFlush?
    case ReportEmit(_, after) => after.ToFinalFlush?
    case _ => false
  }

  // ----- Effects

  ghost predicate LogGrowsBy(s: State, t: State, e: Event) {
    t.log == s.log + [e]
  }

  /** Records move from the acting Write into the queue, from the queue into the worker's
      hand, from a hand to the wrapped sink, and in no other way. */
  ghost predicate MovesRecords(s: State, i: nat, t: State)
    requires i < |s.threads| == |t.threads|
  {
    var p, q := s.threads[i], t.threads[i];
    if q.Write? && q.writeAt.CountAccepted? then
      && p == Write(q.item, Offer)
      && t.accepted == s.accepted + [q.item] && t.queue == s.queue + [q.item] && t.log == s.log
    else if q.Deliver? && q.source.FromQueue? && q.deliverAt.HandOver? then
      && p.Loop? && s.queue != [] && q.carried == s.queue[0] && t.queue == s.queue[1..]
      && t.accepted == s.accepted && t.log == s.log
    else if p.Deliver? && p.deliverAt.HandOver? then
      && q == Deliver(p.carried, p.source, CountDelivered)
      && LogGrowsBy(s, t, Wrote(p.carried, p.source.FromQueue?))
      && t.accepted == s.accepted && t.queue == s.queue
    else
      && t.accepted == s.accepted && t.queue == s.queue
      && (|| t.log == s.log
          || (p.ReportEmit? && LogGrowsBy(s, t, Reported(p.count)))
          || (PassedWait(p) && LogGrowsBy(s, t, Flushed(Owed(p))))
          || (p.Loop? && LogGrowsBy(s, t, Flushed({}))))
  }

  ghost predicate MovesFlushes(s: State, i: nat, t: State)
    requires i < |s.threads| == |t.threads|
  {
    var p, q := s.threads[i], t.threads[i];
    && s.returned <= t.returned <= s.returned + JustAccepted(p) + JustHanded(p)
    && (JustHanded(q) <= JustHanded(p) || (p.Deliver? && p.deliverAt.HandOver?))
    && (InFlush(q) ==> (InFlush(p) && Owed(q) == Owed(p)) || (p.Idle? && q == Flush(s.returned, Lock)))
    && (PassedWait(q) && !PassedWait(p) ==> s.outstanding == 0)
  }

  /** Whoever starts waiting saw work; whoever stops promising a wake-up has kept the promise
      or sees work; whoever finishes work promises a wake-up. */
  ghost predicate MovesWaiters(s: State, i: nat, t: State)
    requires i < |s.threads| == |t.threads|
  {
    var p, q := s.threads[i], t.threads[i];
    && t.sleepers <= s.sleepers + {i}
    && (q.Flush? && q.flushAt.Wait? ==> t.outstanding != 0 || t.queue != [])
    && (q.Flush? && q.flushAt.Asleep? ==> p == Flush(q.owed, Wait))
    && (t.outstanding < s.outstanding ==> Weight(Waker, q) > 0)
    && (Weight(Waker, q) < Weight(Waker, p) ==>
          t.outstanding != 0 || t.queue != [] || q.Deliver? || (t.sleepers == {} && t.flushLock.None?))
    && t.outstanding >= s.outstanding - 1
  }

  ghost predicate MovesShutdown(c: Config, s: State, i: nat, t: State)
    requires i < |s.threads| == |t.threads|
  {
    var p, q := s.threads[i], t.threads[i];
    && p != Loop(Stopped)
    && (t.running ==> s.running)
    && (q.Drop? ==> p.Drop? || !s.running || c.policy.DropNewest? || c.policy.BlockForTimeout?)
    && (t.dropped != s.dropped ==> p.Drop?)
    && (t.fallbackWrites != s.fallbackWrites ==> Late(p))
    && (Late(q) ==> Late(p) || s.running)
    && (LeftLoop(p) ==> LeftLoop(q) && t.exitMark == s.exitMark)
    && (LeftLoop(q) && !LeftLoop(p) ==> s.queue == [] && t.exitMark == |s.accepted| && Hand(p) == [])
    && (!p.Loop? ==> t.exitMark == s.exitMark)
  }

  ghost predicate Effect(c: Config, s: State, i: nat, t: State) {
    && i < |s.threads| == |t.threads| == |s.calls| == |t.calls|
    && Placed(s, i) <= Placed(t, i)
    && MovesRecords(s, i, t)
    && MovesFlushes(s, i, t)
    && MovesWaiters(s, i, t)
    && MovesShutdown(c, s, i, t)
  }

  lemma CallEffect(c: Config, s: State, i: nat, ch: Choice)
    requires i < |s.threads| == |s.calls| && s.threads[i].Idle?
    ensures Effect(c, s, i, NextCall(s, i, ch))
  {
  }

  lemma LookEffect(c: Config, s: State, i: nat, item: Item, at: WriteAt, ch: Choice)
    requires i < |s.threads| == |s.calls| && s.threads[i] == Write(item, at) && Looks(at)
    ensures Effect(c, s, i, NextWrite(c, s, i, item, at, ch))
  {
  }

  lemma WriteEffect(c: Config, s: State, i: nat, item: Item, at: WriteAt, ch: Choice)
    requires i < |s.threads| == |s.calls| && s.threads[i] == Write(item, at)
    ensures Effect(c, s, i, NextWrite(c, s, i, item, at, ch))
  {
    if Looks(at) { LookEffect(c, s, i, item, at, ch); }
  }

  lemma DropEffect(c: Config, s: State, i: nat, at: DropAt)
    requires i < |s.threads| == |s.calls| && s.threads[i] == Drop(at)
    ensures Effect(c, s, i, NextDrop(s, i, at))
  {
  }

  lemma DeliverEffect(c: Config, s: State, i: nat, item: Item, source: Source, at: DeliverAt)
    requires i < |s.threads| == |s.calls| && s.threads[i] == Deliver(item, source, at)
    ensures Effect(c, s, i, NextDeliver(s, i, item, source, at))
  {
  }

  /** Returning from NotifyFlushWaiters, after looking or after waking. */
  lemma ResumeEffect(c: Config, s: State, i: nat, next: AfterNotify, at: NotifyAt)
    requires i < |s.threads| == |s.calls| && s.threads[i] == Notify(next, at)
    ensures s.outstanding != 0 || s.queue != [] ==> Effect(c, s, i, Resume(c, s, i, next))
    ensures s.flushLock.None? ==> Effect(c, s, i, Resume(c, s, i, next).(sleepers := {}))
  {
  }

  lemma NotifyTestEffect(c: Config, s: State, i: nat, next: AfterNotify, at: NotifyAt)
    requires i < |s.threads| == |s.calls| && s.threads[i] == Notify(next, at)
    ensures Effect(c, s, i, s.At(i, Notify(next, TestQueue))) && Effect(c, s, i, s.At(i, Notify(next, Wake)))
  {
  }

  lemma NotifyEffect(c: Config, s: State, i: nat, next: AfterNotify, at: NotifyAt)
    requires i < |s.threads| == |s.calls| && s.threads[i] == Notify(next, at)
    requires at.Wake? ==> s.flushLock.None?
    ensures Effect(c, s, i, NextNotify(c, s, i, next, at))
  {
    ResumeEffect(c, s, i, next, at);
    NotifyTestEffect(c, s, i, next, at);
  }

  lemma FlushTestEffect(c: Config, s: State, i: nat, owed: set<Item>, at: FlushAt)
    requires i < |s.threads| == |s.calls| && s.threads[i] == Flush(owed, at)
    requires at.Lock? || at.TestOutstanding? || at.TestEmpty?
    ensures Effect(c, s, i, NextFlush(c, s, i, owed, at))
  {
  }

  lemma FlushEffect(c: Config, s: State, i: nat, owed: set<Item>, at: FlushAt)
    requires i < |s.threads| == |s.calls| && s.threads[i] == Flush(owed, at)
    ensures Effect(c, s, i, NextFlush(c, s, i, owed, at))
  {
    if at.Lock? || at.TestOutstanding? || at.TestEmpty? { FlushTestEffect(c, s, i, owed, at); }
  }

  lemma TakeEffect(c: Config, s: State, i: nat, drained: nat)
    requires i < |s.threads| == |s.calls| && s.threads[i] == Loop(Take(drained))
    ensures Effect(c, s, i, NextLoop(c, s, i, Take(drained)))
  {
  }

  lemma LoopEffect(c: Config, s: State, i: nat, at: LoopAt)
    requires i < |s.threads| == |s.calls| && s.threads[i] == Loop(at) && !at.Stopped?
    ensures Effect(c, s, i, NextLoop(c, s, i, at))
  {
    if at.Take? { TakeEffect(c, s, i, at.drained); }
  }

  lemma ReportEffect(c: Config, s: State, i: nat, count: nat, after: AfterReport)
    requires i < |s.threads| == |s.calls| && s.threads[i] == ReportEmit(count, after)
    ensures Effect(c, s, i, NextReport(s, i, count, after))
  {
  }

  lemma ControlEffect(c: Config, s: State, i: nat, ch: Choice)
    requires Enabled(s, i, ch)
    requires s.threads[i].ReportTake? || s.threads[i].StopBegin? || s.threads[i].StopJoin?
    ensures Effect(c, s, i, Next(c, s, i, ch))
  {
    match s.threads[i] { case ReportTake(_) => case StopBegin => case StopJoin => }
  }

  lemma StepEffect(c: Config, s: State, i: nat, ch: Choice)
    requires Enabled(s, i, ch)
    ensures Effect(c, s, i, Next(c, s, i, ch))
  {
    match s.threads[i] {
      case Idle => CallEffect(c, s, i, ch);
      case Write(item, at) => WriteEffect(c, s, i, item, at, ch);
      case Drop(at) => DropEffect(c, s, i, at);
      case Deliver(item, source, at) => DeliverEffect(c, s, i, item, source, at);
      case Notify(next, at) => NotifyEffect(c, s, i, next, at);
      case Flush(owed, at) => FlushEffect(c, s, i, owed, at);
      case Loop(at) => LoopEffect(c, s, i, at);
      case ReportEmit(count, after) => ReportEffect(c, s, i, count, after);
      case ReportTake(_) => ControlEffect(c, s, i, ch);
      case StopBegin => ControlEffect(c, s, i, ch);
      case StopJoin => ControlEffect(c, s, i, ch);
    }
  }

  /** That every state of a run has all its threads follows from its being made of steps. */
  lemma {:induction false} StepsKeepSize(c: Config, producers: nat, run: seq<State>, k: nat)
    requires k < |run| && run[0] == Init(producers) && forall m :: 0 < m < |run| ==> StepAt(c, run, m)
    ensures Sized(run[k], producers)
  {
    if k == 0 {
      InitIsSized(producers);
    } else {
      StepsKeepSize(c, producers, run, k - 1);
      StepAtKeepsSize(c, producers, run, k);
    }
  }

  lemma InitIsSized(producers: nat)
    ensures Sized(Init(producers), producers)
  {
  }

  lemma StepAtKeepsSize(c: Config, producers: nat, run: seq<State>, k: nat)
    requires 0 < k < |run| && StepAt(c, run, k) && Sized(run[k - 1], producers)
    ensures Sized(run[k], producers)
  {
    StepKeepsSize(c, producers, run[k - 1], run[k]);
  }

  lemma StepKeepsSize(c: Config, producers: nat, s: State, t: State)
    requires Sized(s, producers) && Step(c, s, t)
    ensures Sized(t, producers)
  {
    var i: nat, ch: Choice :| Enabled(s, i, ch) && t == Next(c, s, i, ch);
    StepEffect(c, s, i, ch);
  }
}
