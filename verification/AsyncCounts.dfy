/** Counting over threads, and the counter laws of the asynchronous sink: what the atomic
    counters say in every reachable state, between any two atomic accesses. */
module AsyncCounts {
  import opened AsyncModel

  // ----- Meters: how much a program counter contributes to a conserved quantity

  datatype Meter = Pending | Unaccepted | Undelivered | Uncounted | Unreported | TimedDrop | Waker

  /** True at the points of Write before its record is counted as accepted, dropped or fallen back. */
  predicate NotYetCounted(pc: Pc) {
    match pc
    case Write(_, _) => true
    case Drop(at) => at.CountDropped?
    case Notify(next, _) => next.ToRejected?
    case _ => false
  }

  /** True after a thread has decremented the outstanding counter and until its call of
      NotifyFlushWaiters has either woken the flushers or seen work outstanding. */
  predicate CommittedToNotify(pc: Pc) {
    match pc
    case Notify(next, _) => next.ToRejected? || next.ToReturn? || (next.ToLoop? && next.drained > 0)
    case Loop(at) => at.Take? && at.drained > 0
    case ReportTake(after) => after.ToBatchEnd? && after.drained > 0
    case ReportEmit(_, after) => after.ToBatchEnd? && after.drained > 0
    case _ => false
  }

  function Weight(m: Meter, pc: Pc): nat {
    match m
    case Pending =>
      if pc.Deliver? || (pc.Write? && (pc.writeAt.Offer? || pc.writeAt.Withdraw? || pc.writeAt.FallbackCount?))
      then 1 else 0
    case Unaccepted => if pc.Write? && pc.writeAt.CountAccepted? then 1 else 0
    case Undelivered => if pc.Deliver? && !pc.deliverAt.Settle? then 1 else 0
    case Uncounted => if NotYetCounted(pc) then 1 else 0
    case Unreported =>
      if pc.ReportEmit? then pc.count else if pc.Drop? && pc.dropAt.CountUnreported? then 1 else 0
    case TimedDrop =>
      if pc.Drop? && (pc.dropAt.CountTimed? || (pc.dropAt.CountUnreported? && pc.dropAt.timed)) then 1 else 0
    case Waker => if CommittedToNotify(pc) then 1 else 0
  }

  function Sum(m: Meter, threads: seq<Pc>): nat {
    if threads == [] then 0 else Weight(m, threads[0]) + Sum(m, threads[1..])
  }

  lemma {:induction false} SumUpdate(m: Meter, threads: seq<Pc>, i: nat, pc: Pc)
    requires i < |threads|
    ensures Sum(m, threads[i := pc]) == Sum(m, threads) - Weight(m, threads[i]) + Weight(m, pc)
  {
    if i == 0 {
      assert threads[i := pc][1..] == threads[1..];
    } else {
      assert threads[i := pc][1..] == threads[1..][i - 1 := pc];
      SumUpdate(m, threads[1..], i - 1, pc);
    }
  }

  lemma {:induction false} SumAtLeast(m: Meter, threads: seq<Pc>, i: nat)
    requires i < |threads|
    ensures Sum(m, threads) >= Weight(m, threads[i])
  {
    if i > 0 { SumAtLeast(m, threads[1..], i - 1); }
  }

  lemma {:induction false} SumZero(m: Meter, threads: seq<Pc>)
    requires forall j :: 0 <= j < |threads| ==> Weight(m, threads[j]) == 0
    ensures Sum(m, threads) == 0
  {
    if threads != [] {
      forall j | 0 <= j < |threads[1..]| ensures Weight(m, threads[1..][j]) == 0 {
        assert threads[1..][j] == threads[j + 1];
      }
      SumZero(m, threads[1..]);
    }
  }

  /** A positive sum has a contributor. */
  lemma {:induction false} SumWitness(m: Meter, threads: seq<Pc>) returns (i: nat)
    requires Sum(m, threads) > 0
    ensures i < |threads| && Weight(m, threads[i]) > 0
  {
    if Weight(m, threads[0]) > 0 {
      i := 0;
    } else {
      i := SumWitness(m, threads[1..]);
      i := i + 1;
    }
  }

  // ----- The counter laws

  /** The drops that the wrapped sink has been told of. */
  function ReportedDrops(log: seq<Event>): nat {
    if log == [] then 0
    else ReportedDrops(log[..|log| - 1]) + (if log[|log| - 1].Reported? then log[|log| - 1].count else 0)
  }

  ghost predicate Counts(c: Config, s: State) {
    && |s.queue| <= c.capacity
    // every unit of outstanding work is in the queue or in some thread's hands
    && s.outstanding == |s.queue| + Sum(Pending, s.threads)
    // accepted records are queued, in hand or delivered
    && s.enqueued + Sum(Unaccepted, s.threads) == |s.accepted|
    && s.delivered + |s.queue| + Sum(Undelivered, s.threads) == |s.accepted| + s.fallbackWrites
    // every Write is counted once: as enqueued, as dropped or as a fallback
    && s.enqueued + s.dropped + s.fallbackWrites + Sum(Uncounted, s.threads) == s.started
    // every drop is reported at most once, and timed drops are drops
    && ReportedDrops(s.log) + Sum(Unreported, s.threads) + s.unreported == s.dropped
    && s.timeoutDropped + Sum(TimedDrop, s.threads) <= s.dropped
  }

  lemma {:induction false} InitCounts(c: Config, producers: nat)
    ensures Counts(c, Init(producers))
  {
    var s := Init(producers);
    forall m: Meter ensures Sum(m, s.threads) == 0 {
      SumZero(m, s.threads);
    }
  }

  lemma ReportedDropsAppend(log: seq<Event>, e: Event)
    ensures ReportedDrops(log + [e]) == ReportedDrops(log) + (if e.Reported? then e.count else 0)
  {
    assert (log + [e])[..|log|] == log;
  }

  /** What one step adds to the reported drops. */
  function LogGrowth(s: State, t: State): nat {
    if |t.log| > |s.log| && t.log[|s.log|].Reported? then t.log[|s.log|].count else 0
  }

  /** One step moves the counters and the acting thread's contributions in balance. */
  ghost predicate Balanced(c: Config, s: State, i: nat, t: State)
  {
    && i < |s.threads| == |t.threads| && t.threads == s.threads[i := t.threads[i]]
    && s.log <= t.log && |t.log| <= |s.log| + 1
    && (|s.queue| <= c.capacity ==> |t.queue| <= c.capacity)
    && var p, q := s.threads[i], t.threads[i];
    && t.outstanding - s.outstanding == |t.queue| - |s.queue| + Weight(Pending, q) - Weight(Pending, p)
    && t.enqueued - s.enqueued == |t.accepted| - |s.accepted| + Weight(Unaccepted, p) - Weight(Unaccepted, q)
    && t.delivered - s.delivered + |t.queue| - |s.queue| + Weight(Undelivered, q) - Weight(Undelivered, p)
       == |t.accepted| - |s.accepted| + t.fallbackWrites - s.fallbackWrites
    && t.enqueued - s.enqueued + t.dropped - s.dropped + t.fallbackWrites - s.fallbackWrites
       + Weight(Uncounted, q) - Weight(Uncounted, p) == t.started - s.started
    && LogGrowth(s, t) + Weight(Unreported, q) - Weight(Unreported, p) + t.unreported - s.unreported
       == t.dropped - s.dropped
    && t.timeoutDropped - s.timeoutDropped + Weight(TimedDrop, q) - Weight(TimedDrop, p) <= t.dropped - s.dropped
  }

  lemma {:induction false} BalanceKeepsCounts(c: Config, s: State, i: nat, t: State)
    requires Counts(c, s) && Balanced(c, s, i, t)
    ensures Counts(c, t)
  {
    forall m: Meter
      ensures Sum(m, t.threads) == Sum(m, s.threads) - Weight(m, s.threads[i]) + Weight(m, t.threads[i])
    {
      SumUpdate(m, s.threads, i, t.threads[i]);
    }
    if |t.log| == |s.log| {
      assert t.log == s.log;
    } else {
      ReportedDropsAppend(s.log, t.log[|s.log|]);
      assert t.log == s.log + [t.log[|s.log|]];
    }
  }

  lemma LookBalanced(c: Config, s: State, i: nat, item: Item, at: WriteAt, ch: Choice)
    requires i < |s.threads| && s.threads[i] == Write(item, at) && Looks(at)
    ensures Balanced(c, s, i, NextWrite(c, s, i, item, at, ch))
  {
  }

  lemma WriteBalanced(c: Config, s: State, i: nat, item: Item, at: WriteAt, ch: Choice)
    requires i < |s.threads| && s.threads[i] == Write(item, at)
    ensures Balanced(c, s, i, NextWrite(c, s, i, item, at, ch))
  {
    if Looks(at) { LookBalanced(c, s, i, item, at, ch); }
  }

  lemma DropBalanced(c: Config, s: State, i: nat, at: DropAt)
    requires i < |s.threads| && s.threads[i] == Drop(at)
    ensures Balanced(c, s, i, NextDrop(s, i, at))
  {
  }

  lemma DeliverBalanced(c: Config, s: State, i: nat, item: Item, source: Source, at: DeliverAt)
    requires i < |s.threads| && s.threads[i] == Deliver(item, source, at)
    ensures Balanced(c, s, i, NextDeliver(s, i, item, source, at))
  {
  }

  lemma ResumeBalanced(c: Config, s: State, i: nat, next: AfterNotify, at: NotifyAt)
    requires i < |s.threads| && s.threads[i] == Notify(next, at)
    ensures Balanced(c, s, i, Resume(c, s, i, next))
    ensures Balanced(c, s, i, Resume(c, s, i, next).(sleepers := {}))
  {
  }

  lemma NotifyBalanced(c: Config, s: State, i: nat, next: AfterNotify, at: NotifyAt)
    requires i < |s.threads| && s.threads[i] == Notify(next, at)
    ensures Balanced(c, s, i, NextNotify(c, s, i, next, at))
  {
    ResumeBalanced(c, s, i, next, at);
  }

  lemma FlushBalanced(c: Config, s: State, i: nat, owed: set<Item>, at: FlushAt)
    requires i < |s.threads| && s.threads[i] == Flush(owed, at)
    ensures Balanced(c, s, i, NextFlush(c, s, i, owed, at))
  {
  }

  lemma TakeBalanced(c: Config, s: State, i: nat, drained: nat)
    requires i < |s.threads| && s.threads[i] == Loop(Take(drained))
    ensures Balanced(c, s, i, NextLoop(c, s, i, Take(drained)))
  {
  }

  lemma LoopBalanced(c: Config, s: State, i: nat, at: LoopAt)
    requires i < |s.threads| && s.threads[i] == Loop(at)
    ensures Balanced(c, s, i, NextLoop(c, s, i, at))
  {
    if at.Take? { TakeBalanced(c, s, i, at.drained); }
  }

  lemma ReportBalanced(c: Config, s: State, i: nat, count: nat, after: AfterReport)
    requires i < |s.threads| && s.threads[i] == ReportEmit(count, after)
    ensures Balanced(c, s, i, NextReport(s, i, count, after))
  {
  }

  lemma CallBalanced(c: Config, s: State, i: nat, ch: Choice)
    requires i < |s.threads| == |s.calls| && s.threads[i].Idle?
    ensures Balanced(c, s, i, NextCall(s, i, ch))
  {
  }

  lemma ControlBalanced(c: Config, s: State, i: nat, ch: Choice)
    requires Enabled(s, i, ch) && (s.threads[i].ReportTake? || s.threads[i].StopBegin? || s.threads[i].StopJoin?)
    ensures Balanced(c, s, i, Next(c, s, i, ch))
  {
    match s.threads[i] { case ReportTake(_) => case StopBegin => case StopJoin => }
  }

  lemma StepBalanced(c: Config, s: State, i: nat, ch: Choice)
    requires Enabled(s, i, ch)
    ensures Balanced(c, s, i, Next(c, s, i, ch))
  {
    match s.threads[i] {
      case Idle => CallBalanced(c, s, i, ch);
      case Write(item, at) => WriteBalanced(c, s, i, item, at, ch);
      case Drop(at) => DropBalanced(c, s, i, at);
      case Deliver(item, source, at) => DeliverBalanced(c, s, i, item, source, at);
      case Notify(next, at) => NotifyBalanced(c, s, i, next, at);
      case Flush(owed, at) => FlushBalanced(c, s, i, owed, at);
      case Loop(at) => LoopBalanced(c, s, i, at);
      case ReportEmit(count, after) => ReportBalanced(c, s, i, count, after);
      case ReportTake(_) => ControlBalanced(c, s, i, ch);
      case StopBegin => ControlBalanced(c, s, i, ch);
      case StopJoin => ControlBalanced(c, s, i, ch);
    }
  }

  lemma StepCounts(c: Config, s: State, i: nat, ch: Choice)
    requires Counts(c, s) && Enabled(s, i, ch)
    ensures Counts(c, Next(c, s, i, ch))
  {
    StepBalanced(c, s, i, ch);
    BalanceKeepsCounts(c, s, i, Next(c, s, i, ch));
  }
}
