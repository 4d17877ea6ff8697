/** Drops: which are counted as timed, and which the wrapped sink has been told of. */
module AsyncReports {
  import opened AsyncModel
  import opened AsyncCounts
  import opened AsyncShape
  import opened AsyncInvariant
  import opened AsyncTheorems

  // ----- How many threads

  function One(b: bool): nat { if b then 1 else 0 }

  function Tally(p: Pc -> bool, threads: seq<Pc>): nat {
    if threads == [] then 0 else One(p(threads[0])) + Tally(p, threads[1..])
  }

  lemma {:induction false} TallyUpdate(p: Pc -> bool, threads: seq<Pc>, i: nat, pc: Pc)
    requires i < |threads|
    ensures Tally(p, threads[i := pc]) == Tally(p, threads) - One(p(threads[i])) + One(p(pc))
  {
    if i == 0 {
      assert threads[i := pc][1..] == threads[1..];
    } else {
      assert threads[i := pc][1..] == threads[1..][i - 1 := pc];
      TallyUpdate(p, threads[1..], i - 1, pc);
    }
  }

  lemma {:induction false} TallyNone(p: Pc -> bool, threads: seq<Pc>)
    requires forall j :: 0 <= j < |threads| ==> !p(threads[j])
    ensures Tally(p, threads) == 0
  {
    if threads != [] {
      forall j | 0 <= j < |threads[1..]| ensures !p(threads[1..][j]) {
        assert threads[1..][j] == threads[j + 1];
      }
      TallyNone(p, threads[1..]);
    }
  }

  /** The points whose steps need no further cases. */
  predicate Brief(pc: Pc) { !pc.Write? && !pc.Drop? && !pc.Notify? && !pc.Loop? && !pc.Flush? && !pc.Deliver? }

  // ----- Timed drops

  /** A drop under way that will be counted as timed. */
  predicate WillBeTimed(pc: Pc) { pc.Drop? && (pc.dropAt.CountTimed? || pc.dropAt.timed) }

  /** A drop under way that has not been counted at all. */
  predicate NotYetDropped(pc: Pc) { pc.Drop? && pc.dropAt.CountDropped? }

  /** A Write is refused in this step, by its first test of the running flag. */
  ghost predicate Refuses(s: State, t: State) {
    exists i :: 0 <= i < |s.threads| && RefusesAt(s, t, i)
  }

  ghost predicate RefusesAt(s: State, t: State, i: nat) {
    && i < |s.threads| == |t.threads| && !s.running && t.threads[i] != s.threads[i]
    && s.threads[i].Write? && s.threads[i].writeAt.TestRunning?
  }

  ghost function Refusals(run: seq<State>, k: nat): nat
    requires k < |run|
  {
    if k == 0 then 0 else Refusals(run, k - 1) + One(Refuses(run[k - 1], run[k]))
  }

  /** How many timed drops there have to be. */
  ghost predicate TimedBalance(c: Config, s: State, refusals: nat) {
    if c.policy.BlockForTimeout?
    then s.timeoutDropped + Tally(WillBeTimed, s.threads) + refusals == s.dropped + Tally(NotYetDropped, s.threads)
    else s.timeoutDropped == 0
  }

  /** One step keeps the balance. */
  ghost predicate KeepsTime(c: Config, s: State, i: nat, t: State) {
    && i < |s.threads| == |t.threads|
    && var p, q := s.threads[i], t.threads[i];
    if c.policy.BlockForTimeout?
    then t.timeoutDropped + One(WillBeTimed(q)) + One(RefusesAt(s, t, i)) + s.dropped + One(NotYetDropped(p))
      == s.timeoutDropped + One(WillBeTimed(p)) + t.dropped + One(NotYetDropped(q))
    else t.timeoutDropped == s.timeoutDropped
  }

  lemma WriteKeepsTime(c: Config, s: State, i: nat, item: Item, at: WriteAt, ch: Choice)
    requires i < |s.threads| && s.threads[i] == Write(item, at)
    ensures KeepsTime(c, s, i, NextWrite(c, s, i, item, at, ch))
  {
  }

  lemma DropKeepsTime(c: Config, s: State, i: nat, at: DropAt)
    requires i < |s.threads| && s.threads[i] == Drop(at)
    requires at.CountTimed? || at.timed ==> c.policy.BlockForTimeout?
    ensures KeepsTime(c, s, i, NextDrop(s, i, at))
  {
  }

  lemma NotifyKeepsTime(c: Config, s: State, i: nat, next: AfterNotify, at: NotifyAt)
    requires i < |s.threads| && s.threads[i] == Notify(next, at)
    ensures KeepsTime(c, s, i, NextNotify(c, s, i, next, at))
  {
  }

  lemma LoopKeepsTime(c: Config, s: State, i: nat, at: LoopAt)
    requires i < |s.threads| && s.threads[i] == Loop(at)
    ensures KeepsTime(c, s, i, NextLoop(c, s, i, at))
  {
  }

  lemma FlushKeepsTime(c: Config, s: State, i: nat, owed: set<Item>, at: FlushAt)
    requires i < |s.threads| && s.threads[i] == Flush(owed, at)
    ensures KeepsTime(c, s, i, NextFlush(c, s, i, owed, at))
  {
  }

  lemma DeliverKeepsTime(c: Config, s: State, i: nat, item: Item, source: Source, at: DeliverAt)
    requires i < |s.threads| && s.threads[i] == Deliver(item, source, at)
    ensures KeepsTime(c, s, i, NextDeliver(s, i, item, source, at))
  {
  }

  lemma OtherKeepsTime(c: Config, s: State, i: nat, ch: Choice)
    requires Enabled(s, i, ch)
    requires Brief(s.threads[i])
    ensures KeepsTime(c, s, i, Next(c, s, i, ch))
  {
  }

  lemma StepKeepsTime(c: Config, s: State, i: nat, ch: Choice)
    requires Enabled(s, i, ch) && Shape(c, s)
    ensures KeepsTime(c, s, i, Next(c, s, i, ch))
  {
    assert ThreadOk(c, s, i);
    match s.threads[i] {
      case Write(item, at) => WriteKeepsTime(c, s, i, item, at, ch);
      case Drop(at) => DropKeepsTime(c, s, i, at);
      case Notify(next, at) => NotifyKeepsTime(c, s, i, next, at);
      case Loop(at) => LoopKeepsTime(c, s, i, at);
      case Flush(owed, at) => FlushKeepsTime(c, s, i, owed, at);
      case Deliver(item, source, at) => DeliverKeepsTime(c, s, i, item, source, at);
      case _ => OtherKeepsTime(c, s, i, ch);
    }
  }

  lemma BalanceKept(c: Config, s: State, i: nat, t: State, refusals: nat)
    requires TimedBalance(c, s, refusals) && KeepsTime(c, s, i, t) && t.threads == s.threads[i := t.threads[i]]
    ensures TimedBalance(c, t, refusals + One(Refuses(s, t)))
  {
    TallyUpdate(WillBeTimed, s.threads, i, t.threads[i]);
    TallyUpdate(NotYetDropped, s.threads, i, t.threads[i]);
    assert Refuses(s, t) <==> RefusesAt(s, t, i);
  }

  lemma StepInBalance(c: Config, s: State, i: nat, ch: Choice, refusals: nat)
    requires Inv(c, s) && Enabled(s, i, ch) && TimedBalance(c, s, refusals)
    ensures TimedBalance(c, Next(c, s, i, ch), refusals + One(Refuses(s, Next(c, s, i, ch))))
  {
    StepInv(c, s, i, ch);
    StepKeepsTime(c, s, i, ch);
    BalanceKept(c, s, i, Next(c, s, i, ch), refusals);
  }

  lemma {:induction false} StepAtInBalance(c: Config, producers: nat, run: seq<State>, k: nat, refusals: nat)
    requires Run(c, producers, run) && k + 1 < |run| && TimedBalance(c, run[k], refusals)
    ensures TimedBalance(c, run[k + 1], refusals + One(Refuses(run[k], run[k + 1])))
  {
    Reachable(c, producers, run, k);
    assert StepAt(c, run, k + 1);
    var i: nat, ch: Choice :| Enabled(run[k], i, ch) && run[k + 1] == Next(c, run[k], i, ch);
    StepInBalance(c, run[k], i, ch, refusals);
  }

  /** Under BlockForTimeout every drop is counted as timed, except the drops of Writes that were refused at
      once because the sink was shut down; under the other policies none is. */
  lemma {:induction false} TimedDropsExactly(c: Config, producers: nat, run: seq<State>, k: nat)
    requires Run(c, producers, run) && k < |run|
    ensures TimedBalance(c, run[k], Refusals(run, k))
  {
    if k == 0 {
      TallyNone(WillBeTimed, run[0].threads);
      TallyNone(NotYetDropped, run[0].threads);
    } else {
      TimedDropsExactly(c, producers, run, k - 1);
      StepAtInBalance(c, producers, run, k - 1, Refusals(run, k - 1));
    }
  }

  /** At rest. */
  lemma {:induction false} TimedDropsAtRest(c: Config, producers: nat, run: seq<State>, k: nat)
    requires Run(c, producers, run) && k < |run| && Quiescent(run[k])
    ensures run[k].timeoutDropped == if c.policy.BlockForTimeout? then run[k].dropped - Refusals(run, k) else 0
  {
    TimedDropsExactly(c, producers, run, k);
    var s := run[k];
    forall j | 0 <= j < |s.threads| ensures !s.threads[j].Drop? {
      if j > 0 { assert s.threads[j].Idle?; }
    }
    TallyNone(WillBeTimed, s.threads);
    TallyNone(NotYetDropped, s.threads);
  }

  // ----- Reports of drops

  function Carried(pc: Pc): nat { if pc.ReportEmit? then pc.count else 0 }

  function CarriedBy(threads: seq<Pc>): nat {
    if threads == [] then 0 else Carried(threads[0]) + CarriedBy(threads[1..])
  }

  /** The drops that have been recorded for a report: reported, in a report under way, or pending. */
  function Recorded(s: State): nat {
    ReportedDrops(s.log) + CarriedBy(s.threads) + s.unreported
  }

  lemma {:induction false} CarriedUpdate(threads: seq<Pc>, i: nat, pc: Pc)
    requires i < |threads|
    ensures CarriedBy(threads[i := pc]) == CarriedBy(threads) - Carried(threads[i]) + Carried(pc)
  {
    if i == 0 {
      assert threads[i := pc][1..] == threads[1..];
    } else {
      assert threads[i := pc][1..] == threads[1..][i - 1 := pc];
      CarriedUpdate(threads[1..], i - 1, pc);
    }
  }

  lemma {:induction false} CarriedByNone(threads: seq<Pc>)
    requires forall j :: 0 <= j < |threads| ==> !threads[j].ReportEmit?
    ensures CarriedBy(threads) == 0
  {
    if threads != [] {
      forall j | 0 <= j < |threads[1..]| ensures !threads[1..][j].ReportEmit? {
        assert threads[1..][j] == threads[j + 1];
      }
      CarriedByNone(threads[1..]);
    }
  }

  /** What has been recorded stays recorded, and a report under way is finished by its own thread. */
  ghost predicate KeepsRecord(s: State, i: nat, t: State) {
    && i < |s.threads| == |t.threads| && s.log <= t.log && |t.log| <= |s.log| + 1
    && var p, q := s.threads[i], t.threads[i];
    LogGrowth(s, t) + Carried(q) + t.unreported >= Carried(p) + s.unreported
  }

  lemma DropKeepsRecord(s: State, i: nat, at: DropAt)
    requires i < |s.threads| && s.threads[i] == Drop(at)
    ensures KeepsRecord(s, i, NextDrop(s, i, at))
  {
  }

  lemma WriteKeepsRecord(c: Config, s: State, i: nat, item: Item, at: WriteAt, ch: Choice)
    requires i < |s.threads| && s.threads[i] == Write(item, at)
    ensures KeepsRecord(s, i, NextWrite(c, s, i, item, at, ch))
  {
  }

  lemma NotifyKeepsRecord(c: Config, s: State, i: nat, next: AfterNotify, at: NotifyAt)
    requires i < |s.threads| && s.threads[i] == Notify(next, at)
    ensures KeepsRecord(s, i, NextNotify(c, s, i, next, at))
  {
  }

  lemma LoopKeepsRecord(c: Config, s: State, i: nat, at: LoopAt)
    requires i < |s.threads| && s.threads[i] == Loop(at)
    ensures KeepsRecord(s, i, NextLoop(c, s, i, at))
  {
  }

  lemma FlushKeepsRecord(c: Config, s: State, i: nat, owed: set<Item>, at: FlushAt)
    requires i < |s.threads| && s.threads[i] == Flush(owed, at)
    ensures KeepsRecord(s, i, NextFlush(c, s, i, owed, at))
  {
  }

  lemma DeliverKeepsRecord(s: State, i: nat, item: Item, source: Source, at: DeliverAt)
    requires i < |s.threads| && s.threads[i] == Deliver(item, source, at)
    ensures KeepsRecord(s, i, NextDeliver(s, i, item, source, at))
  {
  }

  lemma OtherKeepsRecord(c: Config, s: State, i: nat, ch: Choice)
    requires Enabled(s, i, ch) && Brief(s.threads[i])
    ensures KeepsRecord(s, i, Next(c, s, i, ch))
  {
  }

  lemma NextKeepsRecord(c: Config, s: State, i: nat, ch: Choice)
    requires Enabled(s, i, ch)
    ensures KeepsRecord(s, i, Next(c, s, i, ch))
  {
    match s.threads[i] {
      case Write(item, at) => WriteKeepsRecord(c, s, i, item, at, ch);
      case Drop(at) => DropKeepsRecord(s, i, at);
      case Notify(next, at) => NotifyKeepsRecord(c, s, i, next, at);
      case Loop(at) => LoopKeepsRecord(c, s, i, at);
      case Flush(owed, at) => FlushKeepsRecord(c, s, i, owed, at);
      case Deliver(item, source, at) => DeliverKeepsRecord(s, i, item, source, at);
      case _ => OtherKeepsRecord(c, s, i, ch);
    }
  }

  /** Past the report, if reports are wanted: about to flush the wrapped sink, or done with it for good. */
  predicate PastReport(pc: Pc) {
    match pc
    case Flush(_, at) => at.SinkFlush?
    case Loop(at) => at.FinalFlush? || at.Stopped?
    case Notify(next, _) => next.ToStopped?
    case _ => false
  }

  predicate Reporting(pc: Pc) { pc.ReportTake? || pc.ReportEmit? }

  /** The report of a Flush, or of a worker that has left its loop. */
  predicate LastReport(pc: Pc) { pc.ReportEmit? && !pc.after.ToBatchEnd? }

  /** If reports are wanted, thread f comes past the report only by way of the report; otherwise it never
      begins one. */
  predicate NoShortcut(c: Config, s: State, f: nat, t: State) {
    && f < |s.threads| == |t.threads|
    && (PastReport(t.threads[f]) ==> PastReport(s.threads[f]) || LastReport(s.threads[f]) || !c.emitReports)
    && (t.threads[f].ReportEmit? ==> s.threads[f].ReportTake?)
    && (t.threads[f].ReportTake? ==> c.emitReports)
  }

  lemma WriteNoShortcut(c: Config, s: State, i: nat, item: Item, at: WriteAt, ch: Choice)
    requires i < |s.threads| && s.threads[i] == Write(item, at)
    ensures NoShortcut(c, s, i, NextWrite(c, s, i, item, at, ch))
  {
  }

  lemma NotifyNoShortcut(c: Config, s: State, i: nat, next: AfterNotify, at: NotifyAt)
    requires i < |s.threads| && s.threads[i] == Notify(next, at)
    ensures NoShortcut(c, s, i, NextNotify(c, s, i, next, at))
  {
  }

  lemma LoopNoShortcut(c: Config, s: State, i: nat, at: LoopAt)
    requires i < |s.threads| && s.threads[i] == Loop(at)
    ensures NoShortcut(c, s, i, NextLoop(c, s, i, at))
  {
  }

  lemma FlushNoShortcut(c: Config, s: State, i: nat, owed: set<Item>, at: FlushAt)
    requires i < |s.threads| && s.threads[i] == Flush(owed, at)
    ensures NoShortcut(c, s, i, NextFlush(c, s, i, owed, at))
  {
  }

  lemma DropNoShortcut(c: Config, s: State, i: nat, at: DropAt)
    requires i < |s.threads| && s.threads[i] == Drop(at)
    ensures NoShortcut(c, s, i, NextDrop(s, i, at))
  {
  }

  lemma DeliverNoShortcut(c: Config, s: State, i: nat, item: Item, source: Source, at: DeliverAt)
    requires i < |s.threads| && s.threads[i] == Deliver(item, source, at)
    ensures NoShortcut(c, s, i, NextDeliver(s, i, item, source, at))
  {
  }

  lemma OtherNoShortcut(c: Config, s: State, i: nat, ch: Choice)
    requires Enabled(s, i, ch) && Brief(s.threads[i])
    ensures NoShortcut(c, s, i, Next(c, s, i, ch))
  {
  }

  lemma NextNoShortcut(c: Config, s: State, i: nat, ch: Choice)
    requires Enabled(s, i, ch)
    ensures NoShortcut(c, s, i, Next(c, s, i, ch))
  {
    match s.threads[i] {
      case Write(item, at) => WriteNoShortcut(c, s, i, item, at, ch);
      case Notify(next, at) => NotifyNoShortcut(c, s, i, next, at);
      case Loop(at) => LoopNoShortcut(c, s, i, at);
      case Flush(owed, at) => FlushNoShortcut(c, s, i, owed, at);
      case Drop(at) => DropNoShortcut(c, s, i, at);
      case Deliver(item, source, at) => DeliverNoShortcut(c, s, i, item, source, at);
      case _ => OtherNoShortcut(c, s, i, ch);
    }
  }

  /** All drops that q counts are reported, as far as thread f has come. */
  predicate CaughtUp(s: State, f: nat, q: nat) {
    && f < |s.threads| && q <= Recorded(s)
    && (LastReport(s.threads[f]) ==> q <= ReportedDrops(s.log) + s.threads[f].count)
    && (PastReport(s.threads[f]) ==> q <= ReportedDrops(s.log))
  }

  lemma ReportsGrow(s: State, t: State)
    requires s.log <= t.log && |t.log| <= |s.log| + 1
    ensures ReportedDrops(t.log) == ReportedDrops(s.log) + LogGrowth(s, t)
  {
    if |t.log| == |s.log| {
      assert t.log == s.log;
    } else {
      ReportedDropsAppend(s.log, t.log[|s.log|]);
      assert t.log == s.log + [t.log[|s.log|]];
    }
  }

  lemma RecordGrows(s: State, i: nat, t: State)
    requires KeepsRecord(s, i, t) && t.threads == s.threads[i := t.threads[i]]
    ensures Recorded(s) <= Recorded(t)
  {
    CarriedUpdate(s.threads, i, t.threads[i]);
    ReportsGrow(s, t);
  }

  /** Who takes the pending drops takes all that have been recorded and not reported. */
  lemma NobodyElseReports(c: Config, s: State)
    requires Shape(c, s) && s.deliveryLock.None?
    ensures CarriedBy(s.threads) == 0
  {
    forall j | 0 <= j < |s.threads| ensures !s.threads[j].ReportEmit? {
      assert ThreadOk(c, s, j);
    }
    CarriedByNone(s.threads);
  }

  lemma TakeCatchesUp(c: Config, s: State, i: nat, after: AfterReport, ch: Choice, q: nat)
    requires Shape(c, s) && Enabled(s, i, ch) && s.threads[i] == ReportTake(after) && q <= Recorded(s)
    ensures var t := Next(c, s, i, ch);
      |t.threads| == |s.threads| && t.threads[i].ReportEmit? && q <= ReportedDrops(t.log) + t.threads[i].count
  {
    NobodyElseReports(c, s);
  }

  lemma EmitCatchesUp(s: State, i: nat, count: nat, after: AfterReport, q: nat)
    requires i < |s.threads| && s.threads[i] == ReportEmit(count, after) && q <= ReportedDrops(s.log) + count
    ensures q <= ReportedDrops(NextReport(s, i, count, after).log)
  {
    ReportedDropsAppend(s.log, Reported(count));
  }

  lemma StepCatchesUp(c: Config, s: State, i: nat, ch: Choice, f: nat, q: nat)
    requires c.emitReports && Inv(c, s) && Enabled(s, i, ch) && CaughtUp(s, f, q)
    ensures CaughtUp(Next(c, s, i, ch), f, q)
  {
    var t := Next(c, s, i, ch);
    StepInv(c, s, i, ch);
    NextKeepsRecord(c, s, i, ch);
    RecordGrows(s, i, t);
    ReportsGrow(s, t);
    if i == f {
      NextNoShortcut(c, s, i, ch);
      if s.threads[i].ReportTake? {
        TakeCatchesUp(c, s, i, s.threads[i].after, ch, q);
      } else if LastReport(s.threads[i]) {
        EmitCatchesUp(s, i, s.threads[i].count, s.threads[i].after, q);
      }
    }
  }

  lemma {:induction false} StepAtCatchesUp(c: Config, producers: nat, run: seq<State>, k: nat, f: nat, q: nat)
    requires c.emitReports && Run(c, producers, run) && k + 1 < |run| && CaughtUp(run[k], f, q)
    ensures CaughtUp(run[k + 1], f, q)
  {
    Reachable(c, producers, run, k);
    assert StepAt(c, run, k + 1);
    var i: nat, ch: Choice :| Enabled(run[k], i, ch) && run[k + 1] == Next(c, run[k], i, ch);
    StepCatchesUp(c, run[k], i, ch, f, q);
  }

  /** If reports are wanted: whoever flushes the wrapped sink, a Flush or the worker before it stops, has seen
      every drop reported that had been recorded before its last report. */
  lemma {:induction false} ReportsCatchUp(c: Config, producers: nat, run: seq<State>, j: nat, k: nat, f: nat)
    requires c.emitReports && Run(c, producers, run) && j <= k < |run| && f <= producers
    requires !PastReport(run[j].threads[f]) && !LastReport(run[j].threads[f])
    ensures CaughtUp(run[k], f, Recorded(run[j]))
  {
    if j < k {
      ReportsCatchUp(c, producers, run, j, k - 1, f);
      StepAtCatchesUp(c, producers, run, k - 1, f, Recorded(run[j]));
    }
  }

  /** Nobody reports. */
  ghost predicate Silent(s: State) {
    && (forall j :: 0 <= j < |s.threads| ==> !Reporting(s.threads[j]))
    && (forall e :: e in s.log ==> !e.Reported?)
  }

  lemma StepSilent(c: Config, s: State, i: nat, ch: Choice)
    requires !c.emitReports && Inv(c, s) && Enabled(s, i, ch) && Silent(s)
    ensures Silent(Next(c, s, i, ch))
  {
    StepInv(c, s, i, ch);
    NextNoShortcut(c, s, i, ch);
    assert !Reporting(s.threads[i]);
  }

  lemma {:induction false} StepAtSilent(c: Config, producers: nat, run: seq<State>, k: nat)
    requires !c.emitReports && Run(c, producers, run) && k + 1 < |run| && Silent(run[k])
    ensures Silent(run[k + 1])
  {
    Reachable(c, producers, run, k);
    assert StepAt(c, run, k + 1);
    var i: nat, ch: Choice :| Enabled(run[k], i, ch) && run[k + 1] == Next(c, run[k], i, ch);
    StepSilent(c, run[k], i, ch);
  }

  /** If reports are not wanted, none is ever made. */
  lemma {:induction false} NoReportsUnlessWanted(c: Config, producers: nat, run: seq<State>, k: nat)
    requires !c.emitReports && Run(c, producers, run) && k < |run|
    ensures Silent(run[k]) && ReportedDrops(run[k].log) == 0
  {
    if k > 0 {
      NoReportsUnlessWanted(c, producers, run, k - 1);
      StepAtSilent(c, producers, run, k - 1);
    }
    SilentReportsNothing(run[k].log);
  }

  lemma {:induction false} SilentReportsNothing(log: seq<Event>)
    requires forall e :: e in log ==> !e.Reported?
    ensures ReportedDrops(log) == 0
  {
    if log != [] { SilentReportsNothing(log[..|log| - 1]); }
  }
}
