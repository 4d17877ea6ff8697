/** What a Flush, a Shutdown and the worker have done when they come to their end. */
module AsyncReturns {
  import opened AsyncModel
  import opened AsyncCounts
  import opened AsyncShape
  import opened AsyncEffects
  import opened AsyncInvariant
  import opened AsyncTheorems
  import opened AsyncReports
  import opened AsyncStranding

  // ----- What a Flush has done when it returns

  /** A flush goes on flushing, or has just flushed the wrapped sink and returns. */
  predicate FlushGoesOn(s: State, i: nat, t: State) {
    && i < |s.threads| == |t.threads|
    && (InFlush(s.threads[i]) ==>
          || InFlush(t.threads[i])
          || (t.threads[i].Idle? && s.threads[i].Flush? && s.threads[i].flushAt.SinkFlush?
              && t.log == s.log + [Flushed(Owed(s.threads[i]))]))
  }

  lemma StepFlushGoesOn(c: Config, s: State, i: nat, ch: Choice)
    requires Enabled(s, i, ch)
    ensures FlushGoesOn(s, i, Next(c, s, i, ch))
  {
    if InFlush(s.threads[i]) {
      match s.threads[i] {
        case Flush(_, at) =>
        case ReportTake(_) =>
        case ReportEmit(_, _) =>
      }
    } else {
      StepEffect(c, s, i, ch);
    }
  }

  lemma StepFlushGoesOnFor(c: Config, s: State, i: nat, ch: Choice, f: nat)
    requires Inv(c, s) && Enabled(s, i, ch) && f < |s.threads|
    ensures FlushGoesOn(s, f, Next(c, s, i, ch))
  {
    StepInv(c, s, i, ch);
    if i == f { StepFlushGoesOn(c, s, i, ch); }
  }

  lemma {:induction false} StepAtFlushGoesOn(c: Config, producers: nat, run: seq<State>, k: nat, f: nat)
    requires Run(c, producers, run) && k + 1 < |run| && f <= producers
    ensures FlushGoesOn(run[k], f, run[k + 1])
  {
    Reachable(c, producers, run, k);
    assert StepAt(c, run, k + 1);
    var i: nat, ch: Choice :| Enabled(run[k], i, ch) && run[k + 1] == Next(c, run[k], i, ch);
    StepFlushGoesOnFor(c, run[k], i, ch, f);
  }

  lemma {:induction false} StaysInFlush(c: Config, producers: nat, run: seq<State>, j: nat, k: nat, f: nat)
    requires Run(c, producers, run) && j <= k < |run| && f <= producers && InFlush(run[j].threads[f])
    requires forall m :: j <= m <= k ==> !run[m].threads[f].Idle?
    ensures InFlush(run[k].threads[f])
  {
    if j < k {
      StaysInFlush(c, producers, run, j, k - 1, f);
      StepAtFlushGoesOn(c, producers, run, k - 1, f);
    }
  }

  /** A Flush that was called after step j and returns in the step behind state k has, in that last step,
      flushed the wrapped sink; by then the sink had every record whose Write had returned undropped by step
      j, and, if reports are wanted, every drop recorded by then had been reported. */
  lemma {:induction false} FlushCall(c: Config, producers: nat, run: seq<State>, j: nat, k: nat, f: nat)
    requires Run(c, producers, run) && j < k && k + 1 < |run| && f <= producers
    requires run[j].threads[f].Idle? && InFlush(run[j + 1].threads[f])
    requires forall m :: j < m <= k ==> !run[m].threads[f].Idle?
    requires run[k + 1].threads[f].Idle?
    ensures run[k + 1].log == run[k].log + [Flushed(run[j].returned)]
    ensures run[j].returned <= Received(run[k].log)
    ensures c.emitReports ==> Recorded(run[j]) <= ReportedDrops(run[k].log)
  {
    StaysInFlush(c, producers, run, j + 1, k, f);
    StepAtFlushGoesOn(c, producers, run, k, f);
    FlushKeepsItsDebt(c, producers, run, j, k, f);
    FlushBarrier(c, producers, run, j, k, f);
    if c.emitReports { ReportsCatchUp(c, producers, run, j, k, f); }
  }

  // ----- What the worker and Shutdown have done

  /** The wrapped sink has been flushed since the worker last handed it a record. */
  predicate FlushedLast(log: seq<Event>) {
    if log == [] then false
    else
      var e := log[|log| - 1];
      e.Flushed? || ((e.Wrote? ==> !e.queued) && FlushedLast(log[..|log| - 1]))
  }

  predicate HasFinished(pc: Pc) {
    (pc.Notify? && pc.next.ToStopped?) || pc == Loop(Stopped)
  }

  lemma AppendFlushedLast(log: seq<Event>, e: Event)
    requires e.Flushed? || ((e.Wrote? ==> !e.queued) && FlushedLast(log))
    ensures FlushedLast(log + [e])
  {
    assert (log + [e])[..|log|] == log;
  }

  lemma LoopFinishesByFlush(c: Config, s: State, at: LoopAt)
    requires |s.threads| > 0 && s.threads[0] == Loop(at) && !at.Stopped?
    ensures var t := NextLoop(c, s, 0, at);
      |t.threads| == |s.threads| && (HasFinished(t.threads[0]) ==> FlushedLast(t.log))
  {
    AppendFlushedLast(s.log, Flushed({}));
  }

  /** The worker finishes by a flush of the wrapped sink. */
  lemma FinishesByFlush(c: Config, s: State, ch: Choice)
    requires Enabled(s, 0, ch) && WorkerPc(s.threads[0])
    requires HasFinished(s.threads[0]) ==> FlushedLast(s.log)
    ensures var t := Next(c, s, 0, ch);
      |t.threads| == |s.threads| && (HasFinished(t.threads[0]) ==> FlushedLast(t.log))
  {
    match s.threads[0] {
      case Loop(at) => LoopFinishesByFlush(c, s, at);
      case Deliver(_, _, at) =>
      case Notify(next, at) =>
      case ReportTake(_) =>
      case ReportEmit(_, after) =>
    }
  }

  /** The others hand over no queued records. */
  lemma OthersKeepFlushedLast(c: Config, s: State, i: nat, t: State)
    requires Stepped(c, s, i, t) && i > 0 && FlushedLast(s.log)
    ensures FlushedLast(t.log)
  {
    assert ThreadOk(c, s, i);
    if t.log != s.log { AppendFlushedLast(s.log, t.log[|s.log|]); }
  }

  lemma StepFinishes(c: Config, s: State, i: nat, ch: Choice)
    requires Inv(c, s) && Enabled(s, i, ch) && (HasFinished(s.threads[0]) ==> FlushedLast(s.log))
    ensures var t := Next(c, s, i, ch); |t.threads| > 0 && (HasFinished(t.threads[0]) ==> FlushedLast(t.log))
  {
    StepInv(c, s, i, ch);
    assert ThreadOk(c, s, 0);
    if i == 0 {
      FinishesByFlush(c, s, ch);
    } else if HasFinished(s.threads[0]) {
      OthersKeepFlushedLast(c, s, i, Next(c, s, i, ch));
    }
  }

  lemma {:induction false} StepAtFinishes(c: Config, producers: nat, run: seq<State>, k: nat)
    requires Run(c, producers, run) && k + 1 < |run| && (HasFinished(run[k].threads[0]) ==> FlushedLast(run[k].log))
    ensures HasFinished(run[k + 1].threads[0]) ==> FlushedLast(run[k + 1].log)
  {
    Reachable(c, producers, run, k);
    assert StepAt(c, run, k + 1);
    var i: nat, ch: Choice :| Enabled(run[k], i, ch) && run[k + 1] == Next(c, run[k], i, ch);
    StepFinishes(c, run[k], i, ch);
  }

  /** When the worker has stopped, the wrapped sink has been flushed since the last record from the queue. */
  lemma {:induction false} StopsByFlush(c: Config, producers: nat, run: seq<State>, k: nat)
    requires Run(c, producers, run) && k < |run|
    ensures HasFinished(run[k].threads[0]) ==> FlushedLast(run[k].log)
  {
    if k > 0 {
      StopsByFlush(c, producers, run, k - 1);
      StepAtFinishes(c, producers, run, k - 1);
    }
  }

  /** Thread i's Shutdown either clears the flag and waits for the worker, or finds it cleared and returns. */
  predicate ShutdownGoesOn(s: State, i: nat, t: State) {
    && i < |s.threads| == |t.threads| && |s.threads| > 0
    && (s.threads[i].StopBegin? && t.threads[i] != StopBegin ==>
          !t.running && t.threads[i] == if s.running then StopJoin else Idle)
    && (s.threads[i].StopJoin? && t.threads[i] != StopJoin ==>
          t.threads[i].Idle? && s.threads[0] == Loop(Stopped) && t.threads[0] == Loop(Stopped))
  }

  lemma StepShutdown(c: Config, s: State, n: nat, ch: Choice, i: nat)
    requires Inv(c, s) && Enabled(s, n, ch) && 0 < i < |s.threads|
    ensures ShutdownGoesOn(s, i, Next(c, s, n, ch))
  {
    StepInv(c, s, n, ch);
  }

  lemma {:induction false} StepAtShutdown(c: Config, producers: nat, run: seq<State>, k: nat, i: nat)
    requires Run(c, producers, run) && k + 1 < |run| && 0 < i <= producers
    ensures ShutdownGoesOn(run[k], i, run[k + 1])
  {
    Reachable(c, producers, run, k);
    assert StepAt(c, run, k + 1);
    var n: nat, ch: Choice :| Enabled(run[k], n, ch) && run[k + 1] == Next(c, run[k], n, ch);
    StepShutdown(c, run[k], n, ch, i);
  }

  lemma StepStaysCleared(c: Config, producers: nat, run: seq<State>, k: nat)
    requires Run(c, producers, run) && k + 1 < |run| && !run[k].running
    ensures !run[k + 1].running
  {
    var i := RunStep(c, producers, run, k);
  }

  lemma {:induction false} StaysCleared(c: Config, producers: nat, run: seq<State>, j: nat, k: nat)
    requires Run(c, producers, run) && j <= k < |run| && !run[j].running
    ensures !run[k].running
  {
    if j < k {
      StaysCleared(c, producers, run, j, k - 1);
      StepStaysCleared(c, producers, run, k - 1);
    }
  }

  lemma {:induction false} StaysAtJoin(c: Config, producers: nat, run: seq<State>, j: nat, k: nat, i: nat)
    requires Run(c, producers, run) && j <= k < |run| && 0 < i <= producers && run[j].threads[i] == StopJoin
    requires forall m :: j <= m <= k ==> !run[m].threads[i].Idle?
    ensures run[k].threads[i] == StopJoin
  {
    if j < k {
      StaysAtJoin(c, producers, run, j, k - 1, i);
      StepAtShutdown(c, producers, run, k - 1, i);
    }
  }

  lemma {:induction false} RunsBeforeReport(c: Config, producers: nat, run: seq<State>, k: nat)
    requires Run(c, producers, run) && k < |run| && run[k].running
    ensures !PastReport(run[k].threads[0]) && !LastReport(run[k].threads[0])
  {
    LeftMeansClosed(c, producers, run, k);
    Reachable(c, producers, run, k);
    assert ThreadOk(c, run[k], 0);
  }

  /** Shutdown clears the running flag for good. The call that finds it set returns only when the worker has
      stopped and has flushed the wrapped sink after its last record, and, if reports are wanted, when every
      drop recorded before the call has been reported; a call that finds the flag cleared returns at once. */
  lemma {:induction false} ShutdownCall(c: Config, producers: nat, run: seq<State>, j: nat, k: nat, i: nat)
    requires Run(c, producers, run) && j < k < |run| && 0 < i <= producers
    requires run[j].threads[i].StopBegin? && !run[j + 1].threads[i].StopBegin?
    requires forall m :: j < m < k ==> !run[m].threads[i].Idle?
    requires run[k].threads[i].Idle?
    ensures !run[k].running
    ensures run[j].running ==> run[k].threads[0] == Loop(Stopped) && FlushedLast(run[k].log)
    ensures run[j].running && c.emitReports ==> Recorded(run[j]) <= ReportedDrops(run[k].log)
    ensures !run[j].running ==> k == j + 1
  {
    StepAtShutdown(c, producers, run, j, i);
    StaysCleared(c, producers, run, j + 1, k);
    if run[j].running {
      StaysAtJoin(c, producers, run, j + 1, k - 1, i);
      StepAtShutdown(c, producers, run, k - 1, i);
      StopsByFlush(c, producers, run, k);
      RunsBeforeReport(c, producers, run, j);
      if c.emitReports { ReportsCatchUp(c, producers, run, j, k, 0); }
    }
  }

  // ----- Batches

  /** How many records the worker has taken in this batch, at most as many as a batch may have. */
  predicate WithinBatch(c: Config, pc: Pc) {
    match pc
    case Loop(at) => at.Take? ==> at.drained <= c.batch
    case Deliver(_, source, _) => source.FromQueue? ==> source.drained < c.batch
    case Notify(next, _) => next.ToLoop? ==> next.drained <= c.batch
    case ReportTake(after) => after.ToBatchEnd? ==> after.drained <= c.batch
    case ReportEmit(_, after) => after.ToBatchEnd? ==> after.drained <= c.batch
    case _ => true
  }

  /** A batch ends when it is full or finds nothing more, and the worker naps only after one that found nothing. */
  predicate BatchGoesOn(c: Config, s: State, t: State) {
    && 0 < |s.threads| == |t.threads|
    && var p, q := s.threads[0], t.threads[0];
    && (p.Loop? && p.loopAt.Take? && q != p && !q.Deliver? ==> p.loopAt.drained == c.batch || s.queue == [])
    && (q == Loop(Nap) && p != q ==> p.Notify? && p.next == ToLoop(0))
    && (q == Loop(Head) && p != q && p != Loop(Nap) ==> p.Notify? && p.next.ToLoop? && p.next.drained > 0)
  }

  lemma LoopKeepsBatch(c: Config, s: State, at: LoopAt)
    requires |s.threads| > 0 && s.threads[0] == Loop(at) && WithinBatch(c, s.threads[0])
    ensures var t := NextLoop(c, s, 0, at); BatchGoesOn(c, s, t) && WithinBatch(c, t.threads[0])
  {
  }

  lemma NotifyKeepsBatch(c: Config, s: State, next: AfterNotify, at: NotifyAt)
    requires |s.threads| > 0 && s.threads[0] == Notify(next, at) && WithinBatch(c, s.threads[0])
    requires next.ToLoop? || next.ToStopped?
    ensures var t := NextNotify(c, s, 0, next, at); BatchGoesOn(c, s, t) && WithinBatch(c, t.threads[0])
  {
  }

  lemma WorkerKeepsBatch(c: Config, s: State, ch: Choice)
    requires Enabled(s, 0, ch) && WorkerPc(s.threads[0]) && WithinBatch(c, s.threads[0])
    ensures var t := Next(c, s, 0, ch); BatchGoesOn(c, s, t) && WithinBatch(c, t.threads[0])
  {
    match s.threads[0] {
      case Loop(at) => LoopKeepsBatch(c, s, at);
      case Notify(next, at) => NotifyKeepsBatch(c, s, next, at);
      case Deliver(_, _, at) =>
      case ReportTake(_) =>
      case ReportEmit(_, after) =>
    }
  }

  lemma StepKeepsBatch(c: Config, s: State, i: nat, ch: Choice)
    requires Inv(c, s) && Enabled(s, i, ch) && WithinBatch(c, s.threads[0])
    ensures var t := Next(c, s, i, ch); BatchGoesOn(c, s, t) && WithinBatch(c, t.threads[0])
  {
    StepInv(c, s, i, ch);
    assert ThreadOk(c, s, 0);
    if i == 0 { WorkerKeepsBatch(c, s, ch); }
  }

  /** The worker never takes more than a batch without looking at the running flag again, ends a batch only
      when it is full or the queue is empty, and naps exactly after a batch that found nothing. */
  lemma {:induction false} BatchesAreBounded(c: Config, producers: nat, run: seq<State>, k: nat)
    requires Run(c, producers, run) && k < |run|
    ensures WithinBatch(c, run[k].threads[0])
    ensures k + 1 < |run| ==> BatchGoesOn(c, run[k], run[k + 1])
  {
    if k > 0 {
      BatchesAreBounded(c, producers, run, k - 1);
      StepAtKeepsBatch(c, producers, run, k - 1);
    }
    if k + 1 < |run| { StepAtKeepsBatch(c, producers, run, k); }
  }

  lemma {:induction false} StepAtKeepsBatch(c: Config, producers: nat, run: seq<State>, k: nat)
    requires Run(c, producers, run) && k + 1 < |run| && WithinBatch(c, run[k].threads[0])
    ensures BatchGoesOn(c, run[k], run[k + 1]) && WithinBatch(c, run[k + 1].threads[0])
  {
    Reachable(c, producers, run, k);
    assert StepAt(c, run, k + 1);
    var i: nat, ch: Choice :| Enabled(run[k], i, ch) && run[k + 1] == Next(c, run[k], i, ch);
    StepKeepsBatch(c, run[k], i, ch);
  }
}
