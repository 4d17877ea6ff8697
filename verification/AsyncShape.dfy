/** Which thread can be where, with which record and which lock in hand. */
module AsyncShape {
  import opened Basics
  import opened AsyncModel

  predicate HoldsFlush(pc: Pc) {
    pc.Flush? && (pc.flushAt.TestOutstanding? || pc.flushAt.TestEmpty? || pc.flushAt.Wait?)
  }

  predicate HoldsDelivery(pc: Pc) {
    pc.ReportEmit? || (pc.Deliver? && pc.deliverAt.CountDelivered?)
  }

  /** The worker runs ConsumeLoop and what it calls. */
  predicate WorkerPc(pc: Pc) {
    match pc
    case Loop(_) => true
    case Deliver(_, source, _) => source.FromQueue?
    case Notify(next, _) => next.ToLoop? || next.ToStopped?
    case ReportTake(after) => !after.ToFlushSink?
    case ReportEmit(_, after) => !after.ToFlushSink?
    case _ => false
  }

  predicate Latest(s: State, j: nat, item: Item) {
    j < |s.calls| && item.tid == j && item.call + 1 == s.calls[j]
  }

  /** An application thread carries the record of its latest Write, along the path its policy allows. */
  predicate CallerPc(c: Config, s: State, j: nat, pc: Pc) {
    match pc
    case Write(item, at) =>
      && Latest(s, j, item)
      && (at.LoopTest? || at.SpaceTestRunning? || at.SpaceTestQueue? ==> c.Blocks())
      && (at.FallbackAnnounce? || at.FallbackCount? ==> c.policy.SyncFallback?)
    case Drop(at) => at.CountTimed? || at.timed ==> c.policy.BlockForTimeout?
    case Deliver(item, source, _) => source.FromCaller? && Latest(s, j, item) && c.policy.SyncFallback?
    case Notify(ToRejected(item), _) => Latest(s, j, item)
    case Notify(ToReturn(item), _) => Latest(s, j, item) && c.policy.SyncFallback?
    case Notify(_, _) => false
    case ReportTake(after) => after.ToFlushSink?
    case ReportEmit(_, after) => after.ToFlushSink?
    case Loop(_) => false
    case _ => true
  }

  predicate ThreadOk(c: Config, s: State, j: nat)
    requires j < |s.threads|
  {
    && (if j == 0 then WorkerPc(s.threads[j]) else CallerPc(c, s, j, s.threads[j]))
    && (HoldsFlush(s.threads[j]) <==> s.flushLock == Some(j))
    && (HoldsDelivery(s.threads[j]) <==> s.deliveryLock == Some(j))
  }

  ghost predicate Shape(c: Config, s: State) {
    && |s.calls| == |s.threads| > 0
    && (s.flushLock.Some? ==> s.flushLock.value < |s.threads|)
    && (s.deliveryLock.Some? ==> s.deliveryLock.value < |s.threads|)
    && forall j :: 0 <= j < |s.threads| ==> ThreadOk(c, s, j)
  }

  lemma InitShape(c: Config, producers: nat)
    ensures Shape(c, Init(producers))
  {
  }

  /** A lock passes only between free and held by the acting thread. */
  predicate LockFrame(before: Option<nat>, after: Option<nat>, i: nat) {
    after == before || ((before.None? || before == Some(i)) && (after.None? || after == Some(i)))
  }

  /** What a step of thread i leaves alone, and where it leaves that thread. */
  ghost predicate Moves(c: Config, s: State, i: nat, t: State) {
    && i < |s.threads| == |t.threads| == |s.calls| == |t.calls|
    && t.threads == s.threads[i := t.threads[i]]
    && t.calls == s.calls[i := t.calls[i]]
    && LockFrame(s.flushLock, t.flushLock, i)
    && LockFrame(s.deliveryLock, t.deliveryLock, i)
    && ThreadOk(c, t, i)
  }

  lemma MovesKeepShape(c: Config, s: State, i: nat, t: State)
    requires Shape(c, s) && Moves(c, s, i, t)
    ensures Shape(c, t)
  {
    forall j | 0 <= j < |t.threads| ensures ThreadOk(c, t, j) {
      if j != i {
        assert ThreadOk(c, s, j);
        assert t.threads[j] == s.threads[j] && t.calls[j] == s.calls[j];
      }
    }
  }

  lemma CallMoves(c: Config, s: State, i: nat, ch: Choice)
    requires 0 < i < |s.threads| == |s.calls| && ThreadOk(c, s, i) && s.threads[i].Idle?
    ensures Moves(c, s, i, NextCall(s, i, ch))
  {
  }

  lemma LookMoves(c: Config, s: State, i: nat, item: Item, at: WriteAt, ch: Choice)
    requires i < |s.threads| == |s.calls| && ThreadOk(c, s, i) && s.threads[i] == Write(item, at) && Looks(at)
    ensures Moves(c, s, i, NextWrite(c, s, i, item, at, ch))
  {
  }

  lemma WriteMoves(c: Config, s: State, i: nat, item: Item, at: WriteAt, ch: Choice)
    requires i < |s.threads| == |s.calls| && ThreadOk(c, s, i) && s.threads[i] == Write(item, at)
    ensures Moves(c, s, i, NextWrite(c, s, i, item, at, ch))
  {
    if Looks(at) { LookMoves(c, s, i, item, at, ch); }
  }

  lemma DropMoves(c: Config, s: State, i: nat, at: DropAt)
    requires i < |s.threads| == |s.calls| && ThreadOk(c, s, i) && s.threads[i] == Drop(at)
    ensures Moves(c, s, i, NextDrop(s, i, at))
  {
  }

  lemma DeliverMoves(c: Config, s: State, i: nat, item: Item, source: Source, at: DeliverAt)
    requires i < |s.threads| == |s.calls| && ThreadOk(c, s, i) && s.threads[i] == Deliver(item, source, at)
    requires at.HandOver? ==> s.deliveryLock.None?
    ensures Moves(c, s, i, NextDeliver(s, i, item, source, at))
  {
  }

  lemma ResumeMoves(c: Config, s: State, i: nat, next: AfterNotify, at: NotifyAt)
    requires i < |s.threads| == |s.calls| && ThreadOk(c, s, i) && s.threads[i] == Notify(next, at)
    ensures Moves(c, s, i, Resume(c, s, i, next))
    ensures Moves(c, s, i, Resume(c, s, i, next).(sleepers := {}))
  {
  }

  lemma NotifyMoves(c: Config, s: State, i: nat, next: AfterNotify, at: NotifyAt)
    requires i < |s.threads| == |s.calls| && ThreadOk(c, s, i) && s.threads[i] == Notify(next, at)
    ensures Moves(c, s, i, NextNotify(c, s, i, next, at))
  {
    ResumeMoves(c, s, i, next, at);
  }

  lemma FlushMoves(c: Config, s: State, i: nat, owed: set<Item>, at: FlushAt)
    requires i < |s.threads| == |s.calls| && ThreadOk(c, s, i) && s.threads[i] == Flush(owed, at)
    requires at.Lock? ==> s.flushLock.None?
    ensures Moves(c, s, i, NextFlush(c, s, i, owed, at))
  {
  }

  lemma LoopMoves(c: Config, s: State, i: nat, at: LoopAt)
    requires i < |s.threads| == |s.calls| && ThreadOk(c, s, i) && s.threads[i] == Loop(at)
    ensures Moves(c, s, i, NextLoop(c, s, i, at))
  {
  }

  lemma ReportMoves(c: Config, s: State, i: nat, count: nat, after: AfterReport)
    requires i < |s.threads| == |s.calls| && ThreadOk(c, s, i) && s.threads[i] == ReportEmit(count, after)
    ensures Moves(c, s, i, NextReport(s, i, count, after))
  {
  }

  lemma ControlMoves(c: Config, s: State, i: nat, ch: Choice)
    requires Enabled(s, i, ch) && ThreadOk(c, s, i)
    requires s.threads[i].ReportTake? || s.threads[i].StopBegin? || s.threads[i].StopJoin?
    ensures Moves(c, s, i, Next(c, s, i, ch))
  {
    match s.threads[i] { case ReportTake(_) => case StopBegin => case StopJoin => }
  }

  lemma StepMoves(c: Config, s: State, i: nat, ch: Choice)
    requires Enabled(s, i, ch) && ThreadOk(c, s, i)
    ensures Moves(c, s, i, Next(c, s, i, ch))
  {
    match s.threads[i] {
      case Idle => CallMoves(c, s, i, ch);
      case Write(item, at) => WriteMoves(c, s, i, item, at, ch);
      case Drop(at) => DropMoves(c, s, i, at);
      case Deliver(item, source, at) => DeliverMoves(c, s, i, item, source, at);
      case Notify(next, at) => NotifyMoves(c, s, i, next, at);
      case Flush(owed, at) => FlushMoves(c, s, i, owed, at);
      case Loop(at) => LoopMoves(c, s, i, at);
      case ReportEmit(count, after) => ReportMoves(c, s, i, count, after);
      case ReportTake(_) => ControlMoves(c, s, i, ch);
      case StopBegin => ControlMoves(c, s, i, ch);
      case StopJoin => ControlMoves(c, s, i, ch);
    }
  }

  lemma StepShape(c: Config, s: State, i: nat, ch: Choice)
    requires Shape(c, s) && Enabled(s, i, ch)
    ensures Moves(c, s, i, Next(c, s, i, ch)) && Shape(c, Next(c, s, i, ch))
  {
    assert ThreadOk(c, s, i);
    StepMoves(c, s, i, ch);
    MovesKeepShape(c, s, i, Next(c, s, i, ch));
  }
}
