/** One call of Write from its start to its return: which record is queued, which is handed over by its own
    thread and which is dropped, told by what the call finds on its way. */
module AsyncCalls {
  import opened AsyncModel
  import opened AsyncShape
  import opened AsyncEffects
  import opened AsyncInvariant

  // ----- The offer

  /** Thread i moves in the step behind the k-th state. */
  predicate MovesAt(run: seq<State>, k: nat, i: nat) {
    && k + 1 < |run| && i < |run[k].threads| == |run[k + 1].threads|
    && run[k + 1].threads[i] != run[k].threads[i]
  }

  /** The thread that moves is the one whose program counter changes. */
  lemma MoverActs(c: Config, producers: nat, run: seq<State>, k: nat, i: nat) returns (ch: Choice)
    requires Run(c, producers, run) && i <= producers && MovesAt(run, k, i)
    ensures Inv(c, run[k]) && Enabled(run[k], i, ch) && run[k + 1] == Next(c, run[k], i, ch)
  {
    Reachable(c, producers, run, k);
    assert StepAt(c, run, k + 1);
    var n: nat, choice: Choice :| Enabled(run[k], n, choice) && run[k + 1] == Next(c, run[k], n, choice);
    StepInv(c, run[k], n, choice);
    ch := choice;
  }

  /** A record that is offered is queued, as the newest, if and only if the queue is below its capacity;
      otherwise the queue is full and stays as it is. */
  lemma OfferExactly(c: Config, producers: nat, run: seq<State>, k: nat, i: nat, x: Item)
    requires Run(c, producers, run) && i <= producers && MovesAt(run, k, i)
    requires run[k].threads[i] == Write(x, Offer)
    ensures x in run[k + 1].accepted <==> |run[k].queue| < c.capacity
    ensures |run[k].queue| < c.capacity ==>
              run[k + 1].queue == run[k].queue + [x] && run[k + 1].accepted == run[k].accepted + [x]
    ensures |run[k].queue| >= c.capacity ==>
              && |run[k].queue| == c.capacity
              && run[k + 1].queue == run[k].queue && run[k + 1].accepted == run[k].accepted
  {
    var ch := MoverActs(c, producers, run, k, i);
    UntakenIsUnseen(c, run[k], i, x);
  }

  // ----- What a call finds

  /** Whether the call was refused by its first test of the running flag, found the flag cleared later, found
      room in the queue, found the queue full, or gave up waiting while the queue was full. */
  datatype Found = Found(refused: bool, closed: bool, room: bool, full: bool, expired: bool)

  const NOTHING_YET := Found(false, false, false, false, false)

  /** What thread i finds in a step from s to t in which it moves. */
  function Finds(c: Config, f: Found, s: State, t: State, i: nat): Found
    requires i < |s.threads| == |t.threads|
  {
    match s.threads[i]
    case Write(_, TestRunning) => f.(refused := !s.running)
    case Write(_, LoopTest) => f.(closed := !s.running)
    case Write(_, Offer) => if |s.queue| < c.capacity then f.(room := true) else f.(full := true)
    case Write(_, SpaceTestQueue) => f.(expired := t.threads[i].Drop? && |s.queue| >= c.capacity)
    case _ => f
  }

  function FoundBy(c: Config, run: seq<State>, i: nat, j: nat, k: nat): Found
    requires j <= k < |run|
    decreases k
  {
    if j == k then NOTHING_YET
    else
      var f := FoundBy(c, run, i, j, k - 1);
      if MovesAt(run, k - 1, i) then Finds(c, f, run[k - 1], run[k], i) else f
  }

  /** From its first test of the running flag, in state j, the call of Write for record x has not returned
      before state k. */
  ghost predicate InCall(run: seq<State>, producers: nat, i: nat, j: nat, k: nat, x: Item) {
    && i <= producers && j <= k < |run|
    && (forall m :: j <= m <= k ==> |run[m].threads| == producers + 1)
    && run[j].threads[i] == Write(x, TestRunning)
    && forall m :: j <= m < k ==> !run[m].threads[i].Idle?
  }

  // ----- Where a call can be, having found what it has found

  /** The call has neither been refused nor given up. */
  predicate Going(f: Found) { !f.refused && !f.closed && !f.expired }

  predicate Rejected(f: Found) { Going(f) && f.full && !f.room }

  /** Why a record is dropped. */
  predicate GivesUp(c: Config, f: Found) {
    f.refused || f.closed || f.expired || (f.full && c.policy.DropNewest?)
  }

  predicate WriteTold(c: Config, f: Found, at: WriteAt) {
    && Going(f)
    && match at
       case TestRunning => f == NOTHING_YET
       case LoopTest => c.Blocks() && !f.room
       case Announce => !f.room && (f.full ==> c.Blocks())
       case Offer => !f.room && (f.full ==> c.Blocks())
       case CountAccepted => f.room && (f.full ==> c.Blocks())
       case Withdraw => Rejected(f)
       case SpaceTestRunning => c.Blocks() && Rejected(f)
       case SpaceTestQueue => c.Blocks() && Rejected(f)
       case FallbackAnnounce => c.policy.SyncFallback? && Rejected(f)
       case FallbackCount => c.policy.SyncFallback? && Rejected(f)
  }

  predicate Dropped(c: Config, f: Found) {
    && GivesUp(c, f) && !f.room && !(f.full && c.policy.SyncFallback?)
    && (f.closed ==> c.Blocks()) && (f.expired ==> c.policy.BlockForTimeout? && f.full)
  }

  predicate Told(c: Config, x: Item, f: Found, pc: Pc) {
    match pc
    case Write(y, at) => y == x && WriteTold(c, f, at)
    case Notify(ToRejected(y), _) => y == x && Rejected(f)
    case Notify(ToReturn(y), _) => y == x && Rejected(f) && c.policy.SyncFallback?
    case Deliver(y, FromCaller, _) => y == x && Rejected(f) && c.policy.SyncFallback?
    case Drop(_) => Dropped(c, f)
    case Idle =>
      || Dropped(c, f)
      || (Going(f) && f.room && (f.full ==> c.Blocks()))
      || (Rejected(f) && c.policy.SyncFallback?)
    case _ => false
  }

  // ----- Where the record is

  /** The record's own thread has handed it over. */
  predicate TakenDirectly(c: Config, f: Found, pc: Pc) {
    match pc
    case Deliver(_, _, at) => !at.HandOver?
    case Notify(next, _) => next.ToReturn?
    case Idle => f.full && c.policy.SyncFallback?
    case _ => false
  }

  ghost predicate Unseen(s: State, x: Item) {
    x !in s.accepted && x !in s.returned && x !in Received(s.log)
  }

  ghost predicate Standing(c: Config, s: State, i: nat, x: Item, f: Found)
    requires i < |s.threads|
  {
    var pc := s.threads[i];
    && (f.room ==> x in s.accepted)
    && (TakenDirectly(c, f, pc) ==> Wrote(x, false) in s.log)
    && (!f.room && !TakenDirectly(c, f, pc) ==> Unseen(s, x))
    && (pc.Idle? && (f.room || TakenDirectly(c, f, pc)) ==> x in s.returned)
  }

  lemma {:induction false} ReceivedIsWritten(log: seq<Event>, x: Item)
    requires x in Received(log)
    ensures x in Written(log, true) || x in Written(log, false)
  {
    var e :| e in log && e.Wrote? && e.item == x;
    var last, front := log[|log| - 1], log[..|log| - 1];
    if e != last {
      assert e in front;
      ReceivedIsWritten(front, x);
    }
  }

  /** Until its record has found a place, a Write's record is nowhere. */
  lemma UntakenIsUnseen(c: Config, s: State, i: nat, x: Item)
    requires Inv(c, s) && i < |s.threads| && Untaken(s.threads[i])
    requires s.threads[i].Write? && s.threads[i].item == x
    ensures Unseen(s, x)
  {
    assert ThreadOk(c, s, i);
    NotPlaced(s, s.accepted, x);
    NotPlaced(s, Written(s.log, false), x);
    if x in Received(s.log) {
      ReceivedIsWritten(s.log, x);
      WrittenIsAccepted(s, x);
    }
  }

  lemma WrittenIsAccepted(s: State, x: Item)
    requires Flows(s) && x in Written(s.log, true)
    ensures x in s.accepted
  {
  }

  lemma NotPlaced(s: State, items: seq<Item>, x: Item)
    requires |s.calls| == |s.threads| && ArePlaced(s, items) && x.tid < |s.threads| && x.call >= Placed(s, x.tid)
    ensures x !in items
  {
  }

  // ----- The steps of the calling thread

  lemma WriteTells(c: Config, s: State, i: nat, x: Item, at: WriteAt, ch: Choice, f: Found)
    requires i < |s.threads| && s.threads[i] == Write(x, at) && WriteTold(c, f, at)
    ensures var t := NextWrite(c, s, i, x, at, ch);
      && |t.threads| == |s.threads| && t.threads[i] != s.threads[i]
      && Told(c, x, Finds(c, f, s, t, i), t.threads[i])
  {
  }

  lemma WriteStands(c: Config, s: State, i: nat, x: Item, at: WriteAt, ch: Choice, f: Found)
    requires i < |s.threads| && s.threads[i] == Write(x, at) && WriteTold(c, f, at) && Standing(c, s, i, x, f)
    ensures var t := NextWrite(c, s, i, x, at, ch);
      |t.threads| == |s.threads| && Standing(c, t, i, x, Finds(c, f, s, t, i))
  {
  }

  lemma DropTells(c: Config, s: State, i: nat, x: Item, at: DropAt, f: Found)
    requires i < |s.threads| && s.threads[i] == Drop(at) && Dropped(c, f) && Standing(c, s, i, x, f)
    ensures var t := NextDrop(s, i, at);
      && |t.threads| == |s.threads| && t.threads[i] != s.threads[i]
      && Told(c, x, f, t.threads[i]) && Standing(c, t, i, x, f)
  {
  }

  lemma DeliverTells(c: Config, s: State, i: nat, x: Item, at: DeliverAt, f: Found)
    requires i < |s.threads| && s.threads[i] == Deliver(x, FromCaller, at)
    requires Rejected(f) && c.policy.SyncFallback? && Standing(c, s, i, x, f)
    ensures var t := NextDeliver(s, i, x, FromCaller, at);
      && |t.threads| == |s.threads| && t.threads[i] != s.threads[i]
      && Told(c, x, f, t.threads[i]) && Standing(c, t, i, x, f)
  {
    assert at.HandOver? ==> Wrote(x, false) in s.log + [Wrote(x, false)];
  }

  lemma ResumeTells(c: Config, s: State, i: nat, x: Item, next: AfterNotify, at: NotifyAt, f: Found)
    requires i < |s.threads| && s.threads[i] == Notify(next, at)
    requires Told(c, x, f, s.threads[i]) && Standing(c, s, i, x, f)
    ensures var t := Resume(c, s, i, next);
      && |t.threads| == |s.threads| && t.threads[i] != s.threads[i] && Told(c, x, f, t.threads[i])
      && Standing(c, t, i, x, f) && Standing(c, t.(sleepers := {}), i, x, f)
  {
  }

  lemma NotifyTells(c: Config, s: State, i: nat, x: Item, next: AfterNotify, at: NotifyAt, f: Found)
    requires i < |s.threads| && s.threads[i] == Notify(next, at)
    requires Told(c, x, f, s.threads[i]) && Standing(c, s, i, x, f)
    ensures var t := NextNotify(c, s, i, next, at);
      && |t.threads| == |s.threads| && t.threads[i] != s.threads[i]
      && Told(c, x, f, t.threads[i]) && Standing(c, t, i, x, f)
  {
    ResumeTells(c, s, i, x, next, at, f);
  }

  /** The call is where what it has found takes it, and so is its record. */
  ghost predicate Stands(c: Config, s: State, i: nat, x: Item, f: Found) {
    i < |s.threads| && Told(c, x, f, s.threads[i]) && Standing(c, s, i, x, f)
  }

  lemma OwnStep(c: Config, s: State, i: nat, ch: Choice, x: Item, f: Found)
    requires Enabled(s, i, ch) && Stands(c, s, i, x, f) && !s.threads[i].Idle?
    ensures var t := Next(c, s, i, ch);
      && |t.threads| == |s.threads| && t.threads[i] != s.threads[i]
      && Stands(c, t, i, x, Finds(c, f, s, t, i))
  {
    match s.threads[i] {
      case Write(_, at) => WriteTells(c, s, i, x, at, ch, f); WriteStands(c, s, i, x, at, ch, f);
      case Drop(at) => DropTells(c, s, i, x, at, f);
      case Deliver(_, _, at) => DeliverTells(c, s, i, x, at, f);
      case Notify(next, at) => NotifyTells(c, s, i, x, next, at, f);
    }
  }

  // ----- The steps of the other threads

  /** Another thread does not touch a record that nobody has seen. */
  lemma OthersLeaveUnseen(c: Config, s: State, n: nat, t: State, x: Item)
    requires Stepped(c, s, n, t) && x.tid != n && Unseen(s, x)
    ensures Unseen(t, x)
  {
    assert ThreadOk(c, s, n) && ThreadOk(c, t, n) && FlushOk(s, s.threads[n]);
    var p := s.threads[n];
    if HandsOver(p) {
      if p.source.FromQueue? { CarriedIsAccepted(c, s, n); }
      assert t.log[..|s.log|] == s.log;
    }
  }

  /** What the worker carries has been accepted. */
  lemma CarriedIsAccepted(c: Config, s: State, n: nat)
    requires Shape(c, s) && Flows(s) && n < |s.threads| && HandsOver(s.threads[n]) && s.threads[n].source.FromQueue?
    ensures s.threads[n].carried in s.accepted
  {
    assert ThreadOk(c, s, n) && ThreadOk(c, s, 0);
    assert Hand(s.threads[0]) == [s.threads[n].carried];
    assert s.accepted[|Written(s.log, true)|] == s.threads[n].carried;
  }

  lemma OthersStep(c: Config, s: State, n: nat, t: State, i: nat, x: Item, f: Found)
    requires Stepped(c, s, n, t) && n != i && x.tid == i && Stands(c, s, i, x, f)
    ensures Stands(c, t, i, x, f)
  {
    HistoryOnlyGrows(s, n, t);
    if Unseen(s, x) { OthersLeaveUnseen(c, s, n, t, x); }
    assert x in s.accepted ==> x in t.accepted;
    assert Wrote(x, false) in s.log ==> Wrote(x, false) in t.log;
  }

  // ----- The whole call

  lemma AnyStep(c: Config, s: State, n: nat, ch: Choice, i: nat, x: Item, f: Found)
    requires Inv(c, s) && Enabled(s, n, ch) && x.tid == i && Stands(c, s, i, x, f) && !s.threads[i].Idle?
    ensures var t := Next(c, s, n, ch);
      && |t.threads| == |s.threads|
      && Stands(c, t, i, x, if t.threads[i] == s.threads[i] then f else Finds(c, f, s, t, i))
  {
    StepInv(c, s, n, ch);
    if n == i {
      OwnStep(c, s, i, ch, x, f);
    } else {
      OthersStep(c, s, n, Next(c, s, n, ch), i, x, f);
    }
  }

  lemma {:induction false} CallStep(c: Config, producers: nat, run: seq<State>, i: nat, j: nat, k: nat, x: Item)
    requires Run(c, producers, run) && InCall(run, producers, i, j, k + 1, x) && j <= k && x.tid == i
    requires Stands(c, run[k], i, x, FoundBy(c, run, i, j, k))
    ensures Stands(c, run[k + 1], i, x, FoundBy(c, run, i, j, k + 1))
  {
    Reachable(c, producers, run, k);
    assert StepAt(c, run, k + 1);
    var n: nat, ch: Choice :| Enabled(run[k], n, ch) && run[k + 1] == Next(c, run[k], n, ch);
    AnyStep(c, run[k], n, ch, i, x, FoundBy(c, run, i, j, k));
  }

  lemma {:induction false} CallStands(c: Config, producers: nat, run: seq<State>, i: nat, j: nat, k: nat, x: Item)
    requires Run(c, producers, run) && InCall(run, producers, i, j, k, x)
    ensures x.tid == i && Stands(c, run[k], i, x, FoundBy(c, run, i, j, k))
    decreases k
  {
    if j == k {
      Reachable(c, producers, run, j);
      UntakenIsUnseen(c, run[j], i, x);
      assert ThreadOk(c, run[j], i);
    } else {
      CallStands(c, producers, run, i, j, k - 1, x);
      CallStep(c, producers, run, i, j, k - 1, x);
    }
  }

  /** What becomes of a record. When its Write returns, it has been queued if and only if the call found room;
      it has been handed over by its own thread if and only if the call found the queue full and the policy
      is to fall back; and it has been dropped if and only if the call was refused at once, found the flag
      cleared while it was waiting, gave up waiting at a full queue, or found the queue full and the policy is
      to drop. */
  lemma {:induction false} WriteOutcome(c: Config, producers: nat, run: seq<State>, i: nat, j: nat, k: nat, x: Item)
    requires Run(c, producers, run) && InCall(run, producers, i, j, k, x) && run[k].threads[i].Idle?
    ensures var f, s := FoundBy(c, run, i, j, k), run[k];
      && (x in s.accepted <==> f.room)
      && (Wrote(x, false) in s.log <==> f.full && c.policy.SyncFallback?)
      && (x in s.returned <==> f.room || (f.full && c.policy.SyncFallback?))
      && (x !in s.returned <==> f.refused || f.closed || f.expired || (f.full && c.policy.DropNewest?))
      && (f.closed ==> c.Blocks()) && (f.expired ==> c.policy.BlockForTimeout? && f.full)
  {
    CallStands(c, producers, run, i, j, k, x);
    Reachable(c, producers, run, k);
    FallenBackIsNotQueued(c, run[k], x);
  }

  lemma {:induction false} DirectlyWritten(log: seq<Event>, x: Item)
    requires Wrote(x, false) in log
    ensures x in Written(log, false) && x in Received(log)
  {
    var last, front := log[|log| - 1], log[..|log| - 1];
    if last != Wrote(x, false) {
      assert Wrote(x, false) in front;
      DirectlyWritten(front, x);
    }
  }

  lemma FallenBackIsNotQueued(c: Config, s: State, x: Item)
    requires Settled(c, s)
    ensures Wrote(x, false) in s.log ==> x !in s.accepted && x in Received(s.log)
  {
    if Wrote(x, false) in s.log { DirectlyWritten(s.log, x); }
  }

  // ----- The undisturbed call

  /** The call never finds the running flag cleared when it tests it, nor the queue full when it offers. */
  ghost predicate Undisturbed(c: Config, run: seq<State>, i: nat, j: nat, k: nat, x: Item)
    requires j <= k < |run| && forall m :: j <= m <= k ==> i < |run[m].threads|
  {
    && (forall m :: j <= m < k && run[m].threads[i] == Write(x, TestRunning) ==> run[m].running)
    && (forall m :: j <= m < k && run[m].threads[i] == Write(x, LoopTest) ==> run[m].running)
    && (forall m :: j <= m < k && run[m].threads[i] == Write(x, Offer) ==> |run[m].queue| < c.capacity)
  }

  lemma {:induction false} UndisturbedFinds(c: Config, producers: nat, run: seq<State>,
                                            i: nat, j: nat, k: nat, x: Item)
    requires Run(c, producers, run) && InCall(run, producers, i, j, k, x) && Undisturbed(c, run, i, j, k, x)
    ensures var f := FoundBy(c, run, i, j, k); !f.refused && !f.closed && !f.full
    decreases k
  {
    if j < k {
      UndisturbedFinds(c, producers, run, i, j, k - 1, x);
      CallStands(c, producers, run, i, j, k - 1, x);
    }
  }

  /** Under every policy: a Write whose tests find the sink running and whose offer finds room returns, and
      its record is queued, once, and not dropped. */
  lemma {:induction false} UndisturbedWriteIsAccepted(c: Config, producers: nat, run: seq<State>,
                                                      i: nat, j: nat, k: nat, x: Item)
    requires Run(c, producers, run) && InCall(run, producers, i, j, k, x) && Undisturbed(c, run, i, j, k, x)
    requires run[k].threads[i].Idle?
    ensures x in run[k].accepted && x in run[k].returned && Wrote(x, false) !in run[k].log
  {
    UndisturbedFinds(c, producers, run, i, j, k, x);
    WriteOutcome(c, producers, run, i, j, k, x);
  }
}
