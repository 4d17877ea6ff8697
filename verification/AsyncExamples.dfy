/** A run that shows where the promises of the asynchronous sink end. */
module AsyncExamples {
  import opened Basics
  import opened AsyncModel

  const DROPPING := Config(2, 1, DropNewest, false)
  const FIRST := Item(1, 0)

  /** The sink while the first record of thread 1 is neither queued nor dropped. */
  function Before(worker: Pc, writer: Pc, stopper: Pc, running: bool, log: seq<Event>): State {
    State([], running, 0, 0, 0, 0, 0, 0, 0, None, None, {}, [worker, writer, stopper], [0, 1, 0], 1, [], log, {}, 0)
  }

  const ANNOUNCING := Write(FIRST, Announce)

  /** The sink after the worker has stopped and the first record has been queued behind it. */
  function After(worker: Pc, writer: Pc, stopper: Pc): State {
    State([FIRST], false, 1, 0, 0, 0, 0, 0, 0, None, None, {}, [worker, writer, stopper], [0, 1, 0], 1,
          [FIRST], [Flushed({})], {}, 0)
  }

  /** A Write passes its test of the running flag, Shutdown clears the flag, the worker finds an
      empty queue and stops, and only then does the Write queue its record. */
  function SlipBehind(k: nat): State {
    match k
    case 0 => Init(2)
    case 1 => Before(Loop(Head), Write(FIRST, TestRunning), Idle, true, [])
    case 2 => Before(Loop(Head), ANNOUNCING, Idle, true, [])
    case 3 => Before(Loop(Head), ANNOUNCING, StopBegin, true, [])
    case 4 => Before(Loop(Head), ANNOUNCING, StopJoin, false, [])
    case 5 => Before(Loop(TestDrained), ANNOUNCING, StopJoin, false, [])
    case 6 => Before(Loop(FinalFlush), ANNOUNCING, StopJoin, false, [])
    case 7 => Before(Notify(ToStopped, TestCount), ANNOUNCING, StopJoin, false, [Flushed({})])
    case 8 => Before(Notify(ToStopped, TestQueue), ANNOUNCING, StopJoin, false, [Flushed({})])
    case 9 => Before(Notify(ToStopped, Wake), ANNOUNCING, StopJoin, false, [Flushed({})])
    case 10 => Before(Loop(Stopped), ANNOUNCING, StopJoin, false, [Flushed({})])
    case 11 => Before(Loop(Stopped), Write(FIRST, Offer), StopJoin, false, [Flushed({})]).(outstanding := 1)
    case 12 => After(Loop(Stopped), Write(FIRST, CountAccepted), StopJoin)
    case 13 => After(Loop(Stopped), Idle, StopJoin).(enqueued := 1, returned := {FIRST})
    case _ => After(Loop(Stopped), Idle, Idle).(enqueued := 1, returned := {FIRST})
  }

  lemma CallsBegin(k: nat)
    requires k < 4
    ensures Step(DROPPING, SlipBehind(k), SlipBehind(k + 1))
  {
    match k {
      case 0 => assert Next(DROPPING, SlipBehind(0), 1, CallWrite) == SlipBehind(1);
      case 1 => assert Next(DROPPING, SlipBehind(1), 1, Proceed) == SlipBehind(2);
      case 2 => assert Next(DROPPING, SlipBehind(2), 2, CallShutdown) == SlipBehind(3);
      case 3 => assert Next(DROPPING, SlipBehind(3), 2, Proceed) == SlipBehind(4);
    }
  }

  lemma WorkerStops(k: nat)
    requires 4 <= k < 10
    ensures Step(DROPPING, SlipBehind(k), SlipBehind(k + 1))
  {
    assert Next(DROPPING, SlipBehind(k), 0, Proceed) == SlipBehind(k + 1);
  }

  lemma RecordIsQueued(k: nat)
    requires 10 <= k < 14
    ensures Step(DROPPING, SlipBehind(k), SlipBehind(k + 1))
  {
    match k {
      case 10 => assert Next(DROPPING, SlipBehind(10), 1, Proceed) == SlipBehind(11);
      case 11 => assert Next(DROPPING, SlipBehind(11), 1, Proceed) == SlipBehind(12);
      case 12 => assert Next(DROPPING, SlipBehind(12), 1, Proceed) == SlipBehind(13);
      case _ => assert Next(DROPPING, SlipBehind(13), 2, Proceed) == SlipBehind(14);
    }
  }

  /** All calls have returned, the worker has stopped, and an accepted record is still queued. */
  lemma WriteSlipsBehindShutdown(run: seq<State>)
    requires run == seq(15, (k: nat) => SlipBehind(k))
    ensures Run(DROPPING, 2, run)
    ensures run[14].threads == [Loop(Stopped), Idle, Idle] && run[14].queue == [FIRST] && run[14].outstanding == 1
    ensures run[14].enqueued == 1 && run[14].delivered == 0 && run[14].dropped == 0
  {
    forall k | 0 < k < 15 ensures StepAt(DROPPING, run, k) {
      if k <= 4 { CallsBegin(k - 1); } else if k <= 10 { WorkerStops(k - 1); } else { RecordIsQueued(k - 1); }
    }
  }

  // ----- A fallback overtakes queued records of its own thread

  const FALLING_BACK := Config(2, 1, SyncFallback, false)
  const SECOND := Item(1, 1)
  const THIRD := Item(1, 2)

  /** The sink while its only application thread fills the queue and the worker has not begun. */
  function Filling(queue: seq<Item>, outstanding: int, returned: set<Item>, calls: nat, writer: Pc): State {
    State(queue, true, outstanding, |returned|, 0, 0, 0, 0, 0, None, None, {}, [Loop(Head), writer], [0, calls], calls,
          queue, [], returned, 0)
  }

  /** The same once the queue is full and the third record falls back. */
  function Fallen(worker: Pc, writer: Pc, queue: seq<Item>, delivered: nat, log: seq<Event>): State {
    State(queue, true, 3, 2, delivered, 0, 0, 1, 0, None, None, {}, [worker, writer], [0, 3], 3,
          [FIRST, SECOND], log, {FIRST, SECOND}, 0)
  }

  /** Two records are queued, the third finds the queue full and is delivered at once, and only then does
      the worker take the first. */
  function Overtake(k: nat): State {
    match k
    case 0 => Init(1)
    case 1 => Filling([], 0, {}, 1, Write(FIRST, TestRunning))
    case 2 => Filling([], 0, {}, 1, Write(FIRST, Announce))
    case 3 => Filling([], 1, {}, 1, Write(FIRST, Offer))
    case 4 => Filling([FIRST], 1, {}, 1, Write(FIRST, CountAccepted))
    case 5 => Filling([FIRST], 1, {FIRST}, 1, Idle)
    case 6 => Filling([FIRST], 1, {FIRST}, 2, Write(SECOND, TestRunning))
    case 7 => Filling([FIRST], 1, {FIRST}, 2, Write(SECOND, Announce))
    case 8 => Filling([FIRST], 2, {FIRST}, 2, Write(SECOND, Offer))
    case 9 => Filling([FIRST, SECOND], 2, {FIRST}, 2, Write(SECOND, CountAccepted))
    case 10 => Filling([FIRST, SECOND], 2, {FIRST, SECOND}, 2, Idle)
    case 11 => Filling([FIRST, SECOND], 2, {FIRST, SECOND}, 3, Write(THIRD, TestRunning))
    case 12 => Filling([FIRST, SECOND], 2, {FIRST, SECOND}, 3, Write(THIRD, Announce))
    case 13 => Filling([FIRST, SECOND], 3, {FIRST, SECOND}, 3, Write(THIRD, Offer))
    case 14 => Filling([FIRST, SECOND], 3, {FIRST, SECOND}, 3, Write(THIRD, Withdraw))
    case 15 => Filling([FIRST, SECOND], 2, {FIRST, SECOND}, 3, Notify(ToRejected(THIRD), TestCount))
    case 16 => Filling([FIRST, SECOND], 2, {FIRST, SECOND}, 3, Write(THIRD, FallbackAnnounce))
    case 17 => Filling([FIRST, SECOND], 3, {FIRST, SECOND}, 3, Write(THIRD, FallbackCount))
    case 18 => Fallen(Loop(Head), Deliver(THIRD, FromCaller, HandOver), [FIRST, SECOND], 0, [])
    case 19 =>
      Fallen(Loop(Head), Deliver(THIRD, FromCaller, CountDelivered), [FIRST, SECOND], 0, [Wrote(THIRD, false)])
      .(deliveryLock := Some(1))
    case 20 => Fallen(Loop(Head), Deliver(THIRD, FromCaller, Settle), [FIRST, SECOND], 1, [Wrote(THIRD, false)])
    case 21 => Fallen(Loop(Take(0)), Deliver(THIRD, FromCaller, Settle), [FIRST, SECOND], 1, [Wrote(THIRD, false)])
    case 22 =>
      Fallen(Deliver(FIRST, FromQueue(0), HandOver), Deliver(THIRD, FromCaller, Settle), [SECOND], 1,
             [Wrote(THIRD, false)])
    case _ =>
      Fallen(Deliver(FIRST, FromQueue(0), CountDelivered), Deliver(THIRD, FromCaller, Settle), [SECOND], 1,
             [Wrote(THIRD, false), Wrote(FIRST, true)]).(deliveryLock := Some(0))
  }

  lemma FirstIsQueued(k: nat)
    requires k < 5
    ensures Step(FALLING_BACK, Overtake(k), Overtake(k + 1))
  {
    assert Next(FALLING_BACK, Overtake(k), 1, CallWrite) == Overtake(k + 1);
  }

  lemma SecondIsQueued(k: nat)
    requires 5 <= k < 10
    ensures Step(FALLING_BACK, Overtake(k), Overtake(k + 1))
  {
    assert Next(FALLING_BACK, Overtake(k), 1, CallWrite) == Overtake(k + 1);
  }

  lemma ThirdFallsBack(k: nat)
    requires 10 <= k < 20
    ensures Step(FALLING_BACK, Overtake(k), Overtake(k + 1))
  {
    assert Next(FALLING_BACK, Overtake(k), 1, CallWrite) == Overtake(k + 1);
  }

  lemma WorkerComesLater(k: nat)
    requires 20 <= k < 23
    ensures Step(FALLING_BACK, Overtake(k), Overtake(k + 1))
  {
    assert Next(FALLING_BACK, Overtake(k), 0, Proceed) == Overtake(k + 1);
  }

  /** The thread's third record reaches the wrapped sink before its first. */
  lemma FallbackOvertakes(run: seq<State>)
    requires run == seq(24, (k: nat) => Overtake(k))
    ensures Run(FALLING_BACK, 1, run)
    ensures run[23].log == [Wrote(Item(1, 2), false), Wrote(Item(1, 0), true)]
  {
    forall k | 0 < k < 24 ensures StepAt(FALLING_BACK, run, k) {
      if k <= 5 {
        FirstIsQueued(k - 1);
      } else if k <= 10 {
        SecondIsQueued(k - 1);
      } else if k <= 20 {
        ThirdFallsBack(k - 1);
      } else {
        WorkerComesLater(k - 1);
      }
    }
  }
}
