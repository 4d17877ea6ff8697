# A verified model of NGIN.Log

NGIN.Log captures a log record in bounded buffers, merges it with a scoped context, hands it through a bounded
queue to a worker thread, prints it, and writes it to files that rotate. This project models these components and
proves what each keeps over every run. It checks with `dafny verify dfyconfig.toml`.

## The components

**The asynchronous sink** (the files named `Async…`) is a transition system. Every thread is a program
counter, and one step is one atomic access or one section under a lock. The number of application threads is
arbitrary, and each may call `Write`, `Flush` and `Shutdown` at any time. The history fields (`accepted`, `log`,
`returned`, `calls`, `started`, `exitMark`) name records and remember the past; no step reads them to decide
anything. The proof has four layers: what a step does to the counters (`AsyncCounts`), where threads can be and which
locks they hold (`AsyncShape`), what a step does to the rest (`AsyncEffects`), and the invariant (`AsyncInvariant`).
The theorems quantify over all finite runs: flushes, records and counters (`AsyncTheorems`), the order of records
(`AsyncOrder`), shutdown (`AsyncShutdown`, `AsyncStranding`), what becomes of the record of one call of `Write` under
each policy (`AsyncCalls`), which drops are timed and which are reported (`AsyncReports`), what has been done when
`Flush`, `Shutdown` and the worker come to their end (`AsyncReturns`), and which calls can complete by themselves
(`AsyncProgress`). `AsyncExamples` holds two runs.

| program counter | source lines in `include/NGIN/Log/Sinks/AsyncSink.hpp` |
|---|---|
| `Write(TestRunning)` | 83 |
| `Write(LoopTest)` | 341, 361 |
| `Write(Announce)`, `Offer`, `CountAccepted`, `Withdraw` | 317, 318, 325, 320 |
| `Write(SpaceTestRunning)`, `SpaceTestQueue` | 350, 370 |
| `Write(FallbackAnnounce)`, `FallbackCount` | 388, 389 |
| `Drop(CountDropped)`, `CountUnreported`, `CountTimed` | 305, 306, 312 |
| `Deliver(HandOver)`, `CountDelivered`, `Settle` | 545-548, 549, 391 and 487 |
| `Notify(TestCount)`, `TestQueue`, `Wake` | 559, 559, 561-562 |
| `Flush(Lock)`, `TestOutstanding`, `TestEmpty`, `Wait`, `Asleep`, `SinkFlush` | 109, 111, 111, 110, 110, 121 |
| `ReportTake`, `ReportEmit` | 406, 407-453 |
| `StopBegin`, `StopJoin` | 568, 576-579 |
| `Loop(Head)`, `TestDrained`, `Take`, `Nap`, `FinalFlush` | 475, 475, 478-484, 499-505, 514 |

`BoundedQueue` is the ring behind the queue: an array and two masked indices that hold exactly a bounded sequence.
The transition system's `queue` is that sequence; its steps `Offer` and `Take` are the contracts of `TryEnqueue` and
`TryDequeue`, each under the queue's own mutex.

**The rotating file sink** is a class over a file system that maps names to lists of lines. A line is the formatted
text of a record and the local date of its timestamp. `RotatingFileSink` proves each method against a function on
the sink's state, `RotatingFiles` says what a rotation does to names, `RotatingNeed` says from the files and
dates alone when a `Write` rotates, and `RotatingRuns` and `RotatingLimits` treat whole sequences of calls.

**Record capture**: `RecordBuilder` (a class over its fixed buffers, with views into the arena) and `BuilderRuns`
(what any calls leave behind), `Dispatch` (the in-place merge against its closed form, and who wins),
`OwnedRecords` (the copy that travels through the queue, over `InlineText` buffers). `Pipeline` joins them with the
JSON printer.

**The formatters**: `Formatting` (escaping, numbers, timestamps), `Json` (a printer and a parser for the part of
RFC 8259 that is used), `JsonFormatter`, `TextFormatters` (text, with its timestamp cache, and logfmt),
`LogFmtReader`, `TextReader` and `TailReader` (readers for the other two kinds of line). What a reader recovers is
stated of the record's own fields: the same text, truth value or integer, the same level, source and losses.

**The registry**: `Registry`, a class over a list of rules and a map of live loggers, against a map from prefix to
rule.

## Where the code does less than it seems to

- A `Write` that has passed its test of the running flag can queue its record after `Shutdown` has stopped the
  worker. `StrandingIsPossibleExactly` reads from the state beforehand whether that can still happen: once the flag is
  cleared, exactly if some thread is between its last test of the flag and its offer to the queue (the queue's
  capacity is never zero in the source). `StrandedExactly` says which records are stranded: those accepted after the
  worker left its loop, and no others. They stay (`StrandedForever`), so no later `Flush` ever passes its wait.
  `WriteSlipsBehindShutdown` is such a run. `SealedDrains` and `ShutdownDrains` are the promise under the condition
  that excludes it.
- A synchronous fallback overtakes records of its own thread. `FallbackOvertakesExactly` says which: those in the
  queue or in the worker's hand. `FallbackOvertakes` is such a run; `OnlyFallbacksOvertake` says that nothing else
  changes the order of one thread's records.
- Daily rotation can mix two dates in one file, because a new sink has not noted a date and a rotation by size skips
  the date test. `OneDayPerFileExactly` gives the exact condition on the first record that gets through: it must need
  no rotation by size, and have the date of what is in the current file, if there is anything. Otherwise a file found
  in append mode after a restart takes a record of another date at once (`OtherDateMixes`, `RestartMixesDates`), or
  the first record's date stays hidden and the next record joins it (`HiddenDateMixes`, `RestartHidesDate`,
  `OversizeFirstMixesDates`).
- Without append mode an open truncates an existing file: `Reopen` does so at once (`ReopenTruncates`), and after a
  `Reopen` that fails the next `Write` does (`FailedReopenTruncates`). `CallAccounts` says for every call in every
  state what is lost at either end, and `OnlyOpensTruncate` when.
- The keys of a dispatched record are distinct, but behind the asynchronous sink two of them can be equal: the owned
  copy keeps 256 bytes of a key and a context key may have 512. `PassedNamesAreUnique` gives the exact condition and
  `LongContextKeyClashes` a family of records that shows it.
- An attribute that the builder refuses still uses up the arena: its value is copied before the number of attributes
  is looked at, and the bytes are not given back. `BuilderKeepsPrefixes` accounts for them.
- The level that `GetOrCreate` asks for replaces the effective one if it is not `Info` and the effective level equals
  the default, even where a rule names that level (`RuleGivesWay`). `NewLoggerFollowsRules` says exactly when a new
  logger follows its rules.
- Logfmt keys are printed without quotation marks, so a key that contains an equals sign can pass for two attributes
  (`KeyForgesFields`). A reader recovers every field of a line if and only if no key contains one
  (`ReadsLogFmtExactly`).
- The text formatter does not escape brackets and blanks, so a logger's name can pass for part of a message
  (`LoggerForgesMessage`). A reader finds the name if and only if it contains no closing bracket followed by a blank
  (`ReadsTextExactly`), and the attributes, losses and source behind the message if and only if no key contains an
  equals sign (`ReadsTailExactly`).
- In an ISO timestamp style the JSON formatter prints the timestamp without quotation marks, and the line is no JSON
  text (`IsoIsNoJson`); nor is it with a double that is not finite. `ReadsBackExactly` says that these are the only
  two cases.

## Model

| member | source | states |
|---|---|---|
| AsyncCounts.StepCounts | include/NGIN/Log/Sinks/AsyncSink.hpp:303-393 | Between any two atomic accesses of any thread the outstanding counter is the queue's length plus the records in some thread's hands, and the other counters account for every record and every drop. |
| AsyncShape.StepShape | include/NGIN/Log/Sinks/AsyncSink.hpp:106-113 | Every step leaves each lock with exactly the thread whose program counter says so, and each thread with the record of its own latest call. |
| AsyncEffects.StepEffect | include/NGIN/Log/Sinks/AsyncSink.hpp:473-564 | A step moves records only from a Write to the queue, from the queue to the worker, and from a hand to the wrapped sink; whoever finishes work owes a notification. |
| AsyncInvariant.StepInv | include/NGIN/Log/Sinks/AsyncSink.hpp:81-580 | The whole invariant is kept by every step of every thread. |
| AsyncInvariant.NothingOutstanding | include/NGIN/Log/Sinks/AsyncSink.hpp:110-112 | A zero outstanding counter means an empty queue, everything accepted handed over, and every undropped returned Write with the wrapped sink. |
| AsyncInvariant.Reachable | include/NGIN/Log/Sinks/AsyncSink.hpp:81-580 | Every state of every run, with any number of threads, satisfies the invariant. |
| AsyncTheorems.FlushIsNeverForgotten | include/NGIN/Log/Sinks/AsyncSink.hpp:106-113 | While a flush waits and no work is outstanding, some thread is committed to notifying it; the worker's timed nap is not needed. |
| AsyncTheorems.PromiseIsKept | include/NGIN/Log/Sinks/AsyncSink.hpp:557-564 | A thread gives up its commitment to notify only if work is outstanding again or no flush is waiting any more. |
| AsyncTheorems.FlushBarrier | include/NGIN/Log/Sinks/AsyncSink.hpp:106-122 | When a Flush goes on to flush the wrapped sink, that sink has received every record whose Write returned undropped before the Flush began. |
| AsyncTheorems.FlushKeepsItsDebt | include/NGIN/Log/Sinks/AsyncSink.hpp:106-122 | What a Flush has to see through is fixed when it is called. |
| AsyncTheorems.DeliveredOnceInOrder | include/NGIN/Log/Sinks/AsyncSink.hpp:315-393 | No record reaches the wrapped sink twice; without the fallback policy each thread's records reach it in the order of its calls. |
| AsyncTheorems.DeliveredIsPrefix | include/NGIN/Log/Sinks/AsyncSink.hpp:157-183 | What the worker has delivered is a prefix of what the queue accepted; the queue is what is left, except at most one record in the worker's hand, and never exceeds its capacity. |
| AsyncTheorems.CountersAlways | include/NGIN/Log/Sinks/AsyncSink.hpp:303-313 | In every state: outstanding is the queue's length plus the records in hand, each Write is counted once or under way, each drop is reported once, pending or in the hands of a thread, timed drops are drops, and blocking or falling back drops nothing while the sink runs. |
| AsyncTheorems.CountersAtRest | include/NGIN/Log/Sinks/AsyncSink.hpp:124-136 | At rest each Write has been counted once, delivered is enqueued plus fallbacks, and every drop is reported or pending, once. |
| AsyncCalls.OfferExactly | include/NGIN/Log/Sinks/AsyncSink.hpp:157-169 | In every run a record that is offered becomes the newest of the queue if and only if the queue is below its capacity; otherwise the queue is exactly full and stays as it is. |
| AsyncCalls.WriteOutcome | include/NGIN/Log/Sinks/AsyncSink.hpp:81-104 | For every call of Write: its record has been queued exactly if the call found room, handed over by its own thread exactly if it found the queue full and falls back, and dropped exactly if it was refused at once, found the flag cleared while waiting, gave up waiting at a full queue, or found the queue full and drops. |
| AsyncCalls.UndisturbedWriteIsAccepted | include/NGIN/Log/Sinks/AsyncSink.hpp:315-378 | Under every policy, a Write whose tests find the sink running and whose offer finds room returns with its record queued and not dropped. |
| AsyncReports.TimedDropsExactly | include/NGIN/Log/Sinks/AsyncSink.hpp:303-313 | Under BlockForTimeout the timed drops, with those in hand, are all drops except those of Writes refused at once; under the other policies there are none. |
| AsyncReports.TimedDropsAtRest | include/NGIN/Log/Sinks/AsyncSink.hpp:303-313 | At rest the timed drops are the drops less the refusals. |
| AsyncReports.ReportsCatchUp | include/NGIN/Log/Sinks/AsyncSink.hpp:404-453 | If reports are wanted, whoever flushes the wrapped sink has first seen every drop reported that had been recorded before its last report. |
| AsyncReports.NoReportsUnlessWanted | include/NGIN/Log/Sinks/AsyncSink.hpp:115-119 | If reports are not wanted, none is ever made. |
| AsyncReturns.FlushCall | include/NGIN/Log/Sinks/AsyncSink.hpp:106-122 | A Flush returns right after flushing the wrapped sink, which by then has every record whose Write had returned undropped and every report of a drop recorded before the call. |
| AsyncReturns.StopsByFlush | include/NGIN/Log/Sinks/AsyncSink.hpp:508-516 | When the worker has stopped, the wrapped sink has been flushed since the last record from the queue. |
| AsyncReturns.ShutdownCall | include/NGIN/Log/Sinks/AsyncSink.hpp:566-580 | The first Shutdown returns only when the worker has stopped, has flushed the wrapped sink and, if reports are wanted, has reported all drops recorded before; a later one returns at once; the flag stays cleared. |
| AsyncReturns.BatchesAreBounded | include/NGIN/Log/Sinks/AsyncSink.hpp:477-505 | The worker takes at most a batch at a time, ends a batch only if it is full or the queue is empty, and naps exactly after a batch that found nothing. |
| AsyncProgress.WriteReturnsAlone | include/NGIN/Log/Sinks/AsyncSink.hpp:315-393 | A Write that runs by itself returns, unless its policy is to wait without limit while the sink runs with a full queue, or another thread holds a mutex. |
| AsyncProgress.WriteAlone | include/NGIN/Log/Sinks/AsyncSink.hpp:81-104 | While the sink runs and has room, any idle thread can write a record by itself, and the record is queued. |
| AsyncProgress.FlushReturnsAlone | include/NGIN/Log/Sinks/AsyncSink.hpp:106-122 | A Flush that runs by itself when nothing is left to do, even one that has just been woken, reports the pending drops if wanted, flushes the wrapped sink and returns. |
| AsyncProgress.FlushAlone | include/NGIN/Log/Sinks/AsyncSink.hpp:106-122 | When nothing is left to do, any idle thread can flush the sink by itself. |
| AsyncProgress.ShutdownAlone | include/NGIN/Log/Sinks/AsyncSink.hpp:566-580 | The first Shutdown can return by itself once the worker has stopped, a later one at once. |
| AsyncProgress.WorkerServesAlone | include/NGIN/Log/Sinks/AsyncSink.hpp:473-489 | A worker between batches hands over the oldest queued record next, if it runs by itself. |
| AsyncOrder.OnlyFallbacksOvertake | include/NGIN/Log/Sinks/AsyncSink.hpp:381-393 | Two records of one thread arrive in the order of their calls unless the first fell back and the second was queued. |
| AsyncOrder.FallbackOvertakesExactly | include/NGIN/Log/Sinks/AsyncSink.hpp:381-393 | A fallback overtakes exactly those records of its thread that are in the queue or in the worker's hand at that moment. |
| AsyncExamples.FallbackOvertakes | include/NGIN/Log/Sinks/AsyncSink.hpp:381-393 | A run in which a thread's third record arrives before its first. |
| AsyncShutdown.ShutdownDrains | include/NGIN/Log/Sinks/AsyncSink.hpp:473-516 | If no Write is past its test of the running flag while the worker still loops, a stopped worker has delivered everything and left nothing outstanding. |
| AsyncShutdown.StrandedExactly | include/NGIN/Log/Sinks/AsyncSink.hpp:81-104 | Once the worker has left its loop, the queue holds exactly the records accepted since; everything is delivered if and only if there are none. |
| AsyncShutdown.StrandedForever | include/NGIN/Log/Sinks/AsyncSink.hpp:106-113 | A stranded record is never delivered and keeps the outstanding counter positive for ever. |
| AsyncExamples.WriteSlipsBehindShutdown | include/NGIN/Log/Sinks/AsyncSink.hpp:566-580 | A run in which Shutdown and Write have both returned and an accepted record remains queued. |
| AsyncShutdown.LaterWritesAreDropped | include/NGIN/Log/Sinks/AsyncSink.hpp:83-87 | After shutdown every Write ends as exactly one drop. |
| AsyncShutdown.RunFreezes | include/NGIN/Log/Sinks/AsyncSink.hpp:566-580 | A closing sink stays closing, and accepts and falls back no more. |
| AsyncShutdown.WorkerTerminates | include/NGIN/Log/Sinks/AsyncSink.hpp:473-516 | The steps the worker takes once the sink is closing are bounded by a measure of the queue and its position. |
| AsyncShutdown.WorkerIsNeverStuck | include/NGIN/Log/Sinks/AsyncSink.hpp:473-516 | A worker that has not stopped can move, or the holder of the lock it waits for can. |
| AsyncStranding.LeftMeansClosed | include/NGIN/Log/Sinks/AsyncSink.hpp:475 | The worker leaves its loop only after the running flag has been cleared. |
| AsyncStranding.SealedDrains | include/NGIN/Log/Sinks/AsyncSink.hpp:473-516 | Once the flag is cleared and no thread is about to offer a record, a stopped worker has delivered everything accepted, even if Writes that wait for space are still under way. |
| AsyncStranding.WorkerCanStop | include/NGIN/Log/Sinks/AsyncSink.hpp:473-516 | From any state with the flag cleared, the worker and the holders of locks alone can bring the worker to its stop, while a thread that is about to offer stays where it is. |
| AsyncStranding.StrandingIsPossibleExactly | include/NGIN/Log/Sinks/AsyncSink.hpp:315-329 | With the flag cleared or the worker out of its loop, and nothing left behind yet, some continuation strands a record if and only if some thread is about to offer one and the queue has room for any. |
| BoundedQueue.MaskWraps | include/NGIN/Log/Sinks/AsyncSink.hpp:166 | Masking an index with capacity minus one goes once around a ring whose capacity is a power of two. |
| BoundedQueue.MpscBoundedQueue.constructor | include/NGIN/Log/Sinks/AsyncSink.hpp:203-206 | A new ring is an empty queue of its capacity. |
| BoundedQueue.MpscBoundedQueue.TryEnqueue | include/NGIN/Log/Sinks/AsyncSink.hpp:157-169 | Appends to the queued sequence exactly if it is below capacity; a refused attempt changes neither queue nor slots. |
| BoundedQueue.MpscBoundedQueue.TryDequeue | include/NGIN/Log/Sinks/AsyncSink.hpp:171-183 | Takes the oldest record off, exactly if there is one. |
| BoundedQueue.MpscBoundedQueue.CanEnqueue | include/NGIN/Log/Sinks/AsyncSink.hpp:191-194 | Says whether the queued sequence is below capacity. |
| BoundedQueue.MpscBoundedQueue.IsEmpty | include/NGIN/Log/Sinks/AsyncSink.hpp:196-199 | Says whether anything is queued. |
| RotatingFiles.SlotsDiffer | src/NGIN/Log/Sinks/RotatingFileSink.cpp:193-200 | Different numbers give different file names. |
| RotatingFiles.SlotNames | src/NGIN/Log/Sinks/RotatingFileSink.cpp:193-200 | An archive's name is the path, a dot and the number's digits without leading zeros. |
| RotatingFiles.GapMovesDown | src/NGIN/Log/Sinks/RotatingFileSink.cpp:197-206 | One turn of the rename loop never lands on an existing file and moves the gap one number down. |
| RotatingFiles.ShiftIsUnique | src/NGIN/Log/Sinks/RotatingFileSink.cpp:186-216 | The law of a rotation (each file one number up, the oldest dropped, all other names untouched, gaps kept) has one result for any files. |
| RotatingFiles.ShiftIsShift | src/NGIN/Log/Sinks/RotatingFileSink.cpp:186-216 | The shifted files obey that law. |
| RotatingFileSink.RotatingFileSink.constructor | src/NGIN/Log/Sinks/RotatingFileSink.cpp:64-75 | A new sink has opened its file and, if asked, rotated once. |
| RotatingFileSink.RotatingFileSink.OpenFileLocked | src/NGIN/Log/Sinks/RotatingFileSink.cpp:155-173 | Opens the file, keeps or truncates its content, and takes over its size; a failure leaves the files alone. |
| RotatingFileSink.RotatingFileSink.CloseFileLocked | src/NGIN/Log/Sinks/RotatingFileSink.cpp:175-184 | Closes the file and changes nothing on disk. |
| RotatingFileSink.RotatingFileSink.RotateLocked | src/NGIN/Log/Sinks/RotatingFileSink.cpp:186-220 | The files are shifted, the current one is new, and nothing but the oldest file's content is destroyed. |
| RotatingFileSink.RotatingFileSink.ShiftFiles | src/NGIN/Log/Sinks/RotatingFileSink.cpp:190-216 | The countdown loop of renames is the shift of all numbered names at once. |
| RotatingFileSink.RotatingFileSink.ShouldRotateByDateLocked | src/NGIN/Log/Sinks/RotatingFileSink.cpp:222-243 | Asks for a rotation if a date was noted and the record's differs, and notes the record's; WriteRotatesExactly says what follows from it. |
| RotatingFileSink.RotatingFileSink.MakeRoom | src/NGIN/Log/Sinks/RotatingFileSink.cpp:127-131 | Rotates if the size or else the date demands it; the date is not looked at when the size has decided. |
| RotatingFileSink.RotatingFileSink.Write | src/NGIN/Log/Sinks/RotatingFileSink.cpp:102-144 | Opens, makes room, reopens if needed and appends the line to the current file, whose size the sink knows throughout. |
| RotatingFileSink.RotatingFileSink.ForceRotate | src/NGIN/Log/Sinks/RotatingFileSink.cpp:96-100 | Rotates whatever the limits say. |
| RotatingFileSink.RotatingFileSink.Reopen | src/NGIN/Log/Sinks/RotatingFileSink.cpp:89-94 | Opens the file afresh. |
| RotatingNeed.WriteRotatesExactly | src/NGIN/Log/Sinks/RotatingFileSink.cpp:127-139 | On an open file: if the record fits the file on disk and has the noted date, all files stay as they were and it goes behind the current one; otherwise every file moves one number up and the record is alone, unless the new file cannot be opened. |
| RotatingNeed.ClosedWriteOpensFirst | src/NGIN/Log/Sinks/RotatingFileSink.cpp:117-120 | A Write to a closed file goes on as one to the opened file, whose content is kept in append mode and gone otherwise; if it cannot be opened, nothing changes. |
| RotatingNeed.FittingRunAppends | src/NGIN/Log/Sinks/RotatingFileSink.cpp:102-144 | Writes of one day that fit together into the open file never rotate. |
| RotatingNeed.RunLeavesOthers | src/NGIN/Log/Sinks/RotatingFileSink.cpp:186-216 | No calls touch a file under any name but the sink's own and its numbered ones. |
| RotatingRuns.CallKeeps | src/NGIN/Log/Sinks/RotatingFileSink.cpp:96-144 | A call pushes whole records off the oldest end and adds its own at the newest; nothing else happens to what is retained. |
| RotatingRuns.CallAccounts | src/NGIN/Log/Sinks/RotatingFileSink.cpp:89-144 | In every state a call destroys at the newest end exactly what it overwrites by opening, pushes whole records off the oldest end, and adds its own. |
| RotatingRuns.OnlyOpensTruncate | src/NGIN/Log/Sinks/RotatingFileSink.cpp:155-158 | Records are lost at the newest end only by Reopen in truncating mode, or by an open that is due in that mode on an existing file. |
| RotatingRuns.FailedReopenTruncates | src/NGIN/Log/Sinks/RotatingFileSink.cpp:89-94 | In truncating mode a Reopen that fails loses nothing, but the Write that opens the file next loses all of it. |
| RotatingRuns.UntruncatedRunKeepsSuffix | src/NGIN/Log/Sinks/RotatingFileSink.cpp:96-144 | In any run in which no call truncates, the retained files are a suffix, cut between records, of the first content followed by all that was written. |
| RotatingRuns.RunKeepsSuffix | src/NGIN/Log/Sinks/RotatingFileSink.cpp:96-144 | After any calls the retained files, read from oldest to newest, are a suffix, cut between records, of the first content followed by all that was written. |
| RotatingRuns.RunKeepsAll | src/NGIN/Log/Sinks/RotatingFileSink.cpp:186-220 | While there are no more rotations than free numbers, nothing at all is lost. |
| RotatingRuns.ReopenTruncates | src/NGIN/Log/Sinks/RotatingFileSink.cpp:89-94 | In truncating mode a Reopen that succeeds loses exactly the current file's content. |
| RotatingLimits.WriteStaysWithin | src/NGIN/Log/Sinks/RotatingFileSink.cpp:127-139 | After a Write the known size is the file's size, and the file is within the limit or is one oversize record. |
| RotatingLimits.RunFits | src/NGIN/Log/Sinks/RotatingFileSink.cpp:127-139 | If files and records are within the limit, every retained file stays within it. |
| RotatingLimits.RetainedBytesAreBounded | src/NGIN/Log/Sinks/RotatingFileSink.cpp:127-139 | Then all retained bytes together never exceed the limit times the number of files plus one. |
| RotatingLimits.RunKeepsOneDayPerFile | src/NGIN/Log/Sinks/RotatingFileSink.cpp:222-243 | With daily rotation, dates that do not go back, files of one date each at first, and a first record that needs no rotation by size and has the date of what it joins, no file ever mixes two dates, even though the noted date may be stale. |
| RotatingLimits.OtherDateMixes | src/NGIN/Log/Sinks/RotatingFileSink.cpp:230-234 | A sink that has noted no date puts its first record behind records of another date. |
| RotatingLimits.HiddenDateMixes | src/NGIN/Log/Sinks/RotatingFileSink.cpp:127-131 | After a first record that rotates by size, the next that fits behind it shares its file whatever its date. |
| RotatingLimits.OversizeFirstMixesDates | src/NGIN/Log/Sinks/RotatingFileSink.cpp:127-131 | After an oversize first record the two next ones that fit together share a file whatever their dates. |
| RotatingLimits.RestartMixesDates | src/NGIN/Log/Sinks/RotatingFileSink.cpp:230-234 | An example: yesterday's file, found in append mode, takes today's first record. |
| RotatingLimits.RestartHidesDate | src/NGIN/Log/Sinks/RotatingFileSink.cpp:127-131 | An example: today's nearly full file makes a small first record rotate, and tomorrow's joins it. |
| RotatingLimits.OneDayPerFileExactly | src/NGIN/Log/Sinks/RotatingFileSink.cpp:127-131 | Whatever is in the current file, the dates stay apart for every continuation in order if and only if the first record to get through needs no rotation by size and has the date of what is in that file. |
| RecordBuilder.RecordBuilder.Message | include/NGIN/Log/RecordBuilder.hpp:30-44 | Stores the front of the message and counts the rest; attributes and their texts are untouched. |
| RecordBuilder.RecordBuilder.CopyText | include/NGIN/Log/RecordBuilder.hpp:84-110 | Copies what fits behind the texts that are there, counts the rest, and returns a view of the copy. |
| RecordBuilder.RecordBuilder.CopyAttributeValue | include/NGIN/Log/RecordBuilder.hpp:144-159 | Copies the text of a value; stored attributes keep reading the same. |
| RecordBuilder.RecordBuilder.AppendAttribute | include/NGIN/Log/RecordBuilder.hpp:225-237 | Adds an attribute with its key copied, or counts a refusal beyond the eighth. |
| RecordBuilder.RecordBuilder.Attr | include/NGIN/Log/RecordBuilder.hpp:46-61 | Copies the value's text and then the key's; all views stay in bounds, disjoint and unchanged. |
| RecordBuilder.ViewsStay | include/NGIN/Log/RecordBuilder.hpp:98-102 | Stored views keep their bytes when more text is copied. |
| RecordBuilder.SlotAdded | include/NGIN/Log/RecordBuilder.hpp:225-237 | A new slot overlaps no other and reads as the attribute that was stored. |
| BuilderRuns.BuilderKeepsPrefixes | include/NGIN/Log/RecordBuilder.hpp:30-110 | After any calls: the last message's front, the first eight attributes each cut short at most, the arena the first 256 bytes of all text that asked for room, and both counters exactly the loss modulo 2^32. |
| BuilderRuns.BuilderCutsExactly | include/NGIN/Log/RecordBuilder.hpp:84-110 | Of each stored attribute exactly as much of the text and then of the key is kept as the arena has room for behind all that has asked before. |
| Dispatch.MergeIsClosedForm | include/NGIN/Log/Logger.hpp:334-365 | The in-place merge yields the first eight distinct keys in order of first appearance, each with the value and kind last offered for it, and refuses exactly the offers with other keys. |
| Dispatch.MergedKeysAreDistinct | include/NGIN/Log/Logger.hpp:334-351 | The merged keys are pairwise distinct. |
| Dispatch.AppendOrReplace | include/NGIN/Log/Logger.hpp:334-351 | Replaces the attribute with the same key, else appends, else counts a refusal. |
| Dispatch.CopyContextText | include/NGIN/Log/Logger.hpp:259-288 | Copies what fits behind the texts that are there and leaves those alone, and counts the rest. |
| Dispatch.CopyContextEntry | include/NGIN/Log/Logger.hpp:290-309 | Of an entry first the key and then the value is copied; a value that is no text passes as it is. |
| Dispatch.OfferContext | include/NGIN/Log/Logger.hpp:353-360 | The context is copied and offered entry by entry, in order. |
| Dispatch.MergeAttributes | include/NGIN/Log/Logger.hpp:327-377 | The context's entries, cut to the room there is, are offered first and the builder's attributes after them; the record holds the closed form of that merge, and both counters start from the builder's and rise, modulo 2^32, by exactly what is refused and lost. |
| Dispatch.MergeOfExactly | include/NGIN/Log/Logger.hpp:327-377 | The same of the function that MergeAttributes computes. |
| Dispatch.BuilderWins | include/NGIN/Log/Logger.hpp:334-365 | Under each key the record holds the builder's last attribute with that key, value and kind, if the builder has one, and otherwise the context's last entry with it. |
| Dispatch.FewKeysHavePlaces | include/NGIN/Log/Logger.hpp:334-365 | If at most eight keys are offered, each has a place and nothing is refused. |
| Dispatch.ContextIsCutExactly | include/NGIN/Log/Logger.hpp:259-309 | Of each context entry exactly as much of the key and then of the text is kept as the arena has room for behind all that has asked before. |
| Dispatch.ContextKeepsPrefixes | include/NGIN/Log/Logger.hpp:259-309 | The context's arena holds the first 512 bytes of all its keys and texts, each offer is its entry, cut short at most and whole if all fits, and the loss is counted modulo 2^32. |
| OwnedRecords.InlineText.Assign | include/NGIN/Log/Types.hpp:50-65 | The view is the input's front, and the rest is counted. |
| OwnedRecords.ToOwned | include/NGIN/Log/Sinks/AsyncSink.hpp:209-253 | The owned copy reads, field by field, as the record with its texts and attributes cut to the buffers and the counters raised. |
| OwnedRecords.Deliver | include/NGIN/Log/Sinks/AsyncSink.hpp:518-543 | The rebuilt view is the record that the owned copy reads as. |
| OwnedRecords.Pass | include/NGIN/Log/Sinks/AsyncSink.hpp:209-253 | Copied, and rebuilt for the wrapped sink, a record is the one whose cuts and losses PassageCutsAndCounts states. |
| OwnedRecords.PassageCutsAndCounts | include/NGIN/Log/Sinks/AsyncSink.hpp:209-253 | Texts are cut to the buffers' sizes, the first eight attributes stay, both counters rise, modulo 2^32, by exactly what is gone, and the other fields are untouched. |
| OwnedRecords.PassageIsExact | include/NGIN/Log/Sinks/AsyncSink.hpp:209-274 | A record passes unchanged if and only if it fits the buffers, and a second passage changes nothing. |
| Formatting.UnescapeEscape | src/NGIN/Log/FormattingUtilities.hpp:60-85 | The text escape can be undone. |
| Formatting.EscapesAre | src/NGIN/Log/FormattingUtilities.hpp:60-114 | Which characters have a short escape in both kinds of text, in JSON only, in hexadecimal, or none. |
| Formatting.AppendEscapedText | src/NGIN/Log/FormattingUtilities.hpp:60-85 | Appends the escaped text to what is there. |
| Formatting.AppendJsonEscapedText | src/NGIN/Log/FormattingUtilities.hpp:87-114 | Appends the text escaped for JSON. |
| Formatting.AppendUnsigned | src/NGIN/Log/FormattingUtilities.hpp:21-29 | Appends the decimal numeral of any 64-bit number; the buffer never fails. |
| Formatting.AppendSigned | src/NGIN/Log/FormattingUtilities.hpp:31-39 | The same for signed numbers. |
| Decimal.NumberOfDec | src/NGIN/Log/FormattingUtilities.hpp:21-29 | A numeral denotes the number it was printed from. |
| Formatting.AppendTimestamp | src/NGIN/Log/FormattingUtilities.hpp:251-303 | With or without cached parts, appends the timestamp that an uncached printer would. |
| Formatting.FractionIsExact | src/NGIN/Log/FormattingUtilities.hpp:283-297 | An ISO fraction has nine digits, and seconds and fraction together give the timestamp back. |
| Formatting.TimestampExactly | src/NGIN/Log/FormattingUtilities.hpp:251-303 | An epoch text is the numeral of the nanoseconds or of the whole milliseconds; an ISO text is the calendar's text of a second, a dot, nine digits and the zone, and second and digits together are the timestamp. |
| Json.ParseEscaped | src/NGIN/Log/FormattingUtilities.hpp:87-114 | A parser of JSON strings reads an escaped text back. |
| Json.ParseShow | src/NGIN/Log/FormattingUtilities.hpp:147-176 | The parser gives back every value that was printed, and leaves what comes behind it. |
| Json.NumberShows | src/NGIN/Log/FormattingUtilities.hpp:41-51 | The text of a double that is a number of JSON is what its value is printed as. |
| JsonFormatter.Format | src/NGIN/Log/RecordFormatter.cpp:86-125 | The line is the text of one JSON object with nine members, and a newline. |
| JsonFormatter.AppendAttributes | src/NGIN/Log/RecordFormatter.cpp:107-118 | The attributes are printed as the members of one object, in order; ReadsBackExactly says what a reader makes of each. |
| JsonFormatter.ReadsBackExactly | src/NGIN/Log/RecordFormatter.cpp:86-125 | A reader recovers level, logger, message, source file and line, thread, each attribute's key with the same truth value, integer or text, and both truncation counts, if and only if the timestamp style is an epoch style and every double is printed as a number of JSON. |
| JsonFormatter.ReadUndoesFormat | src/NGIN/Log/RecordFormatter.cpp:86-125 | One half of that: under this condition every field of the record is recovered. |
| JsonFormatter.NamesAreLevels | include/NGIN/Log/LogLevel.hpp:22-35 | A name stands for a level exactly if it is that level's own name. |
| JsonFormatter.IsoIsNoJson | src/NGIN/Log/FormattingUtilities.hpp:266-281 | In an ISO style the line is no JSON text. |
| JsonFormatter.LinesAreInjective | src/NGIN/Log/RecordFormatter.cpp:86-125 | Records that print alike agree in all these fields. |
| TextFormatters.TextRecordFormatter.Format | src/NGIN/Log/RecordFormatter.cpp:12-79 | Whatever was formatted before, the line is the one that a formatter without a cache prints. |
| TextFormatters.TextRecordFormatter.AppendCachedTimestamp | src/NGIN/Log/RecordFormatter.cpp:18-35 | The cache, refreshed when the second changes, never shows. |
| TextFormatters.FormatLogFmt | src/NGIN/Log/RecordFormatter.cpp:132-175 | Prints head, source, attributes and losses in this order, every text escaped and the fields separated by blanks. |
| TextFormatters.OneLinePerRecord | src/NGIN/Log/RecordFormatter.cpp:12-79 | Each text and each logfmt line contains one newline, its last character, whatever the record's texts contain. |
| LogFmtReader.LineShown | src/NGIN/Log/RecordFormatter.cpp:132-175 | A logfmt line is the text of its fields: time, level, logger, message and thread, then the source, the attributes in order and the losses. |
| LogFmtReader.ReadsLogFmtExactly | src/NGIN/Log/RecordFormatter.cpp:132-175 | A reader recovers every field of the line in order, texts unescaped, if and only if no key contains an equals sign. |
| LogFmtReader.ReadUndoesLogFmt | src/NGIN/Log/RecordFormatter.cpp:132-175 | One half of that: without such keys every field is recovered, and tells the record's time, level, texts, thread, source, attribute values and losses. |
| LogFmtReader.LineFieldsTell | src/NGIN/Log/RecordFormatter.cpp:132-175 | The fields of a line tell the record: the same texts, truth values and integers, the level, the source and both losses, each under its own name. |
| LogFmtReader.LogFmtIsInjective | src/NGIN/Log/RecordFormatter.cpp:132-175 | Records without such keys that print alike agree in every field. |
| LogFmtReader.KeyForgesFields | src/NGIN/Log/RecordFormatter.cpp:158-164 | A record with one attribute and a record with two that print the same line. |
| TextReader.ReadsTextExactly | src/NGIN/Log/RecordFormatter.cpp:17-79 | A reader finds time, level, logger and what comes behind in a text line if and only if the logger's name contains no closing bracket followed by a blank. |
| TextReader.PlainMessageIsRead | src/NGIN/Log/RecordFormatter.cpp:36-41 | Without attributes, losses and source the message is recovered too. |
| TextReader.LoggerForgesMessage | src/NGIN/Log/RecordFormatter.cpp:36-41 | Two records with different loggers and messages that print the same line. |
| TailReader.ReadsTailExactly | src/NGIN/Log/RecordFormatter.cpp:43-76 | A reader recovers what is printed behind the message, each attribute in order, both losses and the source, if and only if no key contains an equals sign. |
| TailReader.LineTells | src/NGIN/Log/RecordFormatter.cpp:17-79 | A text line whose logger has no mark and whose keys have no equals sign tells the whole record. |
| Pipeline.DispatchedNamesAreUnique | include/NGIN/Log/Logger.hpp:334-365 | The attributes object printed for a dispatched record never repeats a name. |
| Pipeline.PassedNamesAreUnique | include/NGIN/Log/Sinks/AsyncSink.hpp:228-233 | Behind the asynchronous sink names stay unique if and only if no key is the 256-byte front of a longer one. |
| Pipeline.LongContextKeyClashes | include/NGIN/Log/Sinks/AsyncSink.hpp:228-233 | A context key of 257 bytes and a builder key of its first 256 end up under one name. |
| Pipeline.OneLongKey | include/NGIN/Log/Logger.hpp:259-288 | At most one of the keys of a record can be longer than an owned copy keeps. |
| Pipeline.DispatchedFits | include/NGIN/Log/Types.hpp:86-98 | A dispatched record fits the owned copy if the logger's name and the context's texts do. |
| Pipeline.WholeWay | src/NGIN/Log/RecordFormatter.cpp:86-125 | Built, merged, passed through the queue, printed and read: the reader gets what the queue delivered, and the dispatched record itself if the texts fit. |
| Pipeline.DispatchedExactly | include/NGIN/Log/Logger.hpp:327-377 | A dispatched record has the level, source, thread, time and logger of its call, the front of the last message, and the builder's attributes merged over the context's, with every loss counted modulo 2^32. |
| Registry.MatchesAtBoundary | include/NGIN/Log/LoggerRegistry.hpp:33-46 | A prefix matches if and only if it is a leading part of the name that ends at the name's end, at a dot, or is empty. |
| Registry.EqualLengthsAreEqual | include/NGIN/Log/LoggerRegistry.hpp:205-208 | Two matching prefixes of one length are the same prefix. |
| Registry.LookupSome | include/NGIN/Log/LoggerRegistry.hpp:197-209 | Looking up ever shorter leading parts of a name finds the rule of the longest matching prefix. |
| Registry.LoggerRegistry.ComputeEffectiveConfigLocked | include/NGIN/Log/LoggerRegistry.hpp:190-224 | One pass over the rules in any order: level and sinks are those of the matching rule with the longest prefix, where it names them, and the defaults otherwise. |
| Registry.EffectiveExactly | include/NGIN/Log/LoggerRegistry.hpp:190-224 | A configuration is the effective one of a name if and only if each of its settings is that of the longest matching rule, if it names one, and otherwise the default. |
| Registry.OrderIsIrrelevant | include/NGIN/Log/LoggerRegistry.hpp:197-209 | The effective configuration does not depend on the order of the rules. |
| Registry.ChildInherits | include/NGIN/Log/LoggerRegistry.hpp:190-224 | A child logger has its parent's configuration unless a rule matches the child more closely. |
| Registry.LoggerRegistry.constructor | include/NGIN/Log/LoggerRegistry.hpp:241-245 | A new registry has no rules, no loggers, level Info and no sinks. |
| Registry.LoggerRegistry.UpsertRule | include/NGIN/Log/LoggerRegistry.hpp:138-153 | Updates the map from prefix to rule, keeps prefixes unique, and brings every registered logger up to date. |
| Registry.LoggerRegistry.RemoveRule | include/NGIN/Log/LoggerRegistry.hpp:155-167 | Removes the prefix from the map and brings every registered logger up to date. |
| Registry.WithoutPrefix | include/NGIN/Log/LoggerRegistry.hpp:158-165 | Erasing the matching rules is a removal from the map. |
| Registry.LoggerRegistry.ApplyConfigUpdatesLocked | include/NGIN/Log/LoggerRegistry.hpp:226-239 | Afterwards every registered logger has its effective level and sinks. |
| Registry.LoggerRegistry.SetDefaultRuntimeMin | include/NGIN/Log/LoggerRegistry.hpp:96-101 | Changes the default level and brings every logger up to date. |
| Registry.LoggerRegistry.SetDefaultSinks | include/NGIN/Log/LoggerRegistry.hpp:103-108 | Changes the default sinks and brings every logger up to date. |
| Registry.LoggerRegistry.GetOrCreate | include/NGIN/Log/LoggerRegistry.hpp:57-82 | The same logger for the same name; a new one has its effective configuration, with the requested level only where the code honours it. |
| Registry.LoggerRegistry.SetLoggerRuntimeMin | include/NGIN/Log/LoggerRegistry.hpp:122-128 | Changes the level of that logger alone, if it exists. |
| Registry.LoggerRegistry.ReplaceLoggerSinks | include/NGIN/Log/LoggerRegistry.hpp:130-136 | Changes the sinks of that logger alone, if it exists. |
| Registry.TableIsHistory | include/NGIN/Log/LoggerRegistry.hpp:138-167 | After any operations the rule in force for a prefix is the one last given for it and not removed since. |
| Registry.DefaultsAreHistory | include/NGIN/Log/LoggerRegistry.hpp:96-108 | After any operations the defaults in force are the level and sinks last set, and Info and none at first. |
| Registry.LoggerFollowsHistory | include/NGIN/Log/LoggerRegistry.hpp:57-239 | After any operations a logger without settings of its own has what the rule last given for the longest of its prefixes names, and the defaults last set where it names nothing. |
| Registry.RuleReachesLoggers | include/NGIN/Log/LoggerRegistry.hpp:138-153 | A rule reaches a logger that exists already and one that is created later, and none that it does not match. |
| Registry.NetRule | include/NGIN/Log/LoggerRegistry.hpp:190-224 | An example: a rule for one prefix with a level and sinks that are not the default ones. |
| Registry.NewLoggerFollowsRules | include/NGIN/Log/LoggerRegistry.hpp:73-79 | A new logger has its effective configuration if and only if Info is asked for, or the effective level is not the default one, or the default one is asked for. |
| Registry.RuleGivesWay | include/NGIN/Log/LoggerRegistry.hpp:73-79 | An example: a rule names the default level for a prefix, and a logger under it is created with another. |
| Registry.OnlyOverridesBreak | include/NGIN/Log/LoggerRegistry.hpp:122-136 | A logger in step with its rules stays so through any operation, except exactly those that give it a level or sinks other than the effective ones. |
| Registry.LoggersFollowTheRules | include/NGIN/Log/LoggerRegistry.hpp:226-239 | After any operations a logger has the configuration of its longest matching prefix, unless an operation since the last change of rules or defaults gave it another. |
| Registry.LoggersHaveExactly | include/NGIN/Log/LoggerRegistry.hpp:57-136 | After any operations a logger has the configuration of its longest matching prefix, overlaid with the level and sinks it was last given of its own since the last change. |

## Assumptions

- The wrapped sink is not null and does not throw (`ILogSink::Write` is `noexcept`); a formatter exists.
- Atomic accesses are sequentially consistent single steps. A timed wait may end at any time, and a sleeper may wake
  for no reason.
- Files are removed and renamed successfully. Whether a file can be opened may differ from call to call, not within
  one call. Nobody else touches the files.
- The C++ library's calendar and its text of a double are arbitrary functions.
- Characters stand for bytes.

## Left out

- AsyncTheorems.CountersAlways: the 64-bit counters are unbounded here, so nothing is said about a wrap-around after 2^64 events.
- AsyncTheorems.FlushIsNeverForgotten: states who will notify, not that a scheduler lets that thread run; whether producers blocked for space are ever woken is not stated at all, because the worker notifies them without holding the mutex they wait under.
- AsyncProgress.WriteReturnsAlone: says that a call can complete while the others pause, not that it does so against any schedule.
- AsyncReports.ReportsCatchUp: a drop counts as recorded once its thread has raised the counter of unreported drops.
- AsyncShutdown.WorkerTerminates: bounds the worker's steps; that a step is taken in the end is the scheduler's part.
- JsonFormatter.ReadsBackExactly: supposes that a calendar's text begins with digits and a minus sign; a signed and an unsigned attribute of the same value read alike, and so does a double that is printed as an integer.
- JsonFormatter.LinesAreInjective: says nothing of lines that are no JSON texts, by an ISO style or a double that is not finite.
- Pipeline.WholeWay: says nothing of such lines either.
- Json.ParseShow: the parser knows numbers, strings, booleans and objects without white space; arrays and null, which the formatter never prints, are not part of it. A number that is no integer is kept as its text.
- LogFmtReader.ReadUndoesLogFmt: supposes that the calendar and the text of a double contain no blank, newline or quotation mark; it recovers the fields, not which of them were attributes, since an attribute may be named like a built-in field.
- TextFormatters.FormatLogFmt: fixes the printed line; what a reader recovers from it is the subject of LogFmtReader.
- TextReader.ReadsTextExactly: supposes that no calendar text contains a closing bracket; it leaves the message together with what is printed behind it, which nothing separates.
- TailReader.ReadsTailExactly: supposes that the text of a double contains no comma, closing brace or quotation mark; it is given where the message ends.
- TailReader.LineTells: supposes this too, and that no calendar text contains a closing bracket.
- TextFormatters.OneLinePerRecord: supposes that the calendar and the text of a double contain no newline.
- RotatingRuns.RunKeepsSuffix: in truncating mode supposes that the file is open or absent at first, as after a constructor whose open succeeded, and that Reopen is not called; otherwise an open loses the current file.
- RotatingFileSink.RotatingFileSink.Write: the size counter is unbounded; auto-flush, external rotation and file identities are not modelled; the line arrives formatted, with its local date.
- BoundedQueue.MpscBoundedQueue.TryDequeue: a record that has been moved out leaves its slot as it was; the moved-from state is not modelled.
- OwnedRecords.ToOwned: the eight attribute slots are a sequence of the used ones; unused slots are not represented.
- Dispatch.CopyContextText: returns the copied text itself, not an offset into the arena; that later copies leave it alone is part of the contract.
- RecordBuilder.RecordBuilder.Attr: takes a normalised value; the overloads that turn durations, enumerations, pointers and error codes into one are not modelled.
- The text of a drop report, the high-watermark statistic, snapshots of the statistics and the error callback.
- ConsoleSink, FileSink, RecordLine and the construction of shared pointers: thin wrappers.
- The lifetimes of scoped contexts: the context is any sequence of entries.
- Filtering by level, the recursion flag and the fan-out to several sinks: one branch each.
- Double printing, calendar rules and UTF-8 validity: library code.
