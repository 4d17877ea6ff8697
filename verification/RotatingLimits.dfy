/** The two reasons to rotate: size and date. */
module RotatingLimits {
  import opened RotatingFiles
  import opened RotatingFileSink
  import opened RotatingRuns

  // ----- Size

  ghost function Current(o: Options, st: State): File {
    Content(st.files, o.path)
  }

  lemma RotatedIsEmpty(o: Options, canOpen: bool, st: State)
    ensures Current(o, Rotated(o, canOpen, st)) == []
    ensures Rotated(o, canOpen, st).lastDay == st.lastDay
  {
    ShiftIsShift(st.files, o.path, o.maxFiles);
  }

  /** After a Write the current file is within the limit, or is one record that alone exceeds it. */
  lemma WriteStaysWithin(o: Options, st: State, op: Op)
    requires o.maxFileBytes > 0 && Consistent(o, st) && op.Write? && Landing(o, st, op).isOpen
    ensures var after := Apply(o, st, op);
      && after.isOpen && after.currentBytes == Size(Current(o, after))
      && (|| Size(Current(o, after)) <= o.maxFileBytes
          || (Current(o, after) == [op.line] && |op.line.text| > o.maxFileBytes))
  {
    var ready := Reached(o, op.canOpen, st);
    var last := Landing(o, st, op);
    var after := Apply(o, st, op);
    assert after == Put(o, last, op.line);
    if Rotates(o, st, op) {
      RotatedIsEmpty(o, op.canOpen, ready);
      RotatedIsEmpty(o, op.canOpen, DateNoted(o, ready, op.line));
      assert Current(o, after) == [op.line];
      assert Size([op.line]) == |op.line.text| by { assert [op.line][..0] == []; }
    }
  }

  ghost predicate AllFit(o: Options, st: State) {
    forall k: nat :: k <= o.maxFiles ==> Size(Content(st.files, Slot(o.path, k))) <= o.maxFileBytes
  }

  lemma RotateFits(o: Options, canOpen: bool, st: State)
    requires AllFit(o, st)
    ensures AllFit(o, Rotated(o, canOpen, st))
  {
    AllSlotsDiffer(o.path);
    var shifted := Shift(st.files, o.path, o.maxFiles);
    ShiftIsShift(st.files, o.path, o.maxFiles);
    forall k: nat | k <= o.maxFiles
      ensures Size(Content(Rotated(o, canOpen, st).files, Slot(o.path, k))) <= o.maxFileBytes
    {
      if k > 0 {
        assert Same(shifted, Slot(o.path, k), st.files, Slot(o.path, k - 1));
        assert Slot(o.path, k) != Slot(o.path, 0);
      } else {
        RotatedIsEmpty(o, canOpen, st);
      }
    }
  }

  lemma OpenFits(o: Options, canOpen: bool, st: State)
    requires AllFit(o, st)
    ensures AllFit(o, Opened(o, canOpen, st))
  {
    AllSlotsDiffer(o.path);
    forall k: nat | k <= o.maxFiles
      ensures Size(Content(Opened(o, canOpen, st).files, Slot(o.path, k))) <= o.maxFileBytes
    {
      assert Size(Content(st.files, Slot(o.path, k))) <= o.maxFileBytes;
      assert k == 0 || Slot(o.path, k) != Slot(o.path, 0);
    }
  }

  lemma WriteFits(o: Options, st: State, op: Op)
    requires o.maxFileBytes > 0 && Consistent(o, st) && AllFit(o, st)
    requires op.Write? && |op.line.text| <= o.maxFileBytes
    ensures AllFit(o, Apply(o, st, op))
  {
    var ready := Reached(o, op.canOpen, st);
    if !st.isOpen { OpenFits(o, op.canOpen, st); }
    if ready.isOpen {
      RotateFits(o, op.canOpen, ready);
      RotateFits(o, op.canOpen, DateNoted(o, ready, op.line));
      var roomy := MadeRoom(o, op.canOpen, ready, op.line);
      assert AllFit(o, roomy);
      if !roomy.isOpen { OpenFits(o, op.canOpen, roomy); }
      if Landing(o, st, op).isOpen { PutFits(o, st, op); }
    }
  }

  lemma PutFits(o: Options, st: State, op: Op)
    requires o.maxFileBytes > 0 && Consistent(o, st) && op.Write? && |op.line.text| <= o.maxFileBytes
    requires Landing(o, st, op).isOpen && AllFit(o, Landing(o, st, op))
    ensures AllFit(o, Apply(o, st, op))
  {
    var last, after := Landing(o, st, op), Apply(o, st, op);
    AllSlotsDiffer(o.path);
    WriteStaysWithin(o, st, op);
    forall k: nat | k <= o.maxFiles ensures Size(Content(after.files, Slot(o.path, k))) <= o.maxFileBytes {
      if k > 0 {
        assert Slot(o.path, k) != Slot(o.path, 0);
        assert Size(Content(last.files, Slot(o.path, k))) <= o.maxFileBytes;
      }
    }
  }

  /** If every file and every record is within the limit at first, every file stays within it. */
  lemma {:induction false} RunFits(o: Options, st: State, ops: seq<Op>)
    requires o.maxFileBytes > 0 && Consistent(o, st) && AllFit(o, st)
    requires forall k :: 0 <= k < |ops| && ops[k].Write? ==> |ops[k].line.text| <= o.maxFileBytes
    ensures AllFit(o, Run(o, st, ops))
    decreases |ops|
  {
    if ops != [] {
      match ops[0] {
        case Write(_, _) => WriteFits(o, st, ops[0]);
        case ForceRotate(canOpen) => RotateFits(o, canOpen, st);
        case Reopen(canOpen) => OpenFits(o, canOpen, st);
      }
      RunFits(o, Apply(o, st, ops[0]), ops[1..]);
    }
  }

  lemma {:induction false} RetainedSize(o: Options, files: Files, n: nat)
    requires forall k: nat :: k <= n ==> Size(Content(files, Slot(o.path, k))) <= o.maxFileBytes
    ensures Size(Retained(files, o.path, n)) <= (n + 1) * o.maxFileBytes
  {
    var oldest := Content(files, Slot(o.path, n));
    assert Size(oldest) <= o.maxFileBytes;
    if n == 0 {
      SizeConcat(oldest, []);
    } else {
      RetainedSize(o, files, n - 1);
      SizeConcat(oldest, Retained(files, o.path, n - 1));
      assert (n + 1) * o.maxFileBytes == n * o.maxFileBytes + o.maxFileBytes;
    }
  }

  /** Then the files together never exceed the limit times their number. */
  lemma RetainedBytesAreBounded(o: Options, st: State, ops: seq<Op>)
    requires o.maxFileBytes > 0 && Consistent(o, st) && AllFit(o, st)
    requires forall k :: 0 <= k < |ops| && ops[k].Write? ==> |ops[k].line.text| <= o.maxFileBytes
    ensures Size(Kept(o, Run(o, st, ops))) <= (o.maxFiles + 1) * o.maxFileBytes
  {
    RunFits(o, st, ops);
    RetainedSize(o, Run(o, st, ops).files, o.maxFiles);
  }

  // ----- Date

  ghost predicate OneDay(file: File) {
    forall i, j :: 0 <= i < |file| && 0 <= j < |file| ==> file[i].day == file[j].day
  }

  ghost predicate OneDayPerFile(o: Options, st: State) {
    forall k: nat :: k <= o.maxFiles ==> OneDay(Content(st.files, Slot(o.path, k)))
  }

  /** Records come with dates that do not go back before a given one. */
  ghost predicate InOrder(ops: seq<Op>, today: nat) {
    ops == [] ||
    (if ops[0].Write? then today <= ops[0].line.day && InOrder(ops[1..], ops[0].line.day) else InOrder(ops[1..], today))
  }

  /** What a record has to be while the sink has not seen a date: small enough to need no rotation, and of the
      date of the file it joins, if there is anything in it. */
  ghost predicate JoinsCleanly(o: Options, ready: State, line: Line) {
    && !Overflows(o, ready, line)
    && (Current(o, ready) != [] ==> Current(o, ready)[0].day == line.day)
  }

  ghost predicate SafeIfFirst(o: Options, st: State, op: Op)
    requires Consistent(o, st)
  {
    st.lastDay == NO_DATE && op.Write? && Landing(o, st, op).isOpen ==>
      JoinsCleanly(o, Reached(o, op.canOpen, st), op.line)
  }

  /** The first record that gets through joins the current file cleanly. */
  ghost predicate FirstJoins(o: Options, st: State, ops: seq<Op>)
    requires Consistent(o, st)
    decreases |ops|
  {
    ops == [] || (SafeIfFirst(o, st, ops[0]) && FirstJoins(o, Apply(o, st, ops[0]), ops[1..]))
  }

  /** The remembered date may be stale, but never newer than the file it guards. */
  ghost predicate DateOk(o: Options, st: State, today: nat) {
    && NO_DATE <= st.lastDay <= today
    && (Current(o, st) != [] ==> st.lastDay <= Current(o, st)[0].day <= today)
    && OneDayPerFile(o, st)
  }

  lemma RotateKeepsDate(o: Options, canOpen: bool, st: State, today: nat)
    requires DateOk(o, st, today)
    ensures DateOk(o, Rotated(o, canOpen, st), today)
  {
    AllSlotsDiffer(o.path);
    var shifted := Shift(st.files, o.path, o.maxFiles);
    ShiftIsShift(st.files, o.path, o.maxFiles);
    RotatedIsEmpty(o, canOpen, st);
    forall k: nat | k <= o.maxFiles ensures OneDay(Content(Rotated(o, canOpen, st).files, Slot(o.path, k))) {
      if k > 0 {
        assert Same(shifted, Slot(o.path, k), st.files, Slot(o.path, k - 1));
        assert Slot(o.path, k) != Slot(o.path, 0);
        assert OneDay(Content(st.files, Slot(o.path, k - 1)));
      }
    }
  }

  lemma OpenKeepsOneDay(o: Options, canOpen: bool, st: State)
    requires OneDayPerFile(o, st)
    ensures OneDayPerFile(o, Opened(o, canOpen, st))
  {
    AllSlotsDiffer(o.path);
    var after := Opened(o, canOpen, st);
    forall k: nat | k <= o.maxFiles ensures OneDay(Content(after.files, Slot(o.path, k))) {
      assert OneDay(Content(st.files, Slot(o.path, k)));
      assert k == 0 || Slot(o.path, k) != Slot(o.path, 0);
    }
  }

  lemma OpenKeepsDate(o: Options, canOpen: bool, st: State, today: nat)
    requires DateOk(o, st, today)
    ensures DateOk(o, Opened(o, canOpen, st), today)
  {
    OpenKeepsOneDay(o, canOpen, st);
  }

  lemma PutKeepsDate(o: Options, st: State, line: Line, today: nat)
    requires Consistent(o, st) && st.isOpen && DateOk(o, st, today) && st.lastDay != NO_DATE
    requires st.lastDay <= line.day && today <= line.day
    requires Current(o, st) != [] ==> Current(o, st)[0].day == line.day
    ensures DateOk(o, Put(o, st, line), line.day)
  {
    AllSlotsDiffer(o.path);
    var after := Put(o, st, line);
    forall k: nat | k <= o.maxFiles ensures OneDay(Content(after.files, Slot(o.path, k))) {
      assert OneDay(Content(st.files, Slot(o.path, k)));
      assert k == 0 || Slot(o.path, k) != Slot(o.path, 0);
    }
  }

  /** Making room leaves the current file empty or on the record's own date. */
  lemma RoomIsForOneDay(o: Options, canOpen: bool, st: State, line: Line, today: nat)
    requires o.rotateDailyLocal && Consistent(o, st) && st.isOpen && DateOk(o, st, today) && today <= line.day
    requires st.lastDay == NO_DATE ==> JoinsCleanly(o, st, line)
    ensures var roomy := MadeRoom(o, canOpen, st, line);
      && DateOk(o, roomy, line.day) && roomy.lastDay != NO_DATE
      && (Current(o, roomy) != [] ==> Current(o, roomy)[0].day == line.day)
  {
    if Overflows(o, st, line) {
      RotateKeepsDate(o, canOpen, st, today);
      RotatedIsEmpty(o, canOpen, st);
    } else if DateChanged(o, st, line) {
      RotationIgnoresDate(o, canOpen, st, line, today);
      RotatedIsEmpty(o, canOpen, DateNoted(o, st, line));
    }
  }

  lemma RotationIgnoresDate(o: Options, canOpen: bool, st: State, line: Line, today: nat)
    requires o.rotateDailyLocal && DateOk(o, st, today) && today <= line.day
    ensures DateOk(o, Rotated(o, canOpen, DateNoted(o, st, line)), line.day)
  {
    RotateKeepsDate(o, canOpen, st, today);
    RotatedIsEmpty(o, canOpen, DateNoted(o, st, line));
    assert Rotated(o, canOpen, DateNoted(o, st, line)) == Rotated(o, canOpen, st).(lastDay := line.day);
  }

  lemma LandingKeepsDate(o: Options, canOpen: bool, roomy: State, line: Line)
    requires Consistent(o, roomy) && DateOk(o, roomy, line.day) && roomy.lastDay != NO_DATE
    requires Current(o, roomy) != [] ==> Current(o, roomy)[0].day == line.day
    ensures var last := Reached(o, canOpen, roomy);
            DateOk(o, if last.isOpen then Put(o, last, line) else last, line.day)
  {
    OpenKeepsDate(o, canOpen, roomy, line.day);
    var last := Reached(o, canOpen, roomy);
    if last.isOpen { PutKeepsDate(o, last, line, line.day); }
  }

  /** A record that the failing rotation keeps from getting through. */
  lemma FailedRotationKeepsDate(o: Options, st: State, op: Op, today: nat)
    requires Consistent(o, st) && DateOk(o, st, today) && op.Write? && today <= op.line.day
    requires st.isOpen && Overflows(o, st, op.line) && !Landing(o, st, op).isOpen
    ensures DateOk(o, Apply(o, st, op), op.line.day)
  {
    RotateKeepsDate(o, op.canOpen, st, today);
    OpenKeepsDate(o, op.canOpen, Rotated(o, op.canOpen, st), today);
  }

  /** A Write on an open file. */
  lemma OpenWriteKeepsDate(o: Options, st: State, op: Op, today: nat)
    requires o.rotateDailyLocal && Consistent(o, st) && st.isOpen && DateOk(o, st, today)
    requires op.Write? && today <= op.line.day && SafeIfFirst(o, st, op)
    ensures DateOk(o, Apply(o, st, op), op.line.day)
  {
    if st.lastDay == NO_DATE && Overflows(o, st, op.line) {
      FailedRotationKeepsDate(o, st, op, today);
    } else {
      RoomIsForOneDay(o, op.canOpen, st, op.line, today);
      LandingKeepsDate(o, op.canOpen, MadeRoom(o, op.canOpen, st, op.line), op.line);
    }
  }

  /** A Write that opens the file first is a Write on the opened file. */
  lemma WriteOnReached(o: Options, st: State, op: Op)
    requires Consistent(o, st) && op.Write? && Reached(o, op.canOpen, st).isOpen
    ensures Apply(o, st, op) == Apply(o, Reached(o, op.canOpen, st), op)
    ensures Landing(o, st, op) == Landing(o, Reached(o, op.canOpen, st), op)
    ensures Reached(o, op.canOpen, st).lastDay == st.lastDay
  {
  }

  lemma WriteKeepsDate(o: Options, st: State, op: Op, today: nat)
    requires o.rotateDailyLocal && Consistent(o, st) && DateOk(o, st, today)
    requires op.Write? && today <= op.line.day && SafeIfFirst(o, st, op)
    ensures DateOk(o, Apply(o, st, op), op.line.day)
  {
    var ready := Reached(o, op.canOpen, st);
    OpenKeepsDate(o, op.canOpen, st, today);
    if ready.isOpen {
      WriteOnReached(o, st, op);
      OpenWriteKeepsDate(o, ready, op, today);
    }
  }

  /** With daily rotation, dates that do not go back and a first record that joins the current file cleanly,
      no file ever mixes two dates, even though a rotation by size leaves the remembered date stale. */
  lemma {:induction false} RunKeepsOneDayPerFile(o: Options, st: State, ops: seq<Op>, today: nat)
    requires o.rotateDailyLocal && Consistent(o, st) && DateOk(o, st, today)
    requires InOrder(ops, today) && FirstJoins(o, st, ops)
    ensures OneDayPerFile(o, Run(o, st, ops))
    decreases |ops|
  {
    if ops != [] {
      match ops[0] {
        case Write(_, line) =>
          WriteKeepsDate(o, st, ops[0], today);
          RunKeepsOneDayPerFile(o, Apply(o, st, ops[0]), ops[1..], line.day);
        case ForceRotate(canOpen) =>
          RotateKeepsDate(o, canOpen, st, today);
          RunKeepsOneDayPerFile(o, Apply(o, st, ops[0]), ops[1..], today);
        case Reopen(canOpen) =>
          OpenKeepsDate(o, canOpen, st, today);
          RunKeepsOneDayPerFile(o, Apply(o, st, ops[0]), ops[1..], today);
      }
    }
  }

  // ----- The ways in which a first record spoils it

  lemma OverflowStartsAnew(o: Options, st: State, line: Line)
    requires Consistent(o, st) && Overflows(o, Reached(o, true, st), line)
    ensures var after := Apply(o, st, Write(true, line));
      && after.isOpen && Current(o, after) == [line] && after.currentBytes == |line.text| && after.lastDay == st.lastDay
  {
    RotatedIsEmpty(o, true, Reached(o, true, st));
  }

  lemma JoinsUndated(o: Options, st: State, op: Op)
    requires Consistent(o, st) && st.lastDay == NO_DATE && op.Write?
    requires var ready := Reached(o, op.canOpen, st); ready.isOpen && !Overflows(o, ready, op.line)
    ensures Current(o, Apply(o, st, op)) == Current(o, Reached(o, op.canOpen, st)) + [op.line]
  {
  }

  lemma RunOne(o: Options, st: State, op: Op)
    requires Consistent(o, st)
    ensures Run(o, st, [op]) == Apply(o, st, op)
  {
    assert [op][1..] == [];
  }

  lemma RunFirst(o: Options, st: State, op: Op, rest: seq<Op>)
    requires Consistent(o, st)
    ensures Run(o, st, [op] + rest) == Run(o, Apply(o, st, op), rest)
  {
    assert ([op] + rest)[1..] == rest;
  }

  lemma TwoDaysInOneFile(o: Options, st: State, file: File, line: Line)
    requires Current(o, st) == file + [line] && file != [] && file[0].day != line.day
    ensures !OneDayPerFile(o, st)
  {
    var all := file + [line];
    assert all[0].day != all[|file|].day;
    assert !OneDay(Content(st.files, Slot(o.path, 0)));
  }

  /** A file with records of another date, as append mode finds it after a restart, takes the first record. */
  lemma OtherDateMixes(o: Options, st: State, op: Op)
    requires Consistent(o, st) && st.lastDay == NO_DATE && op.Write?
    requires var ready := Reached(o, op.canOpen, st);
      && ready.isOpen && !Overflows(o, ready, op.line)
      && Current(o, ready) != [] && Current(o, ready)[0].day != op.line.day
    ensures !OneDayPerFile(o, Run(o, st, [op]))
  {
    JoinsUndated(o, st, op);
    RunOne(o, st, op);
    TwoDaysInOneFile(o, Apply(o, st, op), Current(o, Reached(o, op.canOpen, st)), op.line);
  }

  /** A first record that rotates by size hides its date from the sink: the next that fits behind it shares
      its file, whatever its date. */
  lemma HiddenDateMixes(o: Options, st: State, first: Line, next: Line)
    requires Consistent(o, st) && st.lastDay == NO_DATE && Overflows(o, Reached(o, true, st), first)
    requires |first.text| + |next.text| <= o.maxFileBytes
    ensures Current(o, Run(o, st, [Write(true, first)] + [Write(true, next)])) == [first] + [next]
  {
    OverflowStartsAnew(o, st, first);
    var after := Apply(o, st, Write(true, first));
    JoinsUndated(o, after, Write(true, next));
    RunFirst(o, st, Write(true, first), [Write(true, next)]);
    RunOne(o, after, Write(true, next));
  }

  /** A first record that exceeds the limit by itself fills a file; then the second one's date is hidden. */
  lemma OversizeFirstMixesDates(o: Options, st: State, big: Line, a: Line, b: Line)
    requires Consistent(o, st) && st.lastDay == NO_DATE
    requires 0 < o.maxFileBytes < |big.text| && |a.text| + |b.text| <= o.maxFileBytes
    ensures Current(o, Run(o, st, [Write(true, big)] + ([Write(true, a)] + [Write(true, b)]))) == [a] + [b]
  {
    OverflowStartsAnew(o, st, big);
    RunFirst(o, st, Write(true, big), [Write(true, a)] + [Write(true, b)]);
    HiddenDateMixes(o, Apply(o, st, Write(true, big)), a, b);
  }

  lemma {:induction false} SizeOfOne(line: Line)
    ensures Size([line]) == |line.text|
  {
    assert [line][..0] == [];
  }

  /** Yesterday's file, found in append mode without a size limit, takes today's first record. */
  lemma RestartMixesDates()
    ensures var o := Options("app.log", true, 0, 3, false, true);
      var st := Opened(o, true, State(map["app.log" := [Line("late\n", 1)]], false, 0, NO_DATE));
      OneDayPerFile(o, st) && !OneDayPerFile(o, Run(o, st, [Write(true, Line("early\n", 2))]))
  {
    var o := Options("app.log", true, 0, 3, false, true);
    var st := Opened(o, true, State(map["app.log" := [Line("late\n", 1)]], false, 0, NO_DATE));
    OneFileOneDay(o, st, Line("late\n", 1));
    OtherDateMixes(o, st, Write(true, Line("early\n", 2)));
  }

  lemma OneFileOneDay(o: Options, st: State, line: Line)
    requires st.files == map[o.path := [line]]
    ensures OneDayPerFile(o, st)
  {
    forall k: nat | k <= o.maxFiles ensures OneDay(Content(st.files, Slot(o.path, k))) {
      assert Content(st.files, Slot(o.path, k)) == [line] || Content(st.files, Slot(o.path, k)) == [];
    }
  }

  /** Today's file, found nearly full, makes today's first record rotate, and tomorrow's joins it. */
  lemma RestartHidesDate()
    ensures var o := Options("app.log", true, 12, 3, false, true);
      var st := Opened(o, true, State(map["app.log" := [Line("12345678\n", 1)]], false, 0, NO_DATE));
      var first, next := Line("1234\n", 1), Line("5678\n", 2);
      && OneDayPerFile(o, st) && |first.text| <= o.maxFileBytes
      && !OneDayPerFile(o, Run(o, st, [Write(true, first)] + [Write(true, next)]))
  {
    var o := Options("app.log", true, 12, 3, false, true);
    var st := Opened(o, true, State(map["app.log" := [Line("12345678\n", 1)]], false, 0, NO_DATE));
    var first, next := Line("1234\n", 1), Line("5678\n", 2);
    OneFileOneDay(o, st, Line("12345678\n", 1));
    SizeOfOne(Line("12345678\n", 1));
    HiddenDateMixes(o, st, first, next);
    TwoDaysInOneFile(o, Run(o, st, [Write(true, first)] + [Write(true, next)]), [first], next);
  }

  // ----- The exact condition

  lemma DateStaysNoted(o: Options, st: State, op: Op)
    requires Consistent(o, st) && st.lastDay != NO_DATE
    ensures Apply(o, st, op).lastDay != NO_DATE
  {
  }

  lemma {:induction false} DatedJoins(o: Options, st: State, ops: seq<Op>)
    requires Consistent(o, st) && st.lastDay != NO_DATE
    ensures FirstJoins(o, st, ops)
    decreases |ops|
  {
    if ops != [] {
      DateStaysNoted(o, st, ops[0]);
      DatedJoins(o, Apply(o, st, ops[0]), ops[1..]);
    }
  }

  lemma CleanFirstIsSafe(o: Options, st: State, op: Op, rest: seq<Op>)
    requires o.rotateDailyLocal && Consistent(o, st) && st.lastDay == NO_DATE && OneDayPerFile(o, st)
    requires op.Write? && Reached(o, op.canOpen, st).isOpen && InOrder([op] + rest, 0)
    requires JoinsCleanly(o, Reached(o, op.canOpen, st), op.line)
    ensures OneDayPerFile(o, Run(o, st, [op] + rest))
  {
    var ready, after := Reached(o, op.canOpen, st), Apply(o, st, op);
    OpenKeepsOneDay(o, op.canOpen, st);
    WriteOnReached(o, st, op);
    OpenWriteKeepsDate(o, ready, op, op.line.day);
    assert after.lastDay == op.line.day;
    assert ([op] + rest)[1..] == rest;
    DatedJoins(o, after, rest);
    RunFirst(o, st, op, rest);
    RunKeepsOneDayPerFile(o, after, rest, op.line.day);
  }

  lemma InOrderFrom(op: Op, rest: seq<Op>, today: nat)
    requires op.Write? && today <= op.line.day && InOrder(rest, op.line.day)
    ensures InOrder([op] + rest, today)
  {
    assert ([op] + rest)[1..] == rest;
  }

  /** A continuation in order after which some file mixes two dates. */
  ghost predicate Spoils(o: Options, st: State, op: Op, rest: seq<Op>)
    requires Consistent(o, st)
  {
    InOrder([op] + rest, 0) && !OneDayPerFile(o, Run(o, st, [op] + rest))
  }

  lemma RotatingFirstIsSpoilt(o: Options, st: State, first: Line) returns (rest: seq<Op>)
    requires Consistent(o, st) && st.lastDay == NO_DATE && Overflows(o, Reached(o, true, st), first)
    ensures Spoils(o, st, Write(true, first), rest)
  {
    var a, b := Line("", first.day), Line("", first.day + 1);
    InOrderFrom(Write(true, b), [], first.day);
    assert [Write(true, b)] + [] == [Write(true, b)];
    if |first.text| <= o.maxFileBytes {
      rest := [Write(true, b)];
      HiddenDateMixes(o, st, first, b);
      TwoDaysInOneFile(o, Run(o, st, [Write(true, first)] + rest), [first], b);
    } else {
      rest := [Write(true, a)] + [Write(true, b)];
      InOrderFrom(Write(true, a), [Write(true, b)], first.day);
      OversizeFirstMixesDates(o, st, first, a, b);
      TwoDaysInOneFile(o, Run(o, st, [Write(true, first)] + rest), [a], b);
    }
    InOrderFrom(Write(true, first), rest, 0);
  }

  lemma UncleanFirstIsSpoilt(o: Options, st: State, op: Op) returns (rest: seq<Op>)
    requires Consistent(o, st) && st.lastDay == NO_DATE && op.Write? && Landing(o, st, op).isOpen
    requires !JoinsCleanly(o, Reached(o, op.canOpen, st), op.line)
    ensures Spoils(o, st, op, rest)
  {
    if Overflows(o, Reached(o, op.canOpen, st), op.line) {
      assert op == Write(true, op.line);
      rest := RotatingFirstIsSpoilt(o, st, op.line);
    } else {
      rest := [];
      OtherDateMixes(o, st, op);
      InOrderFrom(op, [], 0);
      assert [op] + [] == [op];
    }
  }

  /** Daily rotation keeps the dates apart, whatever follows in order, exactly if the first record to get
      through needs no rotation by size and has the date of what is in the current file. */
  lemma OneDayPerFileExactly(o: Options, st: State, op: Op)
    requires o.rotateDailyLocal && Consistent(o, st) && st.lastDay == NO_DATE && OneDayPerFile(o, st)
    requires op.Write? && Landing(o, st, op).isOpen
    ensures (forall rest :: InOrder([op] + rest, 0) ==> OneDayPerFile(o, Run(o, st, [op] + rest)))
       <==> JoinsCleanly(o, Reached(o, op.canOpen, st), op.line)
  {
    if JoinsCleanly(o, Reached(o, op.canOpen, st), op.line) {
      forall rest | InOrder([op] + rest, 0) ensures OneDayPerFile(o, Run(o, st, [op] + rest)) {
        CleanFirstIsSafe(o, st, op, rest);
      }
    } else {
      var rest := UncleanFirstIsSpoilt(o, st, op);
      assert Spoils(o, st, op, rest);
    }
  }
}
