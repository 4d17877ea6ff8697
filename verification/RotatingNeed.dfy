/** When a Write rotates: exactly if its record does not fit the file or comes from another date. */
module RotatingNeed {
  import opened RotatingFiles
  import opened RotatingFileSink
  import opened RotatingRuns
  import opened RotatingLimits

  /** The file on disk has room for the record, or there is no limit. */
  ghost predicate Fits(o: Options, files: Files, line: Line) {
    o.maxFileBytes == 0 || Size(Content(files, o.path)) + |line.text| <= o.maxFileBytes
  }

  /** The record has the date that the sink has noted, or dates do not matter yet. */
  ghost predicate SameDate(o: Options, lastDay: int, line: Line) {
    !o.rotateDailyLocal || lastDay == NO_DATE || lastDay == line.day
  }

  /** All files as they were, with the record behind the current one, and its date noted. */
  ghost predicate JustAppended(o: Options, st: State, line: Line, after: State) {
    && after.isOpen
    && after.files == st.files[o.path := Content(st.files, o.path) + [line]]
    && after.lastDay == (if o.rotateDailyLocal then line.day else st.lastDay)
  }

  /** Every file one number up, and the record alone in a new one, unless the new one cannot be opened. */
  ghost predicate RotatedFor(o: Options, canOpen: bool, st: State, line: Line, after: State) {
    && after.isOpen == canOpen
    && IsShift(st.files, after.files - {o.path}, o.path, o.maxFiles)
    && (canOpen ==> Content(after.files, o.path) == [line])
    && (!canOpen ==> o.path !in after.files)
    && after.lastDay == (if Fits(o, st.files, line) && o.rotateDailyLocal then line.day else st.lastDay)
  }

  lemma FittingWriteAppends(o: Options, canOpen: bool, st: State, line: Line)
    requires Consistent(o, st) && st.isOpen && Fits(o, st.files, line) && SameDate(o, st.lastDay, line)
    ensures JustAppended(o, st, line, Written(o, canOpen, st, line))
  {
  }

  lemma ShiftedThenOpened(o: Options, canOpen: bool, st: State, dated: State)
    requires dated == st.(lastDay := dated.lastDay)
    ensures var r := Rotated(o, canOpen, dated);
      && r.isOpen == canOpen && IsShift(st.files, r.files - {o.path}, o.path, o.maxFiles)
      && Content(r.files, o.path) == [] && (canOpen <==> o.path in r.files) && r.lastDay == dated.lastDay
  {
    var shifted := Shift(st.files, o.path, o.maxFiles);
    ShiftIsShift(st.files, o.path, o.maxFiles);
    assert shifted[o.path := []] - {o.path} == shifted;
    assert shifted - {o.path} == shifted;
  }

  lemma OtherWriteRotates(o: Options, canOpen: bool, st: State, line: Line)
    requires Consistent(o, st) && st.isOpen && !(Fits(o, st.files, line) && SameDate(o, st.lastDay, line))
    ensures RotatedFor(o, canOpen, st, line, Written(o, canOpen, st, line))
  {
    ShiftedThenOpened(o, canOpen, st, st);
    ShiftedThenOpened(o, canOpen, st, DateNoted(o, st, line));
    var roomy, after := MadeRoom(o, canOpen, st, line), Written(o, canOpen, st, line);
    if canOpen {
      assert after.files - {o.path} == roomy.files - {o.path};
    }
  }

  /** A Write to an open file: if its record fits and has the noted date, all files stay as they were and the
      record goes behind the current one; otherwise every file moves one number up and the record is alone. */
  lemma WriteRotatesExactly(o: Options, canOpen: bool, st: State, line: Line)
    requires Consistent(o, st) && st.isOpen
    ensures var after := Written(o, canOpen, st, line);
      if Fits(o, st.files, line) && SameDate(o, st.lastDay, line)
      then JustAppended(o, st, line, after)
      else RotatedFor(o, canOpen, st, line, after)
  {
    if Fits(o, st.files, line) && SameDate(o, st.lastDay, line) {
      FittingWriteAppends(o, canOpen, st, line);
    } else {
      OtherWriteRotates(o, canOpen, st, line);
    }
  }

  /** A Write to a closed file opens it, at its end in append mode and empty otherwise, and goes on as above;
      if it cannot be opened, nothing changes. */
  lemma ClosedWriteOpensFirst(o: Options, canOpen: bool, st: State, line: Line)
    requires Consistent(o, st) && !st.isOpen
    ensures var content := if o.append then Content(st.files, o.path) else [];
      var ready := State(st.files[o.path := content], true, Size(content), st.lastDay);
      && Consistent(o, ready)
      && Written(o, canOpen, st, line) == if canOpen then Written(o, canOpen, ready, line) else st
  {
  }

  // ----- Runs that need no rotation

  function Lines(ops: seq<Op>): File {
    if ops == [] then [] else (if ops[0].Write? then [ops[0].line] else []) + Lines(ops[1..])
  }

  /** Writes of records of one date. */
  predicate WritesOf(o: Options, ops: seq<Op>, day: nat) {
    forall k :: 0 <= k < |ops| ==> ops[k].Write? && (o.rotateDailyLocal ==> ops[k].line.day == day)
  }

  ghost predicate AllFitTogether(o: Options, files: Files, ops: seq<Op>) {
    o.maxFileBytes == 0 || Size(Content(files, o.path)) + Size(Lines(ops)) <= o.maxFileBytes
  }

  lemma SizeOfLines(ops: seq<Op>)
    requires ops != [] && ops[0].Write?
    ensures Lines(ops) == [ops[0].line] + Lines(ops[1..])
    ensures Size(Lines(ops)) == |ops[0].line.text| + Size(Lines(ops[1..]))
  {
    SizeOfOne(ops[0].line);
    SizeConcat([ops[0].line], Lines(ops[1..]));
  }

  /** The first of some records that fit together is appended, and the others fit behind it. */
  lemma FirstAppends(o: Options, st: State, ops: seq<Op>)
    requires Consistent(o, st) && st.isOpen && ops != [] && ops[0].Write?
    requires AllFitTogether(o, st.files, ops) && SameDate(o, st.lastDay, ops[0].line)
    ensures JustAppended(o, st, ops[0].line, Apply(o, st, ops[0]))
    ensures AllFitTogether(o, Apply(o, st, ops[0]).files, ops[1..])
  {
    SizeOfLines(ops);
    FittingWriteAppends(o, ops[0].canOpen, st, ops[0].line);
    SizeConcat(Content(st.files, o.path), [ops[0].line]);
    SizeOfOne(ops[0].line);
  }

  lemma AppendTwice(files: Files, path: string, content: File, a: File, b: File)
    ensures files[path := content + a][path := (content + a) + b] == files[path := content + (a + b)]
  {
    Regroup(content, a, b);
  }

  lemma OthersOf(o: Options, ops: seq<Op>, day: nat)
    requires ops != [] && WritesOf(o, ops, day)
    ensures ops[0].Write? && (o.rotateDailyLocal ==> ops[0].line.day == day) && WritesOf(o, ops[1..], day)
  {
  }

  /** Writes of one day that fit together into the open file never rotate: all files stay as they were, and the
      records follow each other behind the current one. */
  lemma {:induction false} FittingRunAppends(o: Options, st: State, ops: seq<Op>, day: nat)
    requires Consistent(o, st) && st.isOpen
    requires WritesOf(o, ops, day) && AllFitTogether(o, st.files, ops)
    requires o.rotateDailyLocal ==> st.lastDay == NO_DATE || st.lastDay == day
    ensures var after := Run(o, st, ops);
      after.isOpen && after.files == st.files[o.path := Content(st.files, o.path) + Lines(ops)]
    decreases |ops|
  {
    if ops == [] {
      assert Content(st.files, o.path) + [] == st.files[o.path];
    } else {
      OthersOf(o, ops, day);
      FirstAppends(o, st, ops);
      FittingRunAppends(o, Apply(o, st, ops[0]), ops[1..], day);
      SizeOfLines(ops);
      AppendTwice(st.files, o.path, Content(st.files, o.path), [ops[0].line], Lines(ops[1..]));
    }
  }

  // ----- What no call touches

  lemma RotationLeavesOthers(o: Options, canOpen: bool, st: State, name: string)
    requires name != o.path && !IsArchive(o.path, o.maxFiles, name)
    ensures Same(Rotated(o, canOpen, st).files, name, st.files, name)
  {
    ShiftIsShift(st.files, o.path, o.maxFiles);
    assert Same(Shift(st.files, o.path, o.maxFiles), name, st.files, name);
  }

  lemma OpenLeavesOthers(o: Options, canOpen: bool, st: State, name: string)
    requires Consistent(o, st) && name != o.path
    ensures Same(Opened(o, canOpen, st).files, name, st.files, name)
    ensures Same(Reached(o, canOpen, st).files, name, st.files, name)
  {
  }

  lemma RoomLeavesOthers(o: Options, canOpen: bool, st: State, line: Line, name: string)
    requires Consistent(o, st) && name != o.path && !IsArchive(o.path, o.maxFiles, name)
    ensures Same(MadeRoom(o, canOpen, st, line).files, name, st.files, name)
  {
    RotationLeavesOthers(o, canOpen, st, name);
    RotationLeavesOthers(o, canOpen, DateNoted(o, st, line), name);
  }

  lemma WriteLeavesOthers(o: Options, canOpen: bool, st: State, line: Line, name: string)
    requires Consistent(o, st) && name != o.path && !IsArchive(o.path, o.maxFiles, name)
    ensures Same(Written(o, canOpen, st, line).files, name, st.files, name)
  {
    var ready := Reached(o, canOpen, st);
    OpenLeavesOthers(o, canOpen, st, name);
    RoomLeavesOthers(o, canOpen, ready, line, name);
    OpenLeavesOthers(o, canOpen, MadeRoom(o, canOpen, ready, line), name);
  }

  lemma CallLeavesOthers(o: Options, st: State, op: Op, name: string)
    requires Consistent(o, st) && name != o.path && !IsArchive(o.path, o.maxFiles, name)
    ensures Same(Apply(o, st, op).files, name, st.files, name)
  {
    match op {
      case Write(canOpen, line) => WriteLeavesOthers(o, canOpen, st, line, name);
      case ForceRotate(canOpen) => RotationLeavesOthers(o, canOpen, st, name);
      case Reopen(canOpen) => OpenLeavesOthers(o, canOpen, st, name);
    }
  }

  /** No calls touch a file under any other name than the sink's own and its numbered ones. */
  lemma {:induction false} RunLeavesOthers(o: Options, st: State, ops: seq<Op>, name: string)
    requires Consistent(o, st) && name != o.path && !IsArchive(o.path, o.maxFiles, name)
    ensures Same(Run(o, st, ops).files, name, st.files, name)
    decreases |ops|
  {
    if ops != [] {
      CallLeavesOthers(o, st, ops[0], name);
      RunLeavesOthers(o, Apply(o, st, ops[0]), ops[1..], name);
    }
  }
}
