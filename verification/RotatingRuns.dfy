/** What any sequence of calls leaves on disk. */
module RotatingRuns {
  import opened RotatingFiles
  import opened RotatingFileSink

  /** One call, and whether files can be opened while it lasts. */
  datatype Op =
    | Write(canOpen: bool, line: Line)
    | ForceRotate(canOpen: bool)
    | Reopen(canOpen: bool)

  ghost function Apply(o: Options, st: State, op: Op): (r: State)
    requires Consistent(o, st)
    ensures Consistent(o, r)
  {
    match op
    case Write(canOpen, line) => Written(o, canOpen, st, line)
    case ForceRotate(canOpen) => Rotated(o, canOpen, st)
    case Reopen(canOpen) => Opened(o, canOpen, st)
  }

  ghost function Run(o: Options, st: State, ops: seq<Op>): (r: State)
    requires Consistent(o, st)
    ensures Consistent(o, r)
    decreases |ops|
  {
    if ops == [] then st else Run(o, Apply(o, st, ops[0]), ops[1..])
  }

  /** The state in which a Write finally puts its record, if it can. */
  ghost function Landing(o: Options, st: State, op: Op): State
    requires Consistent(o, st) && op.Write?
  {
    var ready := Reached(o, op.canOpen, st);
    if ready.isOpen then Reached(o, op.canOpen, MadeRoom(o, op.canOpen, ready, op.line)) else ready
  }

  /** The records a call adds: the one it writes, unless the file cannot be opened. */
  ghost function Added(o: Options, st: State, op: Op): File
    requires Consistent(o, st)
  {
    if op.Write? && Landing(o, st, op).isOpen then [op.line] else []
  }

  ghost function Stream(o: Options, st: State, ops: seq<Op>): File
    requires Consistent(o, st)
    decreases |ops|
  {
    if ops == [] then [] else Added(o, st, ops[0]) + Stream(o, Apply(o, st, ops[0]), ops[1..])
  }

  /** Whether a call rotates. */
  ghost predicate Rotates(o: Options, st: State, op: Op)
    requires Consistent(o, st)
  {
    match op
    case Write(canOpen, line) =>
      var ready := Reached(o, canOpen, st);
      ready.isOpen && (Overflows(o, ready, line) || DateChanged(o, ready, line))
    case ForceRotate(_) => true
    case Reopen(_) => false
  }

  ghost function Rotations(o: Options, st: State, ops: seq<Op>): nat
    requires Consistent(o, st)
    decreases |ops|
  {
    if ops == [] then 0
    else (if Rotates(o, st, ops[0]) then 1 else 0) + Rotations(o, Apply(o, st, ops[0]), ops[1..])
  }

  // ----- Nothing is lost but the oldest

  ghost function Kept(o: Options, st: State): File {
    Retained(st.files, o.path, o.maxFiles)
  }

  /** Opening the file destroys nothing: it appends, or is open already, or there is no file. */
  ghost predicate Intact(o: Options, st: State) {
    o.append || st.isOpen || o.path !in st.files
  }

  lemma OpenKeeps(o: Options, canOpen: bool, st: State)
    requires o.append || o.path !in st.files
    ensures Kept(o, Opened(o, canOpen, st)) == Kept(o, st) && Intact(o, Opened(o, canOpen, st))
  {
    AllSlotsDiffer(o.path);
    RetainedAppend(st.files, Opened(o, canOpen, st).files, o.path, o.maxFiles, []);
  }

  /** What a rotation pushes off the end. */
  ghost function PushedOff(o: Options, st: State): File {
    Content(st.files, Slot(o.path, o.maxFiles))
  }

  lemma RotateKeeps(o: Options, canOpen: bool, st: State)
    ensures Kept(o, st) == PushedOff(o, st) + Kept(o, Rotated(o, canOpen, st))
    ensures Intact(o, Rotated(o, canOpen, st))
  {
    var after := Shift(st.files, o.path, o.maxFiles);
    ShiftIsShift(st.files, o.path, o.maxFiles);
    ShiftRetains(st.files, after, o.path, o.maxFiles);
    OpenKeeps(o, canOpen, st.(files := after, isOpen := false, currentBytes := 0));
  }

  lemma PutKeeps(o: Options, st: State, line: Line)
    requires Consistent(o, st) && st.isOpen
    ensures Kept(o, Put(o, st, line)) == Kept(o, st) + [line]
  {
    AllSlotsDiffer(o.path);
    RetainedAppend(st.files, Put(o, st, line).files, o.path, o.maxFiles, [line]);
  }

  lemma ReachKeeps(o: Options, canOpen: bool, st: State)
    requires Consistent(o, st) && Intact(o, st)
    ensures Kept(o, Reached(o, canOpen, st)) == Kept(o, st) && Intact(o, Reached(o, canOpen, st))
  {
    if !st.isOpen { OpenKeeps(o, canOpen, st); }
  }

  lemma RoomKeeps(o: Options, canOpen: bool, st: State, line: Line)
    requires Consistent(o, st) && Intact(o, st)
    ensures var pushed := if Overflows(o, st, line) || DateChanged(o, st, line) then PushedOff(o, st) else [];
            Kept(o, st) == pushed + Kept(o, MadeRoom(o, canOpen, st, line))
    ensures Intact(o, MadeRoom(o, canOpen, st, line))
  {
    if Overflows(o, st, line) {
      RotateKeeps(o, canOpen, st);
    } else if DateChanged(o, st, line) {
      RotateKeeps(o, canOpen, DateNoted(o, st, line));
    }
  }

  /** The records a call pushes off the end: the oldest file, if it rotates. */
  ghost function Pushed(o: Options, st: State, op: Op): File
    requires Consistent(o, st)
  {
    if !Rotates(o, st, op) then []
    else PushedOff(o, if op.Write? then Reached(o, op.canOpen, st) else st)
  }

  /** A Write on an open file. */
  lemma OpenWriteKeeps(o: Options, canOpen: bool, st: State, line: Line)
    requires Consistent(o, st) && st.isOpen
    ensures var pushed := if Overflows(o, st, line) || DateChanged(o, st, line) then PushedOff(o, st) else [];
      var last := Reached(o, canOpen, MadeRoom(o, canOpen, st, line));
      if last.isOpen then Kept(o, st) + [line] == pushed + Kept(o, Put(o, last, line))
      else Kept(o, st) == pushed + Kept(o, last)
    ensures Intact(o, Reached(o, canOpen, MadeRoom(o, canOpen, st, line)))
  {
    var roomy := MadeRoom(o, canOpen, st, line);
    RoomKeeps(o, canOpen, st, line);
    ReachKeeps(o, canOpen, roomy);
    var pushed := if Overflows(o, st, line) || DateChanged(o, st, line) then PushedOff(o, st) else [];
    var last := Reached(o, canOpen, roomy);
    if last.isOpen {
      PutKeeps(o, last, line);
      Behind(pushed, Kept(o, last), [line]);
    }
  }

  lemma Behind(a: File, b: File, c: File)
    ensures (a + b) + c == a + (b + c)
  {
  }

  lemma WriteOnOpen(o: Options, st: State, op: Op)
    requires Consistent(o, st) && st.isOpen && op.Write?
    ensures var last := Reached(o, op.canOpen, MadeRoom(o, op.canOpen, st, op.line));
      && Apply(o, st, op) == (if last.isOpen then Put(o, last, op.line) else last)
      && Added(o, st, op) == (if last.isOpen then [op.line] else [])
      && Pushed(o, st, op) == if Overflows(o, st, op.line) || DateChanged(o, st, op.line) then PushedOff(o, st) else []
  {
  }

  /** A Write that opens the file first is a Write on the opened file. */
  lemma WriteOnOpened(o: Options, st: State, op: Op)
    requires Consistent(o, st) && op.Write?
    ensures var ready := Reached(o, op.canOpen, st);
      if ready.isOpen
      then && Apply(o, st, op) == Apply(o, ready, op)
           && Added(o, st, op) == Added(o, ready, op) && Pushed(o, st, op) == Pushed(o, ready, op)
      else Apply(o, st, op) == ready && Added(o, st, op) == [] && Pushed(o, st, op) == []
  {
  }

  lemma WriteKeeps(o: Options, st: State, op: Op)
    requires Consistent(o, st) && Intact(o, st) && op.Write?
    ensures Intact(o, Apply(o, st, op))
    ensures Kept(o, st) + Added(o, st, op) == Pushed(o, st, op) + Kept(o, Apply(o, st, op))
  {
    var ready := Reached(o, op.canOpen, st);
    ReachKeeps(o, op.canOpen, st);
    WriteOnOpened(o, st, op);
    if ready.isOpen {
      OpenWriteKeeps(o, op.canOpen, ready, op.line);
      WriteOnOpen(o, ready, op);
      assert Kept(o, ready) + [] == Kept(o, ready);
    } else {
      assert Kept(o, ready) + [] == Kept(o, ready) == [] + Kept(o, ready);
    }
  }

  /** Without Reopen in truncating mode, a call moves records off the end and adds its own: nothing
      else happens to what is retained. */
  lemma CallKeeps(o: Options, st: State, op: Op)
    requires Consistent(o, st) && Intact(o, st) && (o.append || !op.Reopen?)
    ensures Intact(o, Apply(o, st, op))
    ensures Kept(o, st) + Added(o, st, op) == Pushed(o, st, op) + Kept(o, Apply(o, st, op))
  {
    match op
    case Write(_, _) => WriteKeeps(o, st, op);
    case ForceRotate(canOpen) => RotateKeeps(o, canOpen, st);
    case Reopen(canOpen) => OpenKeeps(o, canOpen, st);
  }

  lemma Splice(kept: File, added: File, pushed: File, kept': File, later: File)
    requires kept + added == pushed + kept'
    ensures kept + (added + later) == pushed + (kept' + later)
  {
    assert kept + (added + later) == (kept + added) + later;
  }

  // ----- What truncating opens lose

  /** The content that an open in truncating mode destroys. */
  ghost function Overwritten(o: Options, canOpen: bool, st: State): File {
    if canOpen && !o.append then Content(st.files, o.path) else []
  }

  /** The same of a call: Reopen opens in any case, Write if the file is not open. The open at the end of a
      rotation finds no file. */
  ghost function Truncated(o: Options, st: State, op: Op): File {
    match op
    case Write(canOpen, _) => if st.isOpen then [] else Overwritten(o, canOpen, st)
    case ForceRotate(_) => []
    case Reopen(canOpen) => Overwritten(o, canOpen, st)
  }

  lemma OpenTruncates(o: Options, canOpen: bool, st: State)
    ensures Kept(o, st) == Kept(o, Opened(o, canOpen, st)) + Overwritten(o, canOpen, st)
  {
    var after, lost := Opened(o, canOpen, st).files, Overwritten(o, canOpen, st);
    AllSlotsDiffer(o.path);
    assert Content(after, o.path) + lost == Content(st.files, o.path);
    RetainedAppend(after, st.files, o.path, o.maxFiles, lost);
  }

  /** What a call leaves of the retained records before it moves and adds any. */
  ghost function Surviving(o: Options, st: State, op: Op): File {
    var kept, lost := Kept(o, st), Truncated(o, st, op);
    if |lost| <= |kept| then kept[..|kept| - |lost|] else kept
  }

  lemma DropLast(kept: File, rest: File, lost: File)
    requires kept == rest + lost
    ensures |lost| <= |kept| && kept[..|kept| - |lost|] == rest
  {
  }

  lemma WriteAccounts(o: Options, st: State, op: Op)
    requires Consistent(o, st) && op.Write?
    ensures var ready := Reached(o, op.canOpen, st);
      && Kept(o, st) == Kept(o, ready) + Truncated(o, st, op)
      && Kept(o, ready) + Added(o, st, op) == Pushed(o, st, op) + Kept(o, Apply(o, st, op))
  {
    var ready := Reached(o, op.canOpen, st);
    if st.isOpen {
      assert Kept(o, st) + [] == Kept(o, st);
    } else {
      OpenTruncates(o, op.canOpen, st);
    }
    WriteOnOpened(o, st, op);
    if ready.isOpen {
      WriteKeeps(o, ready, op);
    } else {
      assert Kept(o, ready) + [] == Kept(o, ready) == [] + Kept(o, ready);
    }
  }

  /** In any state, open or not, appending or truncating: a call destroys at the newest end exactly what
      it overwrites by opening, pushes whole records off the oldest end, and adds its own at the newest. */
  lemma CallAccounts(o: Options, st: State, op: Op)
    requires Consistent(o, st)
    ensures Kept(o, st) == Surviving(o, st, op) + Truncated(o, st, op)
    ensures Surviving(o, st, op) + Added(o, st, op) == Pushed(o, st, op) + Kept(o, Apply(o, st, op))
  {
    match op
    case Write(canOpen, _) =>
      WriteAccounts(o, st, op);
      DropLast(Kept(o, st), Kept(o, Reached(o, canOpen, st)), Truncated(o, st, op));
    case ForceRotate(canOpen) =>
      RotateKeeps(o, canOpen, st);
      assert Kept(o, st) + [] == Kept(o, st);
      DropLast(Kept(o, st), Kept(o, st), []);
    case Reopen(canOpen) =>
      OpenTruncates(o, canOpen, st);
      DropLast(Kept(o, st), Kept(o, Opened(o, canOpen, st)), Truncated(o, st, op));
      assert Surviving(o, st, op) + [] == [] + Surviving(o, st, op);
  }

  /** A call loses records at the newest end only if it is a Reopen in truncating mode, or an open is due
      that would truncate an existing file. */
  lemma OnlyOpensTruncate(o: Options, st: State, op: Op)
    ensures Truncated(o, st, op) != [] ==> !o.append && (op.Reopen? || !Intact(o, st))
  {
  }

  /** A Reopen that fails loses nothing, but the Write that opens the file next loses all of it. */
  lemma FailedReopenTruncates(o: Options, st: State, line: Line)
    requires Consistent(o, st) && !o.append
    ensures Truncated(o, st, Reopen(false)) == []
    ensures Truncated(o, Apply(o, st, Reopen(false)), Write(true, line)) == Content(st.files, o.path)
  {
  }

  /** In truncating mode a Reopen that succeeds loses the current file. */
  lemma ReopenTruncates(o: Options, st: State)
    requires Consistent(o, st) && !o.append
    ensures Kept(o, st) == Kept(o, Apply(o, st, Reopen(true))) + Content(st.files, o.path)
  {
    OpenTruncates(o, true, st);
  }

  // ----- Whole runs

  ghost predicate NothingTruncated(o: Options, st: State, ops: seq<Op>)
    requires Consistent(o, st)
    decreases |ops|
  {
    ops == [] || (Truncated(o, st, ops[0]) == [] && NothingTruncated(o, Apply(o, st, ops[0]), ops[1..]))
  }

  lemma {:induction false} IntactIsNotTruncated(o: Options, st: State, ops: seq<Op>)
    requires Consistent(o, st) && Intact(o, st)
    requires o.append || forall k :: 0 <= k < |ops| ==> !ops[k].Reopen?
    ensures NothingTruncated(o, st, ops)
    decreases |ops|
  {
    if ops != [] {
      OnlyOpensTruncate(o, st, ops[0]);
      CallKeeps(o, st, ops[0]);
      IntactIsNotTruncated(o, Apply(o, st, ops[0]), ops[1..]);
    }
  }

  lemma CallPushes(o: Options, st: State, op: Op)
    requires Consistent(o, st) && Truncated(o, st, op) == []
    ensures Kept(o, st) + Added(o, st, op) == Pushed(o, st, op) + Kept(o, Apply(o, st, op))
  {
    CallAccounts(o, st, op);
    assert Surviving(o, st, op) + [] == Surviving(o, st, op);
  }

  /** If no call of a run truncates, the retained files hold a suffix, cut between records, of what was
      retained at first followed by all that was written. */
  lemma {:induction false} UntruncatedRunKeepsSuffix(o: Options, st: State, ops: seq<Op>) returns (cut: nat)
    requires Consistent(o, st) && NothingTruncated(o, st, ops)
    ensures cut <= |Kept(o, st) + Stream(o, st, ops)|
    ensures Kept(o, Run(o, st, ops)) == (Kept(o, st) + Stream(o, st, ops))[cut..]
    decreases |ops|
  {
    if ops == [] {
      cut := 0;
    } else {
      var next, pushed := Apply(o, st, ops[0]), Pushed(o, st, ops[0]);
      CallPushes(o, st, ops[0]);
      var rest := UntruncatedRunKeepsSuffix(o, next, ops[1..]);
      Splice(Kept(o, st), Added(o, st, ops[0]), pushed, Kept(o, next), Stream(o, next, ops[1..]));
      cut := |pushed| + rest;
    }
  }

  /** So it is whatever is called, in append mode or without Reopen. */
  lemma RunKeepsSuffix(o: Options, st: State, ops: seq<Op>) returns (cut: nat)
    requires Consistent(o, st) && Intact(o, st)
    requires o.append || forall k :: 0 <= k < |ops| ==> !ops[k].Reopen?
    ensures cut <= |Kept(o, st) + Stream(o, st, ops)|
    ensures Kept(o, Run(o, st, ops)) == (Kept(o, st) + Stream(o, st, ops))[cut..]
  {
    IntactIsNotTruncated(o, st, ops);
    cut := UntruncatedRunKeepsSuffix(o, st, ops);
  }

  // ----- The whole stream

  /** At most the first r archives exist. */
  ghost predicate OnlyFirst(o: Options, st: State, r: nat) {
    forall k: nat :: r < k <= o.maxFiles ==> Slot(o.path, k) !in st.files
  }

  lemma RotateFills(o: Options, canOpen: bool, st: State, r: nat)
    requires OnlyFirst(o, st, r)
    ensures OnlyFirst(o, Rotated(o, canOpen, st), r + 1)
  {
    AllSlotsDiffer(o.path);
    var after := Shift(st.files, o.path, o.maxFiles);
    ShiftIsShift(st.files, o.path, o.maxFiles);
    forall k: nat | r + 1 < k <= o.maxFiles ensures Slot(o.path, k) !in Rotated(o, canOpen, st).files {
      assert Same(after, Slot(o.path, k), st.files, Slot(o.path, k - 1));
      assert Slot(o.path, k) != Slot(o.path, 0);
    }
  }

  lemma CallFills(o: Options, st: State, op: Op, r: nat)
    requires Consistent(o, st) && OnlyFirst(o, st, r)
    ensures OnlyFirst(o, Apply(o, st, op), r + (if Rotates(o, st, op) then 1 else 0))
    ensures r < o.maxFiles ==> Pushed(o, st, op) == []
  {
    AllSlotsDiffer(o.path);
    assert Slot(o.path, 0) == o.path;
    match op
    case Write(canOpen, line) =>
      var ready := Reached(o, canOpen, st);
      if Rotates(o, st, op) {
        RotateFills(o, canOpen, ready, r);
        RotateFills(o, canOpen, DateNoted(o, ready, line), r);
      }
    case ForceRotate(canOpen) => RotateFills(o, canOpen, st, r);
    case Reopen(canOpen) =>
  }

  /** With r archives at first and room for every rotation, nothing is lost at all. */
  lemma {:induction false} RunKeepsAll(o: Options, st: State, ops: seq<Op>, r: nat)
    requires Consistent(o, st) && Intact(o, st) && OnlyFirst(o, st, r)
    requires o.append || forall k :: 0 <= k < |ops| ==> !ops[k].Reopen?
    requires r + Rotations(o, st, ops) <= o.maxFiles
    ensures Kept(o, Run(o, st, ops)) == Kept(o, st) + Stream(o, st, ops)
    decreases |ops|
  {
    if ops != [] {
      var next := Apply(o, st, ops[0]);
      CallKeeps(o, st, ops[0]);
      CallFills(o, st, ops[0], r);
      assert Pushed(o, st, ops[0]) == [];
      RunKeepsAll(o, next, ops[1..], if Rotates(o, st, ops[0]) then r + 1 else r);
      Splice(Kept(o, st), Added(o, st, ops[0]), [], Kept(o, next), Stream(o, next, ops[1..]));
    }
  }
}
