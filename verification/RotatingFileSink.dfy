/** The rotating file sink: its methods, and the function on its state that each one computes. */
module RotatingFileSink {
  import opened RotatingFiles

  datatype Options = Options(
    path: string, append: bool, maxFileBytes: nat, maxFiles: nat,
    rotateAtStartup: bool, rotateDailyLocal: bool)

  const NO_DATE: int := -1

  /** What the sink knows and what the disk holds. */
  datatype State = State(files: Files, isOpen: bool, currentBytes: nat, lastDay: int)

  /** An open file exists, and the sink knows its size. */
  ghost predicate Consistent(o: Options, st: State) {
    st.isOpen ==> o.path in st.files && st.currentBytes == Size(st.files[o.path])
  }

  ghost function Opened(o: Options, canOpen: bool, st: State): (r: State)
    ensures Consistent(o, r)
  {
    if !canOpen then st.(isOpen := false)
    else
      var content := if o.append then Content(st.files, o.path) else [];
      st.(files := st.files[o.path := content], isOpen := true, currentBytes := Size(content))
  }

  ghost function Rotated(o: Options, canOpen: bool, st: State): (r: State)
    ensures Consistent(o, r)
  {
    Opened(o, canOpen, st.(files := Shift(st.files, o.path, o.maxFiles), isOpen := false, currentBytes := 0))
  }

  ghost predicate Overflows(o: Options, st: State, line: Line) {
    o.maxFileBytes > 0 && st.currentBytes + |line.text| > o.maxFileBytes
  }

  /** The date test remembers the date it has seen; it is not made when the size test has decided. */
  ghost predicate DateChanged(o: Options, st: State, line: Line) {
    o.rotateDailyLocal && st.lastDay != NO_DATE && st.lastDay != line.day
  }

  ghost function DateNoted(o: Options, st: State, line: Line): State {
    if o.rotateDailyLocal then st.(lastDay := line.day) else st
  }

  /** Before the record goes out: rotated if a limit says so. */
  ghost function MadeRoom(o: Options, canOpen: bool, st: State, line: Line): (r: State)
    requires Consistent(o, st)
    ensures Consistent(o, r)
  {
    if Overflows(o, st, line) then Rotated(o, canOpen, st)
    else if DateChanged(o, st, line) then Rotated(o, canOpen, DateNoted(o, st, line))
    else DateNoted(o, st, line)
  }

  ghost function Reached(o: Options, canOpen: bool, st: State): (r: State)
    requires Consistent(o, st)
    ensures Consistent(o, r)
  {
    if st.isOpen then st else Opened(o, canOpen, st)
  }

  ghost function Put(o: Options, st: State, line: Line): (r: State)
    requires Consistent(o, st) && st.isOpen
    ensures Consistent(o, r)
  {
    var content := st.files[o.path] + [line];
    assert content[..|content| - 1] == st.files[o.path];
    st.(files := st.files[o.path := content], currentBytes := st.currentBytes + |line.text|)
  }

  ghost function Written(o: Options, canOpen: bool, st: State, line: Line): (r: State)
    requires Consistent(o, st)
    ensures Consistent(o, r)
  {
    var ready := Reached(o, canOpen, st);
    if !ready.isOpen then ready
    else
      var last := Reached(o, canOpen, MadeRoom(o, canOpen, ready, line));
      if last.isOpen then Put(o, last, line) else last
  }

  /** The content that a rotation drops. */
  ghost function OldestOf(o: Options, files: Files): seq<File> {
    var oldest := Slot(o.path, o.maxFiles);
    if oldest in files then [files[oldest]] else []
  }

  // ----- The sink

  class RotatingFileSink {
    const options: Options
    const disk: FileSystem
    var isOpen: bool
    var currentFileBytes: nat
    var lastLocalDateKey: int

    ghost function Now(): State
      reads this, disk
    {
      State(disk.files, isOpen, currentFileBytes, lastLocalDateKey)
    }

    ghost predicate Valid()
      reads this, disk
    {
      Consistent(options, Now())
    }

    constructor (options: Options, disk: FileSystem)
      modifies disk`files, disk`lost
      ensures this.options == options && this.disk == disk && Valid()
      ensures var first := Opened(options, disk.canOpen, State(old(disk.files), false, 0, NO_DATE));
              Now() == if options.rotateAtStartup then Rotated(options, disk.canOpen, first) else first
    {
      this.options := options;
      this.disk := disk;
      isOpen, currentFileBytes, lastLocalDateKey := false, 0, NO_DATE;
      new;
      var ok := OpenFileLocked();
      if options.rotateAtStartup {
        ok := RotateLocked();
      }
    }

    method OpenFileLocked() returns (ok: bool)
      modifies this`isOpen, this`currentFileBytes, disk`files, disk`lost
      ensures Now() == Opened(options, disk.canOpen, old(Now())) && ok == isOpen
      ensures disk.lost == old(disk.lost) +
                (if disk.canOpen && !options.append && options.path in old(disk.files)
                 then [old(disk.files)[options.path]] else [])
    {
      isOpen := disk.Open(options.path, options.append);
      if isOpen {
        currentFileBytes := Size(disk.files[options.path]);
      }
      return isOpen;
    }

    method CloseFileLocked()
      modifies this`isOpen
      ensures Now() == old(Now()).(isOpen := false)
    {
      isOpen := false;
    }

    /** Shifts every file one number up. Only the oldest is lost: no rename lands on a file. */
    method RotateLocked() returns (ok: bool)
      modifies this`isOpen, this`currentFileBytes, disk`files, disk`lost
      ensures Now() == Rotated(options, disk.canOpen, old(Now())) && ok == isOpen
      ensures disk.lost == old(disk.lost) + OldestOf(options, old(disk.files))
    {
      CloseFileLocked();
      ShiftFiles();
      currentFileBytes := 0;
      ok := OpenFileLocked();
    }

    method ShiftFiles()
      modifies disk`files, disk`lost
      ensures disk.files == Shift(old(disk.files), options.path, options.maxFiles)
      ensures disk.lost == old(disk.lost) + OldestOf(options, old(disk.files))
    {
      ghost var before := disk.files;
      var path, n := options.path, options.maxFiles;
      if n > 0 {
        disk.Remove(Slot(path, n));
        OldestRemoved(before, path, n);
        var index := n;
        while index > 1
          invariant 1 <= index <= n
          invariant disk.lost == old(disk.lost) + OldestOf(options, before)
          invariant MovedAbove(before, disk.files, path, n, index)
        {
          GapMovesDown(before, disk.files, path, n, index);
          var source, target := Slot(path, index - 1), Slot(path, index);
          if source in disk.files {
            disk.Rename(source, target);
          }
          index := index - 1;
        }
        GapMovesDown(before, disk.files, path, n, 1);
        if path in disk.files {
          disk.Rename(path, Slot(path, 1));
        }
      } else {
        disk.Remove(path);
      }
      ShiftIsUnique(before, disk.files, path, n);
    }

    method ShouldRotateByDateLocked(line: Line) returns (rotate: bool)
      modifies this`lastLocalDateKey
      ensures rotate == DateChanged(options, old(Now()), line)
      ensures Now() == DateNoted(options, old(Now()), line)
    {
      if !options.rotateDailyLocal {
        return false;
      }
      if lastLocalDateKey == NO_DATE {
        lastLocalDateKey := line.day;
        return false;
      }
      if line.day != lastLocalDateKey {
        lastLocalDateKey := line.day;
        return true;
      }
      return false;
    }

    method MakeRoom(line: Line)
      requires Valid()
      modifies this, disk`files, disk`lost
      ensures Valid() && Now() == MadeRoom(options, disk.canOpen, old(Now()), line)
    {
      var rotate := options.maxFileBytes > 0 && currentFileBytes + |line.text| > options.maxFileBytes;
      if !rotate {
        rotate := ShouldRotateByDateLocked(line);
      }
      if rotate {
        var ok := RotateLocked();
      }
    }

    /** Opens the file unless it is open. */
    method Reach() returns (ok: bool)
      requires Valid()
      modifies this, disk`files, disk`lost
      ensures Valid() && Now() == Reached(options, disk.canOpen, old(Now())) && ok == isOpen
    {
      ok := isOpen;
      if !isOpen {
        ok := OpenFileLocked();
      }
    }

    method Append(line: Line)
      requires Valid() && isOpen
      modifies this, disk`files
      ensures Valid() && Now() == Put(options, old(Now()), line)
    {
      disk.Append(options.path, line);
      currentFileBytes := currentFileBytes + |line.text|;
    }

    method Write(line: Line)
      requires Valid()
      modifies this, disk`files, disk`lost
      ensures Valid() && Now() == Written(options, disk.canOpen, old(Now()), line)
    {
      var ok := Reach();
      if !ok { return; }
      MakeRoom(line);
      ok := Reach();
      if !ok { return; }
      Append(line);
    }

    method ForceRotate() returns (ok: bool)
      requires Valid()
      modifies this, disk`files, disk`lost
      ensures Valid() && Now() == Rotated(options, disk.canOpen, old(Now())) && ok == isOpen
    {
      ok := RotateLocked();
    }

    method Reopen() returns (ok: bool)
      requires Valid()
      modifies this, disk`files, disk`lost
      ensures Valid() && Now() == Opened(options, disk.canOpen, old(Now())) && ok == isOpen
    {
      CloseFileLocked();
      ok := OpenFileLocked();
    }
  }
}
