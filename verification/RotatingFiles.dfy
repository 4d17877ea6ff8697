/** The file system as the rotating sink sees it, and the rotation as a law about file names. */
module RotatingFiles {
  import opened Decimal

  /** A formatted record and the local date of its timestamp. */
  datatype Line = Line(text: string, day: nat)

  type File = seq<Line>

  type Files = map<string, File>

  function Size(file: File): nat {
    if file == [] then 0 else Size(file[..|file| - 1]) + |file[|file| - 1].text|
  }

  lemma {:induction false} SizeConcat(a: File, b: File)
    ensures Size(a + b) == Size(a) + Size(b)
  {
    if b == [] {
      assert a + b == a;
    } else {
      assert (a + b)[..|a + b| - 1] == a + b[..|b| - 1];
      SizeConcat(a, b[..|b| - 1]);
    }
  }

  class FileSystem {
    var files: Files
    /** Whether fopen succeeds; outside events may change this between calls of the sink. */
    var canOpen: bool
    /** Contents that a removal, an overwriting rename or a truncating open has destroyed. */
    ghost var lost: seq<File>

    method Remove(name: string)
      modifies this`files, this`lost
      ensures files == old(files) - {name}
      ensures lost == old(lost) + (if name in old(files) then [old(files)[name]] else [])
    {
      if name in files { lost := lost + [files[name]]; }
      files := files - {name};
    }

    /** Renaming replaces an existing target. */
    method Rename(source: string, target: string)
      requires source in files && source != target
      modifies this`files, this`lost
      ensures files == (old(files) - {source})[target := old(files)[source]]
      ensures lost == old(lost) + (if target in old(files) then [old(files)[target]] else [])
    {
      if target in files { lost := lost + [files[target]]; }
      files := (files - {source})[target := files[source]];
    }

    /** fopen with mode "ab" or "wb". */
    method Open(name: string, append: bool) returns (ok: bool)
      modifies this`files, this`lost
      ensures ok == canOpen
      ensures !ok ==> files == old(files) && lost == old(lost)
      ensures ok ==> files == old(files)[name := if append && name in old(files) then old(files)[name] else []]
      ensures ok ==> lost == old(lost) + (if !append && name in old(files) then [old(files)[name]] else [])
    {
      if !canOpen { return false; }
      if name !in files {
        files := files[name := []];
      } else if !append {
        lost := lost + [files[name]];
        files := files[name := []];
      }
      return true;
    }

    method Append(name: string, line: Line)
      requires name in files
      modifies this`files
      ensures files == old(files)[name := old(files)[name] + [line]]
    {
      files := files[name := files[name] + [line]];
    }
  }

  // ----- Numbered names

  /** The name of the k-th file back; the current file is number 0. */
  function Slot(path: string, k: nat): string {
    if k == 0 then path else path + "." + Dec(k)
  }

  /** Archives are named by their number behind a dot: "app.log.1", "app.log.2", and so on. */
  lemma {:induction false} SlotNames(path: string, k: nat, digits: string)
    requires 0 < k && digits != "" && AllDigits(digits) && digits[0] != '0' && NumberOf(digits) == k
    ensures Slot(path, k) == path + "." + digits && Slot(path, 0) == path
  {
    DecOfDigits(digits);
  }

  lemma SlotsDiffer(path: string, j: nat, k: nat)
    requires j != k
    ensures Slot(path, j) != Slot(path, k)
  {
    if Slot(path, j) == Slot(path, k) {
      if j != 0 && k != 0 {
        assert Slot(path, j)[|path| + 1..] == Dec(j) && Slot(path, k)[|path| + 1..] == Dec(k);
        NumberOfDec(j);
        NumberOfDec(k);
      }
    }
  }

  lemma AllSlotsDiffer(path: string)
    ensures forall j: nat, k: nat :: Slot(path, j) == Slot(path, k) ==> j == k
  {
    forall j: nat, k: nat | j != k ensures Slot(path, j) != Slot(path, k) {
      SlotsDiffer(path, j, k);
    }
  }

  /** What a name held in one file map another name holds in the other. */
  ghost predicate Same(after: Files, a: string, before: Files, b: string) {
    (a in after <==> b in before) && (a in after ==> after[a] == before[b])
  }

  ghost predicate IsArchive(path: string, n: nat, name: string) {
    exists k: nat :: 1 <= k <= n && name == Slot(path, k)
  }

  /** The files after one rotation: each moves one number up, the last is dropped, and every other
      name is left alone. */
  ghost predicate IsShift(before: Files, after: Files, path: string, n: nat) {
    && path !in after
    && (forall k: nat :: 1 <= k <= n ==> Same(after, Slot(path, k), before, Slot(path, k - 1)))
    && (forall name :: name != path && !IsArchive(path, n, name) ==> Same(after, name, before, name))
  }

  /** Half-way through a rotation: the files above a gap have moved up, those below it have not. */
  ghost predicate MovedAbove(before: Files, now: Files, path: string, n: nat, gap: nat) {
    && Slot(path, gap) !in now
    && (forall k: nat :: gap < k <= n ==> Same(now, Slot(path, k), before, Slot(path, k - 1)))
    && (forall k: nat :: k < gap ==> Same(now, Slot(path, k), before, Slot(path, k)))
    && (forall name :: name != path && !IsArchive(path, n, name) ==> Same(now, name, before, name))
  }

  lemma OldestRemoved(before: Files, path: string, n: nat)
    requires n > 0
    ensures MovedAbove(before, before - {Slot(path, n)}, path, n, n)
  {
    AllSlotsDiffer(path);
    assert IsArchive(path, n, Slot(path, n));
  }

  /** Renaming the file below the gap, if there is one, moves the gap down. */
  lemma GapMovesDown(before: Files, now: Files, path: string, n: nat, gap: nat)
    requires MovedAbove(before, now, path, n, gap) && 1 <= gap <= n
    ensures var source, target := Slot(path, gap - 1), Slot(path, gap);
            var next := if source in now then (now - {source})[target := now[source]] else now;
            target !in now && source != target && MovedAbove(before, next, path, n, gap - 1)
  {
    AllSlotsDiffer(path);
    var source, target := Slot(path, gap - 1), Slot(path, gap);
    var next := if source in now then (now - {source})[target := now[source]] else now;
    assert IsArchive(path, n, target);
    assert source == path || IsArchive(path, n, source);
    assert Same(now, source, before, source);
    forall k: nat | gap - 1 < k <= n ensures Same(next, Slot(path, k), before, Slot(path, k - 1)) {
      if k > gap { assert Same(now, Slot(path, k), before, Slot(path, k - 1)); }
    }
    forall k: nat | k < gap - 1 ensures Same(next, Slot(path, k), before, Slot(path, k)) {
      assert Same(now, Slot(path, k), before, Slot(path, k));
    }
    forall name | name != path && !IsArchive(path, n, name) ensures Same(next, name, before, name) {
      assert Same(now, name, before, name);
    }
  }

  /** Where a file's content was before a rotation. */
  ghost function Origin(path: string, n: nat, name: string): string {
    if IsArchive(path, n, name) then
      var k: nat :| 1 <= k <= n && name == Slot(path, k);
      Slot(path, k - 1)
    else name
  }

  ghost function Shift(files: Files, path: string, n: nat): Files {
    map name | name in files.Keys + (set k: nat | 1 <= k <= n :: Slot(path, k))
               && name != path && Origin(path, n, name) in files
      :: files[Origin(path, n, name)]
  }

  lemma OriginOfSlot(path: string, n: nat, k: nat)
    requires 1 <= k <= n
    ensures Slot(path, k) != path && IsArchive(path, n, Slot(path, k))
    ensures Origin(path, n, Slot(path, k)) == Slot(path, k - 1)
  {
    assert IsArchive(path, n, Slot(path, k));
    var j: nat :| 1 <= j <= n && Slot(path, k) == Slot(path, j) && Origin(path, n, Slot(path, k)) == Slot(path, j - 1);
    if j != k { SlotsDiffer(path, j, k); }
    SlotsDiffer(path, k, 0);
  }

  lemma ShiftIsShift(files: Files, path: string, n: nat)
    ensures IsShift(files, Shift(files, path, n), path, n)
  {
    forall k: nat | 1 <= k <= n
      ensures Same(Shift(files, path, n), Slot(path, k), files, Slot(path, k - 1))
    {
      OriginOfSlot(path, n, k);
    }
  }

  /** There is only one way to be the shifted files. */
  lemma ShiftIsUnique(files: Files, after: Files, path: string, n: nat)
    requires IsShift(files, after, path, n)
    ensures after == Shift(files, path, n)
  {
    var shifted := Shift(files, path, n);
    ShiftIsShift(files, path, n);
    forall name ensures Same(after, name, shifted, name) {
      if IsArchive(path, n, name) {
        var k: nat :| 1 <= k <= n && name == Slot(path, k);
        assert Same(after, Slot(path, k), files, Slot(path, k - 1));
        assert Same(shifted, Slot(path, k), files, Slot(path, k - 1));
      } else if name != path {
        assert Same(after, name, files, name) && Same(shifted, name, files, name);
      }
    }
    assert after.Keys == shifted.Keys by {
      forall name ensures name in after <==> name in shifted { assert Same(after, name, shifted, name); }
    }
    forall name | name in after ensures after[name] == shifted[name] {
      assert Same(after, name, shifted, name);
    }
  }

  // ----- What is retained

  function Content(files: Files, name: string): File {
    if name in files then files[name] else []
  }

  /** path.n, ..., path.1, path, read in this order. */
  function Retained(files: Files, path: string, n: nat): File {
    Content(files, Slot(path, n)) + (if n == 0 then [] else Retained(files, path, n - 1))
  }

  /** A rotation loses the oldest file and nothing else. */
  lemma ShiftRetains(before: Files, after: Files, path: string, n: nat)
    requires IsShift(before, after, path, n)
    ensures Retained(before, path, n) == Content(before, Slot(path, n)) + Retained(after, path, n) || n == 0
    ensures n == 0 ==> Retained(after, path, n) == []
  {
    if n > 0 { ShiftRetainsFrom(before, after, path, n, n); }
  }

  lemma {:induction false} ShiftRetainsFrom(before: Files, after: Files, path: string, n: nat, k: nat)
    requires IsShift(before, after, path, n) && 1 <= k <= n
    ensures Retained(after, path, k) == Retained(before, path, k - 1)
  {
    assert Same(after, Slot(path, k), before, Slot(path, k - 1));
    if k > 1 {
      ShiftRetainsFrom(before, after, path, n, k - 1);
    } else {
      assert Slot(path, 0) == path;
      assert Retained(after, path, 0) == [];
    }
  }

  lemma RetainedFirst(files: Files, path: string)
    ensures Retained(files, path, 0) == Content(files, path)
  {
    assert Content(files, path) + [] == Content(files, path);
  }

  lemma Regroup(a: File, b: File, c: File)
    ensures a + (b + c) == (a + b) + c
  {
  }

  /** Files that agree on the numbered names retain the same. */
  lemma {:induction false} RetainedAppend(before: Files, after: Files, path: string, n: nat, lines: File)
    requires Content(after, path) == Content(before, path) + lines
    requires forall k: nat :: 1 <= k <= n ==> Content(after, Slot(path, k)) == Content(before, Slot(path, k))
    ensures Retained(after, path, n) == Retained(before, path, n) + lines
  {
    if n == 0 {
      RetainedFirst(before, path);
      RetainedFirst(after, path);
    } else {
      RetainedAppend(before, after, path, n - 1, lines);
      Regroup(Content(before, Slot(path, n)), Retained(before, path, n - 1), lines);
    }
  }
}
