// Size-based file rotation. A file is the sequence of its lines; the directory maps names to files.

module Rotation {
  import opened LogLevels

  /** `Current` is "<base>.log", `Slot(i)` is "<base>.<i>.log". */
  datatype Name = Current | Slot(index: nat)

  type File = seq<string>
  type Directory = map<Name, File>

  function Size(file: File): nat {
    if file == [] then 0 else Size(file[..|file| - 1]) + |file[|file| - 1]|
  }

  function At(dir: Directory, name: Name): Option<File> {
    if name in dir then Some(dir[name]) else None
  }

  /** std::rename: the target is replaced, the source disappears. */
  function Rename(dir: Directory, from: Name, to: Name): Directory
    requires from in dir
  {
    (dir - {from})[to := dir[from]]
  }

  /** The rename chain for i = top, ..., 1. */
  function Chain(dir: Directory, top: nat): Directory
    decreases top
  {
    if top == 0 then dir
    else Chain(if Slot(top - 1) in dir then Rename(dir, Slot(top - 1), Slot(top)) else dir, top - 1)
  }

  /** Opening for append creates the file when it is missing. */
  function Opened(dir: Directory): (d: Directory)
    ensures Current in d
  {
    if Current in dir then dir else dir[Current := []]
  }

  function Rotated(dir: Directory, maxFiles: nat): (d: Directory)
    requires Current in dir
    ensures Current in d
  {
    ChainEffect(dir, maxFiles);
    Opened(Rename(Chain(dir, maxFiles), Current, Slot(0)))
  }

  function Logged(dir: Directory, maxSize: nat, maxFiles: nat, line: string): (d: Directory)
    requires Current in dir
    ensures Current in d
  {
    var written := dir[Current := dir[Current] + [line]];
    if Size(written[Current]) >= maxSize then Rotated(written, maxFiles) else written
  }

  class RotatingFileSink {
    const max_size: nat
    const max_files: nat
    var sink_level: LogLevel
    var current_size: nat
    /** The file system the sink works on. */
    var dir: Directory

    ghost predicate Valid()
      reads this
    {
      Current in dir && current_size == Size(dir[Current])
    }

    constructor (max_size: nat, max_files: nat, directory: Directory)
      ensures Valid() && this.max_size == max_size && this.max_files == max_files
      ensures dir == Opened(directory) && sink_level == Trace
    {
      this.max_size, this.max_files, sink_level := max_size, max_files, Trace;
      dir := Opened(directory);
      current_size := Size(Opened(directory)[Current]);
    }

    method OpenFile()
      modifies this`dir, this`current_size
      ensures Valid() && dir == Opened(old(dir))
    {
      if Current !in dir {
        dir := dir[Current := []];
      }
      current_size := Size(dir[Current]);
    }

    method Rotate()
      requires Current in dir
      modifies this`dir, this`current_size
      ensures Valid() && dir == Rotated(old(dir), max_files)
    {
      for i := max_files downto 0
        invariant Chain(dir, i) == Chain(old(dir), max_files)
      {
        if Slot(i) in dir {
          dir := Rename(dir, Slot(i), Slot(i + 1));
        }
      }
      ChainEffect(old(dir), max_files);
      dir := Rename(dir, Current, Slot(0));
      OpenFile();
    }

    method Log(level: LogLevel, line: string)
      requires Valid()
      modifies this`dir, this`current_size
      ensures Valid()
      ensures dir == if level.Below(sink_level) then old(dir) else Logged(old(dir), max_size, max_files, line)
    {
      if level.Below(sink_level) {
        return;
      }
      dir := dir[Current := dir[Current] + [line]];
      current_size := current_size + |line|;
      if current_size >= max_size {
        Rotate();
      }
    }
  }

  // ---------- The rename chain ----------

  /** What the chain leaves in slot `k`. */
  function ShiftedSlot(dir: Directory, top: nat, k: nat): Option<File> {
    if k > top then At(dir, Slot(k))
    else if k == 0 then (if top == 0 then At(dir, Slot(0)) else None)
    else if Slot(k - 1) in dir then At(dir, Slot(k - 1))
    else if k == top then At(dir, Slot(top))
    else None
  }

  /** Every slot up to `top` receives its lower neighbour, all at once. */
  lemma {:induction false} ChainEffect(dir: Directory, top: nat)
    ensures forall k: nat :: At(Chain(dir, top), Slot(k)) == ShiftedSlot(dir, top, k)
    ensures At(Chain(dir, top), Current) == At(dir, Current)
    decreases top
  {
    if top == 0 {
    } else {
      var next := if Slot(top - 1) in dir then Rename(dir, Slot(top - 1), Slot(top)) else dir;
      ChainEffect(next, top - 1);
      forall k: nat
        ensures At(Chain(dir, top), Slot(k)) == ShiftedSlot(dir, top, k)
      {
        FirstRename(dir, top, k);
      }
    }
  }

  /** The chain's first rename does its part of the shift. */
  lemma FirstRename(dir: Directory, top: nat, k: nat)
    requires top > 0
    ensures var next := if Slot(top - 1) in dir then Rename(dir, Slot(top - 1), Slot(top)) else dir;
            ShiftedSlot(next, top - 1, k) == ShiftedSlot(dir, top, k)
  {
  }

  // ---------- What a directory holds ----------

  ghost predicate Contiguous(dir: Directory, slots: nat) {
    Current in dir && forall k: nat :: Slot(k) in dir <==> k < slots
  }

  /** The rotated files, oldest first. */
  function Older(dir: Directory, slots: nat): seq<string>
    requires forall k: nat :: k < slots ==> Slot(k) in dir
  {
    if slots == 0 then [] else dir[Slot(slots - 1)] + Older(dir, slots - 1)
  }

  function AllLines(dir: Directory, slots: nat): seq<string>
    requires Contiguous(dir, slots)
  {
    Older(dir, slots) + dir[Current]
  }

  /** A rotated file: it reached the limit with its last line and not before. */
  ghost predicate Full(file: File, maxSize: nat) {
    file != [] && Size(file) >= maxSize && (|file| == 1 || Size(file[..|file| - 1]) < maxSize)
  }

  ghost predicate Filling(file: File, maxSize: nat) {
    file == [] || Size(file) < maxSize
  }

  /** A directory as a sink with these limits leaves it. */
  ghost predicate Tidy(dir: Directory, slots: nat, maxSize: nat, maxFiles: nat) {
    && Contiguous(dir, slots) && slots <= maxFiles + 1
    && Filling(dir[Current], maxSize)
    && forall k: nat :: k < slots ==> Full(dir[Slot(k)], maxSize)
  }

  lemma {:induction false} OlderShift(dir: Directory, d: Directory, m: nat)
    requires Current in dir && forall k: nat :: k < m ==> Slot(k) in dir
    requires At(d, Slot(0)) == At(dir, Current)
    requires forall k: nat :: k < m ==> At(d, Slot(k + 1)) == At(dir, Slot(k))
    ensures forall k: nat :: k <= m ==> Slot(k) in d
    ensures Older(d, m + 1) == Older(dir, m) + dir[Current]
  {
    forall k: nat | k <= m
      ensures Slot(k) in d
    {
      if k > 0 {
        assert At(d, Slot(k - 1 + 1)) == At(dir, Slot(k - 1));
      }
    }
    if m > 0 {
      OlderShift(dir, d, m - 1);
      assert At(d, Slot(m - 1 + 1)) == At(dir, Slot(m - 1));
    }
  }

  /** The slots after a rotation: the old ones one place up, the current file in slot 0. */
  lemma RotationSlots(dir: Directory, slots: nat, maxFiles: nat)
    requires Contiguous(dir, slots) && slots <= maxFiles + 1
    ensures var d := Rotated(dir, maxFiles);
            var moved := if slots <= maxFiles then slots else maxFiles;
            && Contiguous(d, moved + 1) && d[Current] == []
            && At(d, Slot(0)) == At(dir, Current)
            && forall k: nat :: k < moved ==> At(d, Slot(k + 1)) == At(dir, Slot(k))
  {
    ChainEffect(dir, maxFiles);
    var d := Rotated(dir, maxFiles);
    forall k: nat
      ensures At(d, Slot(k)) == if k == 0 then At(dir, Current) else ShiftedSlot(dir, maxFiles, k)
    {
      assert At(Chain(dir, maxFiles), Slot(k)) == ShiftedSlot(dir, maxFiles, k);
    }
    forall k: nat
      ensures Slot(k) in d <==> At(d, Slot(k)).Some?
    {
    }
  }

  /** One rotation keeps every line, except that a full set of slots gives up its oldest file. */
  lemma RotationKeeps(dir: Directory, slots: nat, maxFiles: nat)
    requires Contiguous(dir, slots) && slots <= maxFiles + 1
    ensures var d := Rotated(dir, maxFiles);
            var after := if slots <= maxFiles then slots + 1 else slots;
            var lost := if slots <= maxFiles then [] else dir[Slot(maxFiles)];
            && Contiguous(d, after) && d[Current] == []
            && lost + AllLines(d, after) == AllLines(dir, slots)
            && d[Slot(0)] == dir[Current]
            && forall k: nat :: 0 < k < after ==> d[Slot(k)] == dir[Slot(k - 1)]
  {
    RotationSlots(dir, slots, maxFiles);
    var d := Rotated(dir, maxFiles);
    var moved := if slots <= maxFiles then slots else maxFiles;
    OlderShift(dir, d, moved);
    assert AllLines(d, moved + 1) == Older(dir, moved) + dir[Current];
    forall k: nat | 0 < k <= moved
      ensures d[Slot(k)] == dir[Slot(k - 1)]
    {
      assert At(d, Slot(k - 1 + 1)) == At(dir, Slot(k - 1));
    }
  }

  // ---------- Runs ----------

  /** A directory with its number of slots and the lines given up so far. */
  datatype Store = Store(dir: Directory, slots: nat, lost: seq<string>)

  ghost function Track(s: Store, maxSize: nat, maxFiles: nat, line: string): Store
    requires Tidy(s.dir, s.slots, maxSize, maxFiles)
  {
    var d := Logged(s.dir, maxSize, maxFiles, line);
    var rotates := Size(s.dir[Current] + [line]) >= maxSize;
    if rotates && s.slots <= maxFiles then Store(d, s.slots + 1, s.lost)
    else if rotates then Store(d, s.slots, s.lost + s.dir[Slot(maxFiles)])
    else Store(d, s.slots, s.lost)
  }

  lemma WritingKeeps(dir: Directory, slots: nat, line: string)
    requires Contiguous(dir, slots)
    ensures var written := dir[Current := dir[Current] + [line]];
            && Contiguous(written, slots)
            && AllLines(written, slots) == AllLines(dir, slots) + [line]
            && written[Current][..|written[Current]| - 1] == dir[Current]
            && forall k: nat :: k < slots ==> written[Slot(k)] == dir[Slot(k)]
  {
    var written := dir[Current := dir[Current] + [line]];
    SameOlder(dir, written, slots);
  }

  lemma TrackKeeps(s: Store, maxSize: nat, maxFiles: nat, line: string)
    requires Tidy(s.dir, s.slots, maxSize, maxFiles)
    ensures var t := Track(s, maxSize, maxFiles, line);
            && Tidy(t.dir, t.slots, maxSize, maxFiles)
            && t.lost + AllLines(t.dir, t.slots) == s.lost + (AllLines(s.dir, s.slots) + [line])
            && (t.lost != s.lost ==> t.slots == maxFiles + 1)
            && s.slots <= t.slots
  {
    var written := s.dir[Current := s.dir[Current] + [line]];
    var t := Track(s, maxSize, maxFiles, line);
    WritingKeeps(s.dir, s.slots, line);
    if Size(written[Current]) >= maxSize {
      RotationKeeps(written, s.slots, maxFiles);
      assert Full(written[Current], maxSize);
      forall k: nat | k < t.slots
        ensures Full(t.dir[Slot(k)], maxSize)
      {
        if k > 0 {
          assert written[Slot(k - 1)] == s.dir[Slot(k - 1)];
        }
      }
      var given := if s.slots <= maxFiles then [] else s.dir[Slot(maxFiles)];
      assert t.lost == s.lost + given;
      assert s.lost + given + AllLines(t.dir, t.slots) == s.lost + (given + AllLines(t.dir, t.slots));
    }
  }

  lemma {:induction false} SameOlder(dir: Directory, other: Directory, slots: nat)
    requires forall k: nat :: k < slots ==> Slot(k) in dir && Slot(k) in other && dir[Slot(k)] == other[Slot(k)]
    ensures Older(dir, slots) == Older(other, slots)
  {
    if slots == 0 {
    } else {
      SameOlder(dir, other, slots - 1);
    }
  }

  /** The directory after logging the lines in order. */
  function Final(dir: Directory, maxSize: nat, maxFiles: nat, lines: seq<string>): (d: Directory)
    requires Current in dir
    ensures Current in d
  {
    if lines == [] then dir
    else Logged(Final(dir, maxSize, maxFiles, lines[..|lines| - 1]), maxSize, maxFiles, lines[|lines| - 1])
  }

  /** Nothing but whole files given up by a full set of slots is missing from `history`. */
  ghost predicate Kept(s: Store, maxSize: nat, maxFiles: nat, history: seq<string>) {
    && Tidy(s.dir, s.slots, maxSize, maxFiles)
    && s.lost + AllLines(s.dir, s.slots) == history
    && (s.lost != [] ==> s.slots == maxFiles + 1)
  }

  lemma StepKept(before: Store, maxSize: nat, maxFiles: nat, history: seq<string>, line: string) returns (s: Store)
    requires Kept(before, maxSize, maxFiles, history)
    ensures s.dir == Logged(before.dir, maxSize, maxFiles, line)
    ensures Kept(s, maxSize, maxFiles, history + [line])
  {
    TrackKeeps(before, maxSize, maxFiles, line);
    s := Track(before, maxSize, maxFiles, line);
    assert before.lost + (AllLines(before.dir, before.slots) + [line])
        == before.lost + AllLines(before.dir, before.slots) + [line];
  }

  lemma {:induction false} RunKept(dir: Directory, slots: nat, maxSize: nat, maxFiles: nat, lines: seq<string>)
    returns (s: Store)
    requires Tidy(dir, slots, maxSize, maxFiles)
    ensures s.dir == Final(dir, maxSize, maxFiles, lines)
    ensures Kept(s, maxSize, maxFiles, AllLines(dir, slots) + lines)
    decreases |lines|
  {
    var all := AllLines(dir, slots);
    if lines == [] {
      s := Store(dir, slots, []);
      assert [] + all == all == all + lines;
    } else {
      var before := RunKept(dir, slots, maxSize, maxFiles, lines[..|lines| - 1]);
      s := StepKept(before, maxSize, maxFiles, all + lines[..|lines| - 1], lines[|lines| - 1]);
      assert all + lines[..|lines| - 1] + [lines[|lines| - 1]] == all + lines;
    }
  }

  function TotalSize(dir: Directory, slots: nat): nat
    requires forall k: nat :: k < slots ==> Slot(k) in dir
  {
    if slots == 0 then 0 else Size(dir[Slot(slots - 1)]) + TotalSize(dir, slots - 1)
  }

  lemma {:induction false} FullSlotsWeigh(dir: Directory, slots: nat, maxSize: nat)
    requires forall k: nat :: k < slots ==> Slot(k) in dir && Full(dir[Slot(k)], maxSize)
    ensures TotalSize(dir, slots) >= slots * maxSize
  {
    if slots == 0 {
    } else {
      FullSlotsWeigh(dir, slots - 1, maxSize);
      assert slots * maxSize == (slots - 1) * maxSize + maxSize;
    }
  }

  ghost predicate IsSuffix(kept: seq<string>, all: seq<string>) {
    |kept| <= |all| && kept == all[|all| - |kept|..]
  }

  /** Rotation keeps a suffix of history, in whole lines: over any run on an empty directory, or on
      one an earlier sink with the same limits left behind, the slots stay gap-free and at most
      max_files + 1 in number, every rotated file reached the limit with its last line, the current
      file stays below it, and lines are only ever given up with all slots in use, which then hold
      at least (max_files + 1) * max_size bytes. */
  lemma HistorySuffix(dir: Directory, slots: nat, maxSize: nat, maxFiles: nat, lines: seq<string>)
    returns (finalSlots: nat)
    requires Tidy(dir, slots, maxSize, maxFiles)
    ensures var d := Final(dir, maxSize, maxFiles, lines);
            var all := AllLines(dir, slots) + lines;
            && Tidy(d, finalSlots, maxSize, maxFiles)
            && IsSuffix(AllLines(d, finalSlots), all)
            && (maxSize > 0 ==> Size(d[Current]) < maxSize)
            && (AllLines(d, finalSlots) != all ==>
                finalSlots == maxFiles + 1 && TotalSize(d, finalSlots) >= (maxFiles + 1) * maxSize)
  {
    var s := RunKept(dir, slots, maxSize, maxFiles, lines);
    finalSlots := s.slots;
    var kept, all := AllLines(s.dir, s.slots), AllLines(dir, slots) + lines;
    assert kept == all[|s.lost|..];
    if s.lost == [] {
      assert kept == all;
    }
    FullSlotsWeigh(s.dir, s.slots, maxSize);
  }

  lemma EmptyDirectoryIsTidy(maxSize: nat, maxFiles: nat)
    ensures Tidy(Opened(map[]), 0, maxSize, maxFiles) && AllLines(Opened(map[]), 0) == []
  {
  }

  // ---------- File names ----------

  function Digits(n: nat): (s: string)
    ensures s != "" && forall i :: 0 <= i < |s| ==> '0' <= s[i] <= '9'
  {
    var digit := [(n % 10 + 48) as char];
    if n < 10 then digit else Digits(n / 10) + digit
  }

  function PathOf(base: string, name: Name): string {
    match name
    case Current => base + ".log"
    case Slot(i) => base + "." + Digits(i) + ".log"
  }

  lemma {:induction false} DigitsInjective(m: nat, n: nat)
    requires Digits(m) == Digits(n)
    ensures m == n
    decreases m
  {
    var s := Digits(m);
    assert s[|s| - 1] == (m % 10 + 48) as char == (n % 10 + 48) as char;
    if m >= 10 && n >= 10 {
      assert Digits(m / 10) == s[..|s| - 1] == Digits(n / 10);
      DigitsInjective(m / 10, n / 10);
    } else {
      assert |Digits(m)| == 1 <==> m < 10;
      assert |Digits(n)| == 1 <==> n < 10;
    }
  }

  /** Different names are different paths, so the directory may be keyed by name. */
  lemma PathsDistinct(base: string, a: Name, b: Name)
    requires PathOf(base, a) == PathOf(base, b)
    ensures a == b
  {
    if a.Slot? && b.Slot? {
      var p, q := PathOf(base, a), PathOf(base, b);
      assert Digits(a.index) == p[|base| + 1..|p| - 4];
      assert Digits(b.index) == q[|base| + 1..|q| - 4];
      DigitsInjective(a.index, b.index);
    }
  }

  // ---------- Sizes and restarts ----------

  /** The text of a file. */
  function Joined(file: File): string {
    if file == [] then "" else Joined(file[..|file| - 1]) + file[|file| - 1]
  }

  /** The size is the length of the text. */
  lemma {:induction false} SizeIsLength(file: File)
    ensures Size(file) == |Joined(file)|
  {
    if file == [] {
    } else {
      SizeIsLength(file[..|file| - 1]);
    }
  }

  /** Opening keeps every file, and makes an empty current one only if there is none. */
  lemma OpeningKeeps(dir: Directory)
    ensures Current in dir ==> Opened(dir) == dir
    ensures forall name :: name in dir ==> name in Opened(dir) && Opened(dir)[name] == dir[name]
    ensures Current !in dir ==> Opened(dir)[Current] == [] && Opened(dir).Keys == dir.Keys + {Current}
  {
  }

  lemma {:induction false} FinalAppend(dir: Directory, maxSize: nat, maxFiles: nat, a: seq<string>, b: seq<string>)
    requires Current in dir
    ensures Final(dir, maxSize, maxFiles, a + b) == Final(Final(dir, maxSize, maxFiles, a), maxSize, maxFiles, b)
    decreases |b|
  {
    if b == [] {
      assert a + b == a;
    } else {
      assert (a + b)[..|a + b| - 1] == a + b[..|b| - 1] && (a + b)[|a + b| - 1] == b[|b| - 1];
      FinalAppend(dir, maxSize, maxFiles, a, b[..|b| - 1]);
    }
  }

  /** A sink opened on an empty directory, used, closed, and opened again with the same limits goes on
      where it stopped: the files keep a whole-line suffix of what both logged. */
  lemma RestartKeepsHistory(maxSize: nat, maxFiles: nat, first: seq<string>, second: seq<string>)
    returns (slots: nat)
    ensures var d := Final(Opened(Final(Opened(map[]), maxSize, maxFiles, first)), maxSize, maxFiles, second);
            Tidy(d, slots, maxSize, maxFiles) && IsSuffix(AllLines(d, slots), first + second)
  {
    EmptyDirectoryIsTidy(maxSize, maxFiles);
    OpeningKeeps(Final(Opened(map[]), maxSize, maxFiles, first));
    FinalAppend(Opened(map[]), maxSize, maxFiles, first, second);
    slots := HistorySuffix(Opened(map[]), 0, maxSize, maxFiles, first + second);
    assert [] + (first + second) == first + second;
  }
}
