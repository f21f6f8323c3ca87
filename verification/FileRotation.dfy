/** FileSink of observability/sinks/file.py: append one line per event, rotating by size. */
module FileRotation {
  import opened Prelude

  /** A file is its lines; a line's length counts its newline. */
  type File = seq<string>

  function Size(f: File): nat {
    if f == [] then 0 else Size(f[..|f| - 1]) + |f[|f| - 1]|
  }

  /** The file at the sink's path, and the archives `.i`. */
  datatype Directory = Directory(current: Option<File>, archives: map<int, File>)

  datatype Settings = Settings(rotateSize: int, keep: int)

  function At(archives: map<int, File>, i: int): Option<File> {
    if i in archives then Some(archives[i]) else None
  }

  /** The archive number that ends up as `i` when the archives move up by one. */
  function MovedFrom(keep: int, i: int): int {
    if 2 <= i <= keep then i - 1 else i
  }

  /** Archives 1..keep-1 move up by one, archive `keep` goes, and numbers beyond `keep` stay. */
  function Shifted(archives: map<int, File>, keep: int): map<int, File> {
    map i | i in archives.Keys + (set j | j in archives :: j + 1)
            && (i != 1 || keep < 1) && MovedFrom(keep, i) in archives
          :: archives[MovedFrom(keep, i)]
  }

  lemma ShiftedAt(archives: map<int, File>, keep: int, i: int)
    ensures At(Shifted(archives, keep), i) == if i == 1 && keep >= 1 then None else At(archives, MovedFrom(keep, i))
  {
    if MovedFrom(keep, i) in archives && MovedFrom(keep, i) != i {
      assert (i - 1) + 1 in (set j | j in archives :: j + 1);
    }
  }

  /** What archive `j` is once the loop has dealt with every number above `i`. */
  function Halfway(before: map<int, File>, keep: int, i: int, j: int): Option<File> {
    if i + 2 <= j <= keep then At(before, j - 1)
    else if j == i + 1 && i < keep then None
    else At(before, j)
  }

  ghost predicate ShiftedAbove(archives: map<int, File>, before: map<int, File>, keep: int, i: int) {
    forall j: int :: At(archives, j) == Halfway(before, keep, i, j)
  }

  /** Before the loop moves archive `i` up, no archive `i + 1` is there: no rename in it overwrites a file. */
  lemma NoRenameOverwrites(archives: map<int, File>, before: map<int, File>, keep: int, i: int)
    requires 1 <= i < keep && ShiftedAbove(archives, before, keep, i)
    ensures i + 1 !in archives
  {
    assert At(archives, i + 1) == Halfway(before, keep, i, i + 1);
  }

  /** The rename after the loop overwrites archive 1 when `keep` is below one, and never otherwise. */
  lemma LastRenameOverwritesIff(archives: map<int, File>, keep: int)
    ensures 1 in Shifted(archives, keep) <==> keep < 1 && 1 in archives
  {
    ShiftedAt(archives, keep, 1);
  }

  predicate MustRotate(cfg: Settings, d: Directory) {
    d.current.Some? && Size(d.current.value) >= cfg.rotateSize
  }

  function Rotated(cfg: Settings, d: Directory): Directory {
    if !MustRotate(cfg, d) then d
    else Directory(None, Shifted(d.archives, cfg.keep)[1 := d.current.value])
  }

  function Appended(d: Directory, line: string): Directory {
    d.(current := Some((if d.current.Some? then d.current.value else []) + [line]))
  }

  class FileSink {
    const cfg: Settings
    var current: Option<File>
    var archives: map<int, File>

    ghost function Value(): Directory
      reads this
    {
      Directory(current, archives)
    }

    constructor (cfg: Settings)
      ensures this.cfg == cfg && Value() == Directory(None, map[])
    {
      this.cfg := cfg;
      current, archives := None, map[];
    }

    /** On every directory, with gaps and stray archives too. */
    method RotateIfNeeded()
      modifies this
      ensures Value() == Rotated(cfg, old(Value()))
    {
      if current == None {
        return;
      }
      if Size(current.value) < cfg.rotateSize {
        return;
      }
      hide Shifted, MovedFrom;
      ghost var before := archives;
      var i := cfg.keep;
      while i > 0
        invariant if cfg.keep >= 1 then 0 <= i <= cfg.keep else i == cfg.keep
        invariant current == old(current)
        invariant ShiftedAbove(archives, before, cfg.keep, i)
      {
        ghost var start := archives;
        assert At(archives, i) == Halfway(before, cfg.keep, i, i) == At(before, i);
        assert At(archives, i + 1) == Halfway(before, cfg.keep, i, i + 1);
        if i in archives {
          if i == cfg.keep {
            archives := archives - {i};
          } else {
            NoRenameOverwrites(archives, before, cfg.keep, i);
            archives := (archives - {i})[i + 1 := archives[i]];
          }
        }
        forall j: int
          ensures At(archives, j) == Halfway(before, cfg.keep, i - 1, j)
        {
          assert At(start, j) == Halfway(before, cfg.keep, i, j);
        }
        i := i - 1;
      }
      forall j: int
        ensures At(archives, j) == At(Shifted(before, cfg.keep), j)
      {
        ShiftedAt(before, cfg.keep, j);
        assert At(archives, j) == Halfway(before, cfg.keep, i, j);
      }
      SameArchives(archives, Shifted(before, cfg.keep));
      archives := archives[1 := current.value];
      current := None;
    }

    method DeliverLine(line: string)
      modifies this
      ensures Value() == Appended(Rotated(cfg, old(Value())), line)
    {
      RotateIfNeeded();
      var f := if current.Some? then current.value else [];
      current := Some(f + [line]);
    }
  }

  lemma SameArchives(a: map<int, File>, b: map<int, File>)
    requires forall j :: At(a, j) == At(b, j)
    ensures a == b
  {
    forall j: int
      ensures j in a <==> j in b
      ensures j in a && j in b ==> a[j] == b[j]
    {
      assert At(a, j) == At(b, j);
    }
    assert a.Keys == b.Keys;
  }

  // ---------------------------------------------------------------- runs from an empty directory

  function After(cfg: Settings, lines: seq<string>): Directory {
    if lines == [] then Directory(None, map[])
    else Appended(Rotated(cfg, After(cfg, lines[..|lines| - 1])), lines[|lines| - 1])
  }

  /** Archives k, k-1, ..., 1 one after the other. */
  function OldestFirst(archives: map<int, File>, k: nat): File {
    if k == 0 then [] else (if k in archives then archives[k] else []) + OldestFirst(archives, k - 1)
  }

  ghost predicate Contiguous(archives: map<int, File>, k: nat) {
    forall i: int :: i in archives <==> 1 <= i <= k
  }

  /** Everything the directory holds, oldest first. */
  function Contents(d: Directory, k: nat): File {
    OldestFirst(d.archives, k) + if d.current.Some? then d.current.value else []
  }

  ghost predicate EndsWith(all: File, tail: File) {
    |tail| <= |all| && all[|all| - |tail|..] == tail
  }

  lemma EndsWithDrop(all: File, dropped: File, tail: File)
    requires EndsWith(all, dropped + tail)
    ensures EndsWith(all, tail)
  {
    assert all[|all| - |tail|..] == (dropped + tail)[|dropped|..];
  }

  /** Moved up by one, the archives still read the same. */
  lemma {:induction false} MovedUpReadsSame(a: map<int, File>, b: map<int, File>, current: File, k: nat)
    requires forall i: int :: 2 <= i <= k + 1 ==> At(b, i) == At(a, i - 1)
    requires At(b, 1) == Some(current)
    ensures OldestFirst(b, k + 1) == OldestFirst(a, k) + current
  {
    assert At(b, k + 1) == if k == 0 then Some(current) else At(a, k);
    if k == 0 {
      assert OldestFirst(b, 1) == current + OldestFirst(b, 0);
    } else {
      MovedUpReadsSame(a, b, current, k - 1);
      var top := if k in a then a[k] else [];
      assert top + (OldestFirst(a, k - 1) + current) == (top + OldestFirst(a, k - 1)) + current;
    }
  }

  /** How many archives there are after a rotation of `k`. */
  function KeptAfter(keep: int, k: nat): nat {
    if k < Max(keep, 1) then k + 1 else k
  }

  /** One archive number after a rotation. */
  lemma RotatedAt(cfg: Settings, d: Directory, k: nat, i: int)
    requires Contiguous(d.archives, k) && k <= Max(cfg.keep, 1) && MustRotate(cfg, d)
    ensures i in Rotated(cfg, d).archives <==> 1 <= i <= KeptAfter(cfg.keep, k)
    ensures 2 <= i <= KeptAfter(cfg.keep, k) ==> At(Rotated(cfg, d).archives, i) == At(d.archives, i - 1)
    ensures i == 1 ==> At(Rotated(cfg, d).archives, i) == d.current
  {
    ShiftedAt(d.archives, cfg.keep, i);
    assert i in Shifted(d.archives, cfg.keep) <==> At(Shifted(d.archives, cfg.keep), i).Some?;
    assert MovedFrom(cfg.keep, i) in d.archives <==> 1 <= MovedFrom(cfg.keep, i) <= k;
  }

  /** A rotation reads as before, less the oldest archive once there are max(keep, 1) of them. */
  lemma RotatedContents(cfg: Settings, d: Directory, k: nat)
    requires Contiguous(d.archives, k) && k <= Max(cfg.keep, 1) && MustRotate(cfg, d)
    ensures Contiguous(Rotated(cfg, d).archives, KeptAfter(cfg.keep, k))
    ensures Contents(Rotated(cfg, d), KeptAfter(cfg.keep, k))
         == OldestFirst(d.archives, KeptAfter(cfg.keep, k) - 1) + d.current.value
  {
    var d', k' := Rotated(cfg, d), KeptAfter(cfg.keep, k);
    forall i: int
      ensures i in d'.archives <==> 1 <= i <= k'
      ensures 2 <= i <= k' ==> At(d'.archives, i) == At(d.archives, i - 1)
    {
      RotatedAt(cfg, d, k, i);
    }
    RotatedAt(cfg, d, k, 1);
    MovedUpReadsSame(d.archives, d'.archives, d.current.value, k' - 1);
    assert OldestFirst(d'.archives, k') + [] == OldestFirst(d'.archives, k');
  }

  lemma RotationKeepsSuffix(cfg: Settings, d: Directory, k: nat, lines: File)
    requires Contiguous(d.archives, k) && k <= Max(cfg.keep, 1) && MustRotate(cfg, d) && EndsWith(lines, Contents(d, k))
    ensures EndsWith(lines, Contents(Rotated(cfg, d), KeptAfter(cfg.keep, k)))
    ensures k < Max(cfg.keep, 1) ==> Contents(Rotated(cfg, d), KeptAfter(cfg.keep, k)) == Contents(d, k)
  {
    RotatedContents(cfg, d, k);
    if k == Max(cfg.keep, 1) {
      var rest := OldestFirst(d.archives, k - 1) + d.current.value;
      var top := if k in d.archives then d.archives[k] else [];
      assert Contents(d, k) == top + rest;
      EndsWithDrop(lines, top, rest);
    }
  }

  lemma AppendContents(d: Directory, k: nat, lines: File, line: string)
    ensures Contents(Appended(d, line), k) == Contents(d, k) + [line]
    ensures EndsWith(lines, Contents(d, k)) ==> EndsWith(lines + [line], Contents(d, k) + [line])
  {
    var archived := OldestFirst(d.archives, k);
    var cur := if d.current.Some? then d.current.value else [];
    assert archived + (cur + [line]) == (archived + cur) + [line];
    if EndsWith(lines, archived + cur) {
      assert (lines + [line])[|lines| - |archived + cur|..] == lines[|lines| - |archived + cur|..] + [line];
    }
  }

  /** The archives are numbered 1..k with k at most max(keep, 1); oldest to newest, followed by the current file,
      they are a suffix of `lines`, and all of them while k is below that maximum. */
  ghost predicate HoldsLatest(cfg: Settings, d: Directory, lines: File, k: nat) {
    && k <= Max(cfg.keep, 1) && Contiguous(d.archives, k)
    && EndsWith(lines, Contents(d, k))
    && (k < Max(cfg.keep, 1) ==> Contents(d, k) == lines)
  }

  lemma RotationHolds(cfg: Settings, d: Directory, lines: File, k: nat) returns (k': nat)
    requires HoldsLatest(cfg, d, lines, k)
    ensures HoldsLatest(cfg, Rotated(cfg, d), lines, k')
  {
    k' := k;
    if MustRotate(cfg, d) {
      RotatedContents(cfg, d, k);
      RotationKeepsSuffix(cfg, d, k, lines);
      k' := KeptAfter(cfg.keep, k);
    }
  }

  lemma AppendHolds(cfg: Settings, d: Directory, lines: File, line: string, k: nat)
    requires HoldsLatest(cfg, d, lines, k)
    ensures HoldsLatest(cfg, Appended(d, line), lines + [line], k)
  {
    AppendContents(d, k, lines, line);
  }

  /** What a sink started on an empty directory holds after any run of deliveries. */
  lemma {:induction false} RotationKeepsLatest(cfg: Settings, lines: File) returns (k: nat)
    ensures HoldsLatest(cfg, After(cfg, lines), lines, k)
  {
    if lines == [] {
      k := 0;
    } else {
      var before, line := lines[..|lines| - 1], lines[|lines| - 1];
      assert lines == before + [line];
      k := RotationKeepsLatest(cfg, before);
      k := DeliveryHolds(cfg, before, line, k);
    }
  }

  lemma DeliveryHolds(cfg: Settings, lines: File, line: string, k: nat) returns (k': nat)
    requires HoldsLatest(cfg, After(cfg, lines), lines, k)
    ensures HoldsLatest(cfg, After(cfg, lines + [line]), lines + [line], k')
  {
    k' := RotationHolds(cfg, After(cfg, lines), lines, k);
    AppendHolds(cfg, Rotated(cfg, After(cfg, lines)), lines, line, k');
    assert (lines + [line])[..|lines|] == lines;
    assert After(cfg, lines + [line]) == Appended(Rotated(cfg, After(cfg, lines)), line);
  }

  /** No file reaches the rotate size by more than the last line: with lines of at most `longest` characters
      every file stays below rotateSize + longest, and every archive has at least the rotate size. */
  lemma {:induction false} FilesStaySmall(cfg: Settings, lines: File, longest: nat)
    requires forall i :: 0 <= i < |lines| ==> |lines[i]| <= longest
    ensures var d := After(cfg, lines);
            && (d.current.Some? ==> Size(d.current.value) <= Max(cfg.rotateSize - 1, 0) + longest)
            && forall i :: i in d.archives
                 ==> cfg.rotateSize <= Size(d.archives[i]) <= Max(cfg.rotateSize - 1, 0) + longest
  {
    if lines != [] {
      var m := |lines| - 1;
      FilesStaySmall(cfg, lines[..m], longest);
      var d := After(cfg, lines[..m]);
      RotatedSizes(cfg, d, Max(cfg.rotateSize - 1, 0) + longest);
      var f := if Rotated(cfg, d).current.Some? then Rotated(cfg, d).current.value else [];
      assert (f + [lines[m]])[..|f|] == f;
    }
  }

  lemma RotatedSizes(cfg: Settings, d: Directory, bound: nat)
    requires d.current.Some? ==> Size(d.current.value) <= bound
    requires forall i :: i in d.archives ==> cfg.rotateSize <= Size(d.archives[i]) <= bound
    ensures forall i :: i in Rotated(cfg, d).archives ==> cfg.rotateSize <= Size(Rotated(cfg, d).archives[i]) <= bound
    ensures Rotated(cfg, d).current.Some? ==> Size(Rotated(cfg, d).current.value) < cfg.rotateSize
  {
    forall i | i in Rotated(cfg, d).archives
      ensures cfg.rotateSize <= Size(Rotated(cfg, d).archives[i]) <= bound
    {
      if MustRotate(cfg, d) && i != 1 {
        assert MovedFrom(cfg.keep, i) in d.archives;
      }
    }
  }
}
