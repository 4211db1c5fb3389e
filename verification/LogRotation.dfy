/** A log file and its rotated predecessors, and what rotating them keeps. */
module LogRotation {
  import opened Basics

  /** What a file holds: what was in it before, and one record for each line since, as far as it was written. */
  type Records = seq<Bytes>

  /** The file `0` is the log itself; file `n > 0` is the log with `.n` appended to its name. */
  type LogFiles = map<nat, Records>

  /** Which deletions and renames succeed: `renamed(n)` is about renaming file `n` to `n + 1`. */
  datatype Luck = Luck(removed: bool, renamed: nat -> bool)

  function Get(files: LogFiles, n: nat): Records
  {
    if n in files then files[n] else []
  }

  function RenameUp(files: LogFiles, n: nat, works: bool): LogFiles
  {
    if works && n in files then files[n + 1 := files[n]] - {n} else files
  }

  function Removed(files: LogFiles, n: nat, works: bool): LogFiles
  {
    if works then files - {n} else files
  }

  /** The renames of the files `n`, `n - 1`, ..., `1`. */
  function Shifted(files: LogFiles, n: nat, luck: Luck): LogFiles
    decreases n
  {
    if n == 0 then files else Shifted(RenameUp(files, n, luck.renamed(n)), n - 1, luck)
  }

  /** A name ending in `.0` belongs to no file of the log, so a limit of 0 deletes nothing. */
  function Rotated(files: LogFiles, maxRotated: nat, luck: Luck): LogFiles
  {
    var trimmed := if maxRotated == 0 then files else Removed(files, maxRotated, luck.removed);
    var shifted := if maxRotated == 0 then trimmed else Shifted(trimmed, maxRotated - 1, luck);
    RenameUp(shifted, 0, luck.renamed(0))
  }

  class LogFolder {
    var files: LogFiles

    constructor (files: LogFiles)
      ensures this.files == files
    {
      this.files := files;
    }

    method Remove(n: nat, works: bool)
      modifies this
      ensures files == Removed(old(files), n, works)
    {
      if works {
        files := files - {n};
      }
    }

    method Rename(n: nat, works: bool)
      modifies this
      ensures files == RenameUp(old(files), n, works)
    {
      if works && n in files {
        files := files[n + 1 := files[n]] - {n};
      }
    }

    method Rotate(maxRotated: nat, luck: Luck)
      modifies this
      ensures files == Rotated(old(files), maxRotated, luck)
    {
      if maxRotated > 0 {
        Remove(maxRotated, luck.removed);
      }
      ghost var trimmed := files;
      var n := maxRotated;
      while n > 1
        invariant maxRotated == 0 ==> n == 0 && files == trimmed
        invariant maxRotated > 0 ==> 1 <= n && Shifted(files, n - 1, luck) == Shifted(trimmed, maxRotated - 1, luck)
      {
        n := n - 1;
        Rename(n, luck.renamed(n));
      }
      Rename(0, luck.renamed(0));
    }
  }

  function File(files: LogFiles, n: nat): Option<Records>
  {
    if n in files then Some(files[n]) else None
  }

  lemma {:induction false} ShiftedExactly(files: LogFiles, n: nat, luck: Luck, k: nat)
    ensures File(Shifted(files, n, luck), k)
         == if 2 <= k <= n + 1 && File(files, k - 1).Some? && luck.renamed(k - 1) then File(files, k - 1)
            else if 1 <= k <= n && luck.renamed(k) then None
            else File(files, k)
    decreases n
  {
    if n > 0 {
      ShiftedExactly(RenameUp(files, n, luck.renamed(n)), n - 1, luck, k);
    }
  }

  /** The last file that a rotation writes, and the one it gives up if everything works. */
  function Oldest(maxRotated: nat): nat
  {
    if maxRotated == 0 then 1 else maxRotated
  }

  /**
   Where every file is after a rotation, whichever deletions and renames fail: a file that can be renamed moves
   up by one, over whatever is there; one that cannot stays, unless the file below replaces it; the oldest, if
   not replaced, goes if it can be deleted.
   */
  lemma RotatedExactly(files: LogFiles, maxRotated: nat, luck: Luck, k: nat)
    ensures File(Rotated(files, maxRotated, luck), k)
         == if k > Oldest(maxRotated) then File(files, k)
            else if k > 0 && File(files, k - 1).Some? && luck.renamed(k - 1) then File(files, k - 1)
            else if k < Oldest(maxRotated) && luck.renamed(k) then None
            else if k == maxRotated > 0 && luck.removed then None
            else File(files, k)
  {
    if maxRotated > 0 {
      ShiftedExactly(Removed(files, maxRotated, luck.removed), maxRotated - 1, luck, k);
      ShiftedExactly(Removed(files, maxRotated, luck.removed), maxRotated - 1, luck, 0);
    }
  }

  /** The records of files `n` down to `0`, oldest first. */
  function Stream(files: LogFiles, n: nat): Records
  {
    if n == 0 then Get(files, 0) else Get(files, n) + Stream(files, n - 1)
  }

  /** The records of the files above `n`, up to `top`, oldest first. */
  function Above(files: LogFiles, top: nat, n: nat): Records
    decreases top
  {
    if top <= n then [] else Get(files, top) + Above(files, top - 1, n)
  }

  /** `a` is `b` with some records left out and the others in order: as they were if `whole`, else perhaps cut short. */
  predicate Kept(whole: bool, a: Records, b: Records)
    decreases |b|
  {
    if a == [] then true
    else if b == [] then false
    else if Fits(whole, a[|a| - 1], b[|b| - 1]) && Kept(whole, a[..|a| - 1], b[..|b| - 1]) then true
    else Kept(whole, a, b[..|b| - 1])
  }

  predicate Fits(whole: bool, record: Bytes, original: Bytes)
  {
    if whole then record == original else record <= original
  }

  lemma {:induction false} KeptReflexive(whole: bool, a: Records)
    ensures Kept(whole, a, a)
  {
    if a != [] {
      KeptReflexive(whole, a[..|a| - 1]);
    }
  }

  lemma {:induction false} KeptTransitive(whole: bool, a: Records, b: Records, c: Records)
    requires Kept(whole, a, b) && Kept(whole, b, c)
    ensures Kept(whole, a, c)
    decreases |c|, |b|
  {
    if a != [] {
      var a', b', c' := a[..|a| - 1], b[..|b| - 1], c[..|c| - 1];
      if Fits(whole, b[|b| - 1], c[|c| - 1]) && Kept(whole, b', c') {
        if Fits(whole, a[|a| - 1], b[|b| - 1]) && Kept(whole, a', b') {
          KeptTransitive(whole, a', b', c');
        } else {
          KeptTransitive(whole, a, b', c');
        }
      } else {
        KeptTransitive(whole, a, b, c');
      }
    }
  }

  lemma {:induction false} KeptAppend(whole: bool, a: Records, b: Records, c: Records, d: Records)
    requires Kept(whole, a, b) && Kept(whole, c, d)
    ensures Kept(whole, a + c, b + d)
    decreases |d|
  {
    if d == [] {
      assert a + c == a && b + d == b;
    } else {
      assert (b + d)[..|b + d| - 1] == b + d[..|d| - 1];
      if c != [] && Fits(whole, c[|c| - 1], d[|d| - 1]) && Kept(whole, c[..|c| - 1], d[..|d| - 1]) {
        assert (a + c)[..|a + c| - 1] == a + c[..|c| - 1];
        KeptAppend(whole, a, b, c[..|c| - 1], d[..|d| - 1]);
      } else {
        KeptAppend(whole, a, b, c, d[..|d| - 1]);
      }
    }
  }

  lemma KeptSnoc(whole: bool, a: Records, record: Bytes, b: Records, original: Bytes)
    requires Kept(whole, a, b) && Fits(whole, record, original)
    ensures Kept(whole, a + [record], b + [original])
  {
    assert (a + [record])[..|a|] == a && (b + [original])[..|b|] == b;
  }

  lemma {:induction false} KeptAnyway(whole: bool, a: Records, b: Records)
    requires Kept(true, a, b)
    ensures Kept(whole, a, b)
    decreases |b|
  {
    if a != [] {
      if a[|a| - 1] == b[|b| - 1] && Kept(true, a[..|a| - 1], b[..|b| - 1]) {
        KeptAnyway(whole, a[..|a| - 1], b[..|b| - 1]);
      } else {
        KeptAnyway(whole, a, b[..|b| - 1]);
      }
    }
  }

  lemma KeptEmpty(whole: bool, a: Records)
    ensures Kept(whole, [], a)
  {}

  lemma {:induction false} StreamFrame(files: LogFiles, files': LogFiles, n: nat)
    requires forall i :: 0 <= i <= n ==> Get(files', i) == Get(files, i)
    ensures Stream(files', n) == Stream(files, n)
  {
    if n > 0 {
      StreamFrame(files, files', n - 1);
    }
  }

  /** Renaming a file over its older neighbour loses the neighbour and moves nothing past anything. */
  lemma {:induction false} RenameKeepsOrder(files: LogFiles, n: nat, works: bool, top: nat)
    requires n < top
    ensures Kept(true, Stream(RenameUp(files, n, works), top), Stream(files, top))
    decreases top
  {
    var files' := RenameUp(files, n, works);
    if files' == files {
      KeptReflexive(true, Stream(files, top));
    } else if n + 1 < top {
      RenameKeepsOrder(files, n, works, top - 1);
      KeptReflexive(true, Get(files, top));
      KeptAppend(true, Get(files, top), Get(files, top), Stream(files', top - 1), Stream(files, top - 1));
    } else {
      VacatedStream(files, files', n);
      KeptEmpty(true, Get(files, top));
      KeptReflexive(true, Stream(files, n));
      KeptAppend(true, [], Get(files, top), Stream(files, n), Stream(files, n));
      assert [] + Stream(files, n) == Stream(files, n);
    }
  }

  /** Moving file `n` up to `n + 1` leaves the same records in the same order. */
  lemma VacatedStream(files: LogFiles, files': LogFiles, n: nat)
    requires n in files && files' == RenameUp(files, n, true)
    ensures Stream(files', n + 1) == Stream(files, n)
  {
    if n > 0 {
      StreamFrame(files, files', n - 1);
      assert Stream(files', n) == Stream(files, n - 1);
    }
  }

  lemma {:induction false} RemoveKeepsOrder(files: LogFiles, n: nat, works: bool, top: nat)
    ensures Kept(true, Stream(Removed(files, n, works), top), Stream(files, top))
    decreases top
  {
    var files' := Removed(files, n, works);
    KeptReflexive(true, Get(files, top));
    KeptEmpty(true, Get(files, top));
    if top > 0 {
      RemoveKeepsOrder(files, n, works, top - 1);
      KeptAppend(true, Get(files', top), Get(files, top), Stream(files', top - 1), Stream(files, top - 1));
    }
  }

  lemma {:induction false} ShiftKeepsOrder(files: LogFiles, n: nat, luck: Luck, top: nat)
    requires n < top
    ensures Kept(true, Stream(Shifted(files, n, luck), top), Stream(files, top))
    decreases n
  {
    if n == 0 {
      KeptReflexive(true, Stream(files, top));
    } else {
      var files' := RenameUp(files, n, luck.renamed(n));
      RenameKeepsOrder(files, n, luck.renamed(n), top);
      ShiftKeepsOrder(files', n - 1, luck, top);
      KeptTransitive(true, Stream(Shifted(files, n, luck), top), Stream(files', top), Stream(files, top));
    }
  }

  /** Whichever deletions and renames fail, rotation never reorders what the files hold. */
  lemma RotationKeepsOrder(files: LogFiles, maxRotated: nat, luck: Luck, top: nat)
    requires maxRotated <= top && 1 <= top
    ensures Kept(true, Stream(Rotated(files, maxRotated, luck), top), Stream(files, top))
  {
    var trimmed := if maxRotated == 0 then files else Removed(files, maxRotated, luck.removed);
    var shifted := if maxRotated == 0 then trimmed else Shifted(trimmed, maxRotated - 1, luck);
    if maxRotated == 0 {
      KeptReflexive(true, Stream(files, top));
    } else {
      RemoveKeepsOrder(files, maxRotated, luck.removed, top);
      ShiftKeepsOrder(trimmed, maxRotated - 1, luck, top);
      KeptTransitive(true, Stream(shifted, top), Stream(trimmed, top), Stream(files, top));
    }
    RenameKeepsOrder(shifted, 0, luck.renamed(0), top);
    KeptTransitive(true, Stream(Rotated(files, maxRotated, luck), top), Stream(shifted, top), Stream(files, top));
  }

  ghost predicate Works(luck: Luck)
  {
    luck.removed && forall n :: luck.renamed(n)
  }

  /** With the file above gone, every file from `n` down to `1` moves up by one. */
  lemma {:induction false} WorkingShift(files: LogFiles, n: nat, luck: Luck)
    requires Works(luck) && n + 1 !in files
    ensures var files' := Shifted(files, n, luck);
            && (forall k :: 2 <= k <= n + 1 ==> Get(files', k) == Get(files, k - 1))
            && (forall k :: k == 0 || n + 1 < k ==> (k in files' <==> k in files) && Get(files', k) == Get(files, k))
            && 1 !in files'
    decreases n
  {
    if n > 0 {
      var files' := RenameUp(files, n, true);
      WorkingShift(files', n - 1, luck);
      assert forall k :: k != n && k != n + 1 ==> Get(files', k) == Get(files, k);
    }
  }

  lemma WorkingRotation(files: LogFiles, maxRotated: nat, luck: Luck)
    requires Works(luck) && 0 in files
    ensures var files' := Rotated(files, maxRotated, luck);
            && 0 !in files'
            && (forall k :: 1 <= k <= Oldest(maxRotated) ==> Get(files', k) == Get(files, k - 1))
            && (forall k :: Oldest(maxRotated) < k ==> Get(files', k) == Get(files, k))
  {
    if maxRotated > 0 {
      var trimmed := Removed(files, maxRotated, true);
      var shifted := Shifted(trimmed, maxRotated - 1, luck);
      WorkingShift(trimmed, maxRotated - 1, luck);
      assert forall k :: k != maxRotated ==> Get(trimmed, k) == Get(files, k);
      assert forall k :: 2 <= k ==> Get(Rotated(files, maxRotated, luck), k) == Get(shifted, k);
      assert 0 in shifted && Get(shifted, 0) == Get(files, 0);
    }
  }

  lemma {:induction false} ShiftedStream(files: LogFiles, files': LogFiles, n: nat)
    requires Get(files', 0) == [] && forall k :: 1 <= k <= n ==> Get(files', k) == Get(files, k - 1)
    ensures Stream(files', n) == if n == 0 then [] else Stream(files, n - 1)
  {
    if n > 0 {
      ShiftedStream(files, files', n - 1);
      if n == 1 {
        assert Get(files', 1) + [] == Get(files', 1);
      }
    }
  }

  lemma {:induction false} SplitStream(files: LogFiles, files': LogFiles, top: nat, n: nat)
    requires n <= top && forall k :: n < k ==> Get(files', k) == Get(files, k)
    ensures Stream(files', top) == Above(files, top, n) + Stream(files', n)
    decreases top
  {
    if top == n {
      assert [] + Stream(files', n) == Stream(files', n);
    } else {
      SplitStream(files, files', top - 1, n);
      assert Get(files, top) + (Above(files, top - 1, n) + Stream(files', n))
          == Get(files, top) + Above(files, top - 1, n) + Stream(files', n);
    }
  }

  /** A working rotation loses exactly one file: the oldest it keeps. */
  lemma RotationLosesTheOldest(files: LogFiles, maxRotated: nat, luck: Luck, top: nat)
    requires Works(luck) && 0 in files && Oldest(maxRotated) <= top
    ensures var oldest := Oldest(maxRotated);
            var rest := Stream(files, oldest - 1);
            && Stream(files, top) == Above(files, top, oldest) + (Get(files, oldest) + rest)
            && Stream(Rotated(files, maxRotated, luck), top) == Above(files, top, oldest) + rest
            && Get(Rotated(files, maxRotated, luck), 0) == []
  {
    hide Rotated, Stream, Above;
    var oldest := Oldest(maxRotated);
    WorkingRotation(files, maxRotated, luck);
    ShiftedStream(files, Rotated(files, maxRotated, luck), oldest);
    SplitStream(files, files, top, oldest);
    SplitStream(files, Rotated(files, maxRotated, luck), top, oldest);
    TopOfStream(files, oldest);
  }

  lemma TopOfStream(files: LogFiles, n: nat)
    requires n > 0
    ensures Stream(files, n) == Get(files, n) + Stream(files, n - 1)
  {}
}
