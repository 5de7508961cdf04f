/** core/file_store.py, `_trim_cache_dir_sync`: evict oldest files until the rest fits,
    sparing the one just written. */
module CacheTrim {
  import opened Lists

  type Path = string

  datatype File = File(mtime: int, size: nat, path: Path)

  /** How one unlink goes: done, the file was already gone, or it could not be removed. */
  datatype Unlink = Removes | Missing | Refuses

  function Sum(files: seq<File>): nat {
    if files == [] then 0 else Sum(files[..|files| - 1]) + files[|files| - 1].size
  }

  lemma SumSnoc(files: seq<File>, f: File)
    ensures Sum(files + [f]) == Sum(files) + f.size
  {
    assert (files + [f])[..|files|] == files;
  }

  // ----- oldest first -----

  /** Into a list sorted by mtime, behind its equals: a stable sort's step. */
  function Insert(sorted: seq<File>, f: File): seq<File> {
    if sorted == [] || sorted[|sorted| - 1].mtime <= f.mtime then sorted + [f]
    else Insert(sorted[..|sorted| - 1], f) + [sorted[|sorted| - 1]]
  }

  function SortByAge(files: seq<File>): seq<File> {
    if files == [] then [] else Insert(SortByAge(files[..|files| - 1]), files[|files| - 1])
  }

  ghost predicate OldestFirst(files: seq<File>) {
    forall i, j :: 0 <= i < j < |files| ==> files[i].mtime <= files[j].mtime
  }

  lemma {:induction false} InsertBelow(sorted: seq<File>, f: File, top: int)
    requires f.mtime <= top && forall x :: x in sorted ==> x.mtime <= top
    ensures forall x :: x in Insert(sorted, f) ==> x.mtime <= top
  {
    if sorted != [] && sorted[|sorted| - 1].mtime > f.mtime {
      InsertBelow(sorted[..|sorted| - 1], f, top);
    }
  }

  lemma {:induction false} InsertOrdered(sorted: seq<File>, f: File)
    requires OldestFirst(sorted)
    ensures OldestFirst(Insert(sorted, f))
  {
    if sorted != [] && sorted[|sorted| - 1].mtime > f.mtime {
      var n := |sorted| - 1;
      InsertOrdered(sorted[..n], f);
      InsertBelow(sorted[..n], f, sorted[n].mtime);
      var front := Insert(sorted[..n], f);
      forall i | 0 <= i < |front|
        ensures front[i].mtime <= sorted[n].mtime
      {
        assert front[i] in front;
      }
    }
  }

  lemma SnocLaws(files: seq<File>, f: File)
    ensures multiset(files + [f]) == multiset(files) + multiset{f}
    ensures Sum(files + [f]) == Sum(files) + f.size
  {
    SumSnoc(files, f);
  }

  lemma {:induction false} InsertSame(sorted: seq<File>, f: File)
    ensures multiset(Insert(sorted, f)) == multiset(sorted) + multiset{f}
    ensures Sum(Insert(sorted, f)) == Sum(sorted) + f.size
  {
    if sorted == [] || sorted[|sorted| - 1].mtime <= f.mtime {
      SnocLaws(sorted, f);
    } else {
      var front, last := sorted[..|sorted| - 1], sorted[|sorted| - 1];
      InsertSame(front, f);
      SnocLaws(Insert(front, f), last);
      SnocLaws(front, last);
      Unsnoc(sorted);
    }
  }

  lemma {:induction false} SortOrdered(files: seq<File>)
    ensures OldestFirst(SortByAge(files))
  {
    if files != [] {
      SortOrdered(files[..|files| - 1]);
      InsertOrdered(SortByAge(files[..|files| - 1]), files[|files| - 1]);
    }
  }

  lemma {:induction false} SortSame(files: seq<File>)
    ensures multiset(SortByAge(files)) == multiset(files)
    ensures Sum(SortByAge(files)) == Sum(files)
  {
    if files != [] {
      var front, last := files[..|files| - 1], files[|files| - 1];
      SortSame(front);
      InsertSame(SortByAge(front), last);
      SnocLaws(front, last);
      Unsnoc(files);
    }
  }

  // ----- what gets removed -----

  predicate Evictable(f: File, protect: Option<Path>, unlink: Path -> Unlink) {
    protect != Some(f.path) && unlink(f.path).Removes?
  }

  function Gone(files: seq<File>, protect: Option<Path>, unlink: Path -> Unlink): seq<File> {
    Filter(f => Evictable(f, protect, unlink), files)
  }

  /** The accounted total after looking at the first `k` files. */
  function Left(sorted: seq<File>, k: nat, protect: Option<Path>, unlink: Path -> Unlink): int
    requires k <= |sorted|
  {
    Sum(sorted) - Sum(Gone(sorted[..k], protect, unlink))
  }

  ghost predicate OverUntil(sorted: seq<File>, k: nat, maxBytes: int, protect: Option<Path>, unlink: Path -> Unlink)
    requires k <= |sorted|
  {
    forall j :: 0 <= j < k ==> Left(sorted, j, protect, unlink) > maxBytes
  }

  lemma StillOver(sorted: seq<File>, k: nat, maxBytes: int, protect: Option<Path>, unlink: Path -> Unlink)
    requires k < |sorted| && OverUntil(sorted, k, maxBytes, protect, unlink)
    requires Left(sorted, k, protect, unlink) > maxBytes
    ensures OverUntil(sorted, k + 1, maxBytes, protect, unlink)
  {
  }

  /** `k` files were looked at: the total did not fit before any of them, and it fits
      afterwards unless there was nothing left to look at. */
  ghost predicate StopsAt(sorted: seq<File>, k: nat, maxBytes: int, protect: Option<Path>, unlink: Path -> Unlink) {
    && k <= |sorted|
    && OverUntil(sorted, k, maxBytes, protect, unlink)
    && (k < |sorted| ==> Left(sorted, k, protect, unlink) <= maxBytes)
  }

  lemma LeftStep(sorted: seq<File>, k: nat, protect: Option<Path>, unlink: Path -> Unlink)
    requires k < |sorted|
    ensures Gone(sorted[..k + 1], protect, unlink) ==
            Gone(sorted[..k], protect, unlink) + if Evictable(sorted[k], protect, unlink) then [sorted[k]] else []
    ensures Left(sorted, k + 1, protect, unlink) ==
            Left(sorted, k, protect, unlink) - if Evictable(sorted[k], protect, unlink) then sorted[k].size else 0
  {
    assert sorted[..k + 1] == sorted[..k] + [sorted[k]];
    FilterSnoc(f => Evictable(f, protect, unlink), sorted[..k], sorted[k]);
    SumSnoc(Gone(sorted[..k], protect, unlink), sorted[k]);
  }

  lemma NothingSeen(sorted: seq<File>, protect: Option<Path>, unlink: Path -> Unlink)
    ensures Gone(sorted[..0], protect, unlink) == [] && Left(sorted, 0, protect, unlink) == Sum(sorted)
  {
  }

  /** The loop over the files, oldest first; `total` starts as their sum. */
  method EvictOldest(sorted: seq<File>, sum: nat, maxBytes: int, protect: Option<Path>, unlink: Path -> Unlink)
    returns (removed: seq<File>, k: nat)
    requires sum == Sum(sorted)
    ensures StopsAt(sorted, k, maxBytes, protect, unlink)
    ensures removed == Gone(sorted[..k], protect, unlink)
  {
    NothingSeen(sorted, protect, unlink);
    removed, k := [], 0;
    var total: int := sum;
    while k < |sorted|
      invariant k <= |sorted| && removed == Gone(sorted[..k], protect, unlink)
      invariant total == Left(sorted, k, protect, unlink)
      invariant OverUntil(sorted, k, maxBytes, protect, unlink)
    {
      if total <= maxBytes {
        break;
      }
      LeftStep(sorted, k, protect, unlink);
      StillOver(sorted, k, maxBytes, protect, unlink);
      var f := sorted[k];
      if protect != Some(f.path) && unlink(f.path).Removes? {
        removed := removed + [f];
        total := total - f.size;
      }
      k := k + 1;
    }
  }

  /** `files` is what the directory scan found. */
  method Trim(files: seq<File>, maxBytes: int, protect: Option<Path>, unlink: Path -> Unlink)
    returns (removed: seq<File>, ghost k: nat)
    ensures maxBytes <= 0 ==> removed == []
    ensures maxBytes > 0 ==>
              && StopsAt(SortByAge(files), k, maxBytes, protect, unlink)
              && removed == Gone(SortByAge(files)[..k], protect, unlink)
  {
    removed, k := [], 0;
    if maxBytes <= 0 {
      return;
    }
    var total := Sum(files);
    SortSame(files);
    if total <= maxBytes {
      NothingSeen(SortByAge(files), protect, unlink);
      return;
    }
    removed, k := EvictOldest(SortByAge(files), total, maxBytes, protect, unlink);
  }

  // ----- what that means -----

  /** The protected file is never removed, and nothing removable that was kept is older
      than anything removed. */
  lemma OldestGoFirst(sorted: seq<File>, k: nat, protect: Option<Path>, unlink: Path -> Unlink, gone: File, kept: File)
    requires OldestFirst(sorted) && k <= |sorted|
    requires gone in Gone(sorted[..k], protect, unlink)
    requires kept in sorted && Evictable(kept, protect, unlink) && kept !in Gone(sorted[..k], protect, unlink)
    ensures protect != Some(gone.path) && gone.mtime <= kept.mtime
  {
    FilterMember(f => Evictable(f, protect, unlink), sorted[..k]);
    var i :| 0 <= i < k && sorted[..k][i] == gone;
    var j :| 0 <= j < |sorted| && sorted[j] == kept;
    forall x | 0 <= x < k
      ensures sorted[x] != kept
    {
      assert sorted[..k][x] in sorted[..k];
    }
  }

  lemma {:induction false} FilterCut(sorted: seq<File>, k: nat, protect: Option<Path>, unlink: Path -> Unlink)
    returns (m: nat)
    requires k <= |sorted| && Gone(sorted[..k], protect, unlink) != []
    ensures m < k && Evictable(sorted[m], protect, unlink)
    ensures Gone(sorted[..k], protect, unlink) == Gone(sorted[..m], protect, unlink) + [sorted[m]]
  {
    LeftStep(sorted, k - 1, protect, unlink);
    if Evictable(sorted[k - 1], protect, unlink) {
      m := k - 1;
    } else {
      m := FilterCut(sorted, k - 1, protect, unlink);
    }
  }

  /** Not one file too many: without the last one removed, the total still did not fit. */
  lemma NoneTooMany(sorted: seq<File>, k: nat, maxBytes: int, protect: Option<Path>, unlink: Path -> Unlink)
    requires StopsAt(sorted, k, maxBytes, protect, unlink)
    ensures var gone := Gone(sorted[..k], protect, unlink);
            gone != [] ==> Sum(sorted) - Sum(gone[..|gone| - 1]) > maxBytes
  {
    var gone := Gone(sorted[..k], protect, unlink);
    if gone != [] {
      var m := FilterCut(sorted, k, protect, unlink);
      assert gone[..|gone| - 1] == Gone(sorted[..m], protect, unlink);
      assert Left(sorted, m, protect, unlink) > maxBytes;
    }
  }

  lemma {:induction false} SumSplit(files: seq<File>, protect: Option<Path>, unlink: Path -> Unlink)
    ensures Sum(files) - Sum(Gone(files, protect, unlink)) == Sum(Filter(f => !Evictable(f, protect, unlink), files))
  {
    if files != [] {
      var n := |files| - 1;
      SumSplit(files[..n], protect, unlink);
      FilterSnoc(f => Evictable(f, protect, unlink), files[..n], files[n]);
      FilterSnoc(f => !Evictable(f, protect, unlink), files[..n], files[n]);
      Unsnoc(files);
      SumSnoc(Gone(files[..n], protect, unlink), files[n]);
      SumSnoc(Filter(f => !Evictable(f, protect, unlink), files[..n]), files[n]);
    }
  }

  /** If every unlink works, what is left fits, or is nothing but the protected file. */
  lemma FitsUnlessProtected(sorted: seq<File>, k: nat, maxBytes: int, protect: Option<Path>, unlink: Path -> Unlink)
    requires StopsAt(sorted, k, maxBytes, protect, unlink)
    requires forall f :: f in sorted ==> unlink(f.path).Removes?
    ensures Left(sorted, k, protect, unlink) <= maxBytes ||
            forall f :: f in sorted && f !in Gone(sorted[..k], protect, unlink) ==> protect == Some(f.path)
  {
    if k == |sorted| {
      assert sorted[..k] == sorted;
      FilterMember(f => Evictable(f, protect, unlink), sorted);
    }
  }

  /** Files someone else removed meanwhile are not counted off: the accounted total is
      what is really left exactly if no such file has a size. */
  lemma AccountedTotal(files: seq<File>, protect: Option<Path>, unlink: Path -> Unlink)
    ensures Sum(files) - Sum(Gone(files, protect, unlink)) ==
            Sum(Filter((f: File) => !Evictable(f, protect, unlink) && !unlink(f.path).Missing?, files))
              + Sum(Filter((f: File) => unlink(f.path).Missing?, files))
  {
    SumSplit(files, protect, unlink);
    MissingSplit(files, protect, unlink);
  }

  lemma {:induction false} MissingSplit(files: seq<File>, protect: Option<Path>, unlink: Path -> Unlink)
    ensures Sum(Filter(f => !Evictable(f, protect, unlink), files)) ==
            Sum(Filter((f: File) => !Evictable(f, protect, unlink) && !unlink(f.path).Missing?, files))
              + Sum(Filter((f: File) => unlink(f.path).Missing?, files))
  {
    if files != [] {
      var n := |files| - 1;
      MissingSplit(files[..n], protect, unlink);
      var p, q, r := (f: File) => !Evictable(f, protect, unlink),
                     (f: File) => !Evictable(f, protect, unlink) && !unlink(f.path).Missing?,
                     (f: File) => unlink(f.path).Missing?;
      FilterSnoc(p, files[..n], files[n]);
      FilterSnoc(q, files[..n], files[n]);
      FilterSnoc(r, files[..n], files[n]);
      Unsnoc(files);
      SumSnoc(Filter(p, files[..n]), files[n]);
      SumSnoc(Filter(q, files[..n]), files[n]);
      SumSnoc(Filter(r, files[..n]), files[n]);
    }
  }
}
