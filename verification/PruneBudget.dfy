/** The byte budget of the derivative cache: which files one prune removes, and how far a concurrent warm
    run can go over the budget between prunes. */
module PruneBudget {

  datatype CachedFile = CachedFile(path: string, size: nat, modTime: int)

  /** The bytes of the listed files that are still there. */
  function Left(files: seq<CachedFile>, present: set<string>): nat {
    if files == [] then 0
    else (if files[0].path in present then files[0].size else 0) + Left(files[1..], present)
  }

  predicate DistinctPaths(files: seq<CachedFile>) {
    forall i, j :: 0 <= i < j < |files| ==> files[i].path != files[j].path
  }

  predicate OldestFirst(files: seq<CachedFile>) {
    forall i, j :: 0 <= i < j < |files| ==> files[i].modTime <= files[j].modTime
  }

  // ----- Sorting by modification time -----

  function Insert(f: CachedFile, sorted: seq<CachedFile>): seq<CachedFile> {
    if sorted == [] || f.modTime < sorted[0].modTime then [f] + sorted else [sorted[0]] + Insert(f, sorted[1..])
  }

  function Sorted(files: seq<CachedFile>): seq<CachedFile> {
    if files == [] then [] else Insert(files[0], Sorted(files[1..]))
  }

  lemma {:induction false} InsertIsPermutation(f: CachedFile, sorted: seq<CachedFile>)
    ensures multiset(Insert(f, sorted)) == multiset(sorted) + multiset{f}
  {
    if !(sorted == [] || f.modTime < sorted[0].modTime) {
      InsertIsPermutation(f, sorted[1..]);
      assert sorted == [sorted[0]] + sorted[1..];
    }
  }

  lemma {:induction false} InsertHolds(f: CachedFile, sorted: seq<CachedFile>)
    requires OldestFirst(sorted)
    ensures OldestFirst(Insert(f, sorted))
    ensures forall k :: 0 <= k < |Insert(f, sorted)| ==> Insert(f, sorted)[k] == f || Insert(f, sorted)[k] in sorted
  {
    if !(sorted == [] || f.modTime < sorted[0].modTime) {
      InsertHolds(f, sorted[1..]);
      var u := Insert(f, sorted[1..]);
      forall k | 0 <= k < |u| ensures sorted[0].modTime <= u[k].modTime && (u[k] == f || u[k] in sorted) {
        if u[k] in sorted[1..] { assert u[k] in sorted; }
      }
    }
  }

  lemma {:induction false} SortedHolds(files: seq<CachedFile>)
    ensures OldestFirst(Sorted(files)) && multiset(Sorted(files)) == multiset(files)
  {
    if files != [] {
      SortedHolds(files[1..]);
      InsertHolds(files[0], Sorted(files[1..]));
      InsertIsPermutation(files[0], Sorted(files[1..]));
      hide Insert;
      assert files == [files[0]] + files[1..];
    }
  }

  lemma {:induction false} LeftInsert(f: CachedFile, sorted: seq<CachedFile>, present: set<string>)
    ensures Left(Insert(f, sorted), present) == (if f.path in present then f.size else 0) + Left(sorted, present)
  {
    if !(sorted == [] || f.modTime < sorted[0].modTime) {
      LeftInsert(f, sorted[1..], present);
    } else {
      assert ([f] + sorted)[1..] == sorted;
    }
  }

  lemma {:induction false} LeftSorted(files: seq<CachedFile>, present: set<string>)
    ensures Left(Sorted(files), present) == Left(files, present)
  {
    if files != [] {
      LeftSorted(files[1..], present);
      LeftInsert(files[0], Sorted(files[1..]), present);
    }
  }

  lemma DistinctByMultiset(a: seq<CachedFile>, b: seq<CachedFile>)
    requires multiset(a) == multiset(b) && DistinctPaths(a)
    ensures DistinctPaths(b)
  {
    forall i, j | 0 <= i < j < |b| ensures b[i].path != b[j].path {
      assert b == b[..i] + [b[i]] + b[i + 1..j] + [b[j]] + b[j + 1..];
      assert b[i] in multiset(a) && b[j] in multiset(a);
      var m :| 0 <= m < |a| && a[m] == b[i];
      var n :| 0 <= n < |a| && a[n] == b[j];
      if b[i] == b[j] {
        assert multiset(b)[b[i]] >= 2;
        OccursOnce(a, m);
      }
    }
  }

  lemma OccursOnce(a: seq<CachedFile>, m: nat)
    requires m < |a| && DistinctPaths(a)
    ensures multiset(a)[a[m]] == 1
  {
    assert a == a[..m] + [a[m]] + a[m + 1..];
    assert a[m] !in a[..m] && a[m] !in a[m + 1..];
  }

  // ----- Removing one file -----

  lemma {:induction false} LeftWithout(files: seq<CachedFile>, present: set<string>, k: nat)
    requires DistinctPaths(files) && k < |files| && files[k].path in present
    ensures Left(files, present - {files[k].path}) == Left(files, present) - files[k].size
  {
    if k > 0 {
      LeftWithout(files[1..], present, k - 1);
    } else {
      LeftIgnores(files[1..], present, files[0].path);
    }
  }

  lemma {:induction false} LeftIgnores(files: seq<CachedFile>, present: set<string>, path: string)
    requires forall k :: 0 <= k < |files| ==> files[k].path != path
    ensures Left(files, present - {path}) == Left(files, present)
  {
    if files != [] { LeftIgnores(files[1..], present, path); }
  }

  lemma {:induction false} LeftAll(files: seq<CachedFile>, present: set<string>)
    requires forall k :: 0 <= k < |files| ==> files[k].path in present
    ensures Left(files, present) == Total(files)
  {
    if files != [] { LeftAll(files[1..], present); }
  }

  function Total(files: seq<CachedFile>): nat {
    if files == [] then 0 else files[0].size + Total(files[1..])
  }

  lemma {:induction false} TotalAppend(files: seq<CachedFile>, f: CachedFile)
    ensures Total(files + [f]) == Total(files) + f.size
  {
    if files != [] {
      TotalAppend(files[1..], f);
      assert (files + [f])[1..] == files[1..] + [f];
    }
  }

  function Target(maxBytes: int): int { maxBytes * 9 / 10 }

  /** The target is nine tenths of the budget, in whole bytes. */
  lemma TargetIsNineTenths(maxBytes: int)
    ensures 10 * Target(maxBytes) <= 9 * maxBytes < 10 * Target(maxBytes) + 10
  {
  }

  /** The files a prune must remove: `order` lists the cache files oldest first, `removed` are exactly the
      removable ones among the first `k`, and `k` is the least that brings the bytes left to the target
      (or all of them, when even that is not enough). */
  ghost predicate IsPrefixRemoved(
      order: seq<CachedFile>, k: nat, stuck: set<string>, before: set<string>, after: set<string>, target: int) {
    && k <= |order| && OldestFirst(order)
    && after == before - Removable(order[..k], stuck)
    && (k == |order| || Left(order, after) <= target)
    && (k > 0 ==> Left(order, before - Removable(order[..k - 1], stuck)) > target)
  }

  function Removable(files: seq<CachedFile>, stuck: set<string>): set<string> {
    set f | f in files && f.path !in stuck :: f.path
  }

  class Directory {
    /** The paths of all files below the directory. */
    var present: set<string>

    constructor (present: set<string>)
      ensures this.present == present
    {
      this.present := present;
    }

    /** os.Remove; a file in `stuck` cannot be removed. */
    method Remove(path: string, stuck: set<string>) returns (ok: bool)
      modifies this
      ensures ok <==> path !in stuck
      ensures present == if ok then old(present) - {path} else old(present)
    {
      if path in stuck { return false; }
      present := present - {path};
      return true;
    }

    /** `walked` are the cache files the walk found, in walk order. */
    method Prune(walked: seq<CachedFile>, maxBytes: int, stuck: set<string>) returns (total: int)
      requires DistinctPaths(walked) && forall k :: 0 <= k < |walked| ==> walked[k].path in present
      modifies this
      ensures maxBytes <= 0 || Total(walked) <= maxBytes ==> present == old(present)
      ensures maxBytes > 0 ==> total == Left(walked, present)
      ensures 0 < maxBytes < Total(walked) ==>
                exists order, k :: multiset(order) == multiset(walked)
                  && IsPrefixRemoved(order, k, stuck, old(present), present, Target(maxBytes))
    {
      if maxBytes <= 0 { return 0; }
      total := 0;
      for i := 0 to |walked|
        invariant present == old(present) && total == Total(walked[..i])
      {
        assert walked[..i + 1] == walked[..i] + [walked[i]];
        TotalAppend(walked[..i], walked[i]);
        total := total + walked[i].size;
      }
      assert walked[..|walked|] == walked;
      LeftAll(walked, present);
      if total <= maxBytes { return; }

      var files := Sorted(walked);
      PruningBegins(walked, present, stuck, Target(maxBytes));
      var target := Target(maxBytes);
      var k := 0;
      hide Pruning, Target, Sorted, Left, IsPrefixRemoved, DistinctPaths, Total;
      while k < |files| && total > target
        invariant k <= |files|
        invariant Pruning(files, k, stuck, old(present), present, total, target)
      {
        PruningStep(files, k, stuck, old(present), present, total, target);
        var ok := Remove(files[k].path, stuck);
        if ok { total := total - files[k].size; }
        k := k + 1;
      }
      PruningEnds(walked, k, stuck, old(present), present, total, target);
    }
  }

  /** The removal loop's state: the first `k` files are dealt with, and `total` is what is left. */
  ghost predicate Pruning(
      files: seq<CachedFile>, k: nat, stuck: set<string>, before: set<string>, now: set<string>, total: int,
      target: int) {
    && k <= |files| && DistinctPaths(files) && OldestFirst(files)
    && (forall j :: 0 <= j < |files| ==> files[j].path in before)
    && now == before - Removable(files[..k], stuck)
    && total == Left(files, now)
    && (k > 0 ==> Left(files, before - Removable(files[..k - 1], stuck)) > target)
  }

  lemma PruningBegins(walked: seq<CachedFile>, present: set<string>, stuck: set<string>, target: int)
    requires DistinctPaths(walked) && forall k :: 0 <= k < |walked| ==> walked[k].path in present
    ensures Pruning(Sorted(walked), 0, stuck, present, present, Total(walked), target)
  {
    var files := Sorted(walked);
    SortedHolds(walked);
    LeftSorted(walked, present);
    LeftAll(walked, present);
    DistinctByMultiset(walked, files);
    forall k | 0 <= k < |files| ensures files[k].path in present {
      assert files[k] in multiset(walked);
    }
    assert Removable(files[..0], stuck) == {};
  }

  lemma PruningStep(
      files: seq<CachedFile>, k: nat, stuck: set<string>, before: set<string>, now: set<string>, total: int,
      target: int)
    requires Pruning(files, k, stuck, before, now, total, target) && k < |files| && total > target
    ensures files[k].path in stuck ==> Pruning(files, k + 1, stuck, before, now, total, target)
    ensures files[k].path !in stuck ==>
              Pruning(files, k + 1, stuck, before, now - {files[k].path}, total - files[k].size, target)
  {
    hide Left;
    var f := files[k];
    assert files[..k + 1] == files[..k] + [f];
    assert files[..k + 1][..k] == files[..k];
    assert Removable(files[..k + 1], stuck) == Removable(files[..k], stuck) + (if f.path in stuck then {}
           else {f.path});
    assert forall g :: g in files[..k] ==> g.path != f.path;
    if f.path !in stuck { LeftWithout(files, now, k); }
  }

  lemma PruningEnds(
      walked: seq<CachedFile>, k: nat, stuck: set<string>, before: set<string>, now: set<string>, total: int,
      target: int)
    requires Pruning(Sorted(walked), k, stuck, before, now, total, target)
    requires k == |Sorted(walked)| || total <= target
    ensures total == Left(walked, now)
    ensures multiset(Sorted(walked)) == multiset(walked)
    ensures IsPrefixRemoved(Sorted(walked), k, stuck, before, now, target)
  {
    LeftSorted(walked, now);
    SortedHolds(walked);
  }

  /** Removal goes by age: no removed file is newer than a file that could be removed and stayed. */
  lemma OldestGoFirst(order: seq<CachedFile>, k: nat, stuck: set<string>, before: set<string>, after: set<string>,
                      target: int, gone: CachedFile, kept: CachedFile)
    requires IsPrefixRemoved(order, k, stuck, before, after, target) && DistinctPaths(order)
    requires gone in order && gone.path in before && gone.path !in after
    requires kept in order && kept.path in after && kept.path !in stuck
    ensures gone.modTime <= kept.modTime
  {
    assert gone.path in Removable(order[..k], stuck);
    var g :| g in order[..k] && g.path == gone.path;
    var i :| 0 <= i < k && order[i] == g;
    var j :| 0 <= j < |order| && order[j] == kept;
    assert gone == g;
    assert forall m :: 0 <= m < k ==> order[m] == order[..k][m] && order[m] in order[..k];
  }
}
