/** ORDER BY id LIMIT n: the first ids of a set. */
module IdOrder {
  import opened Common

  lemma {:induction false} LeastExists(ids: set<nat>)
    requires ids != {}
    ensures exists x :: x in ids && forall y :: y in ids ==> x <= y
  {
    var x :| x in ids;
    if exists y :: y in ids && y < x {
      var y :| y in ids && y < x;
      var rest := ids - {x};
      assert y in rest;
      LeastExists(rest);
      var m :| m in rest && forall y :: y in rest ==> m <= y;
      forall z | z in ids ensures m <= z { assert z == x || z in rest; }
      assert m in ids;
    }
  }

  function Least(ids: set<nat>): (x: nat)
    requires ids != {}
    ensures x in ids && forall y :: y in ids ==> x <= y
  {
    LeastExists(ids);
    var x :| x in ids && forall y :: y in ids ==> x <= y;
    x
  }

  function FirstIds(ids: set<nat>, limit: nat): seq<nat>
    decreases limit
  {
    if limit == 0 || ids == {} then [] else [Least(ids)] + FirstIds(ids - {Least(ids)}, limit - 1)
  }

  function Elements(s: seq<nat>): set<nat> { set x | x in s }

  function Min(a: nat, b: nat): nat { if a < b then a else b }

  lemma {:induction false} FirstIdsCount(ids: set<nat>, limit: nat)
    ensures |FirstIds(ids, limit)| == Min(limit, |ids|) == |Elements(FirstIds(ids, limit))|
    ensures Elements(FirstIds(ids, limit)) <= ids
    decreases limit
  {
    var r := FirstIds(ids, limit);
    if limit == 0 || ids == {} {
      assert Elements(r) == {};
    } else {
      var x := Least(ids);
      var rest := FirstIds(ids - {x}, limit - 1);
      FirstIdsCount(ids - {x}, limit - 1);
      ElementsOfCons(x, rest);
    }
  }

  lemma ElementsOfCons(x: nat, rest: seq<nat>)
    ensures Elements([x] + rest) == {x} + Elements(rest)
  {
  }

  /** The batch: as many ids as the limit allows, each once, in id order, and the smallest ones. */
  lemma {:induction false} FirstIdsHolds(ids: set<nat>, limit: nat)
    ensures |FirstIds(ids, limit)| == Min(limit, |ids|)
    ensures Elements(FirstIds(ids, limit)) <= ids
    ensures Increasing(FirstIds(ids, limit))
    ensures forall x, y :: x in FirstIds(ids, limit) && y in ids && y !in FirstIds(ids, limit) ==> x < y
    decreases limit
  {
    FirstIdsCount(ids, limit);
    if limit > 0 && ids != {} {
      var x := Least(ids);
      var rest := FirstIds(ids - {x}, limit - 1);
      FirstIdsHolds(ids - {x}, limit - 1);
      forall k | 0 <= k < |rest| ensures x < rest[k] { assert rest[k] in Elements(rest); }
    }
  }

  predicate Increasing(s: seq<nat>) { forall i, j :: 0 <= i < j < |s| ==> s[i] < s[j] }

  /** An increasing list that leaves out no smaller id is what the query gives. */
  lemma {:induction false} FirstIdsUnique(ids: set<nat>, s: seq<nat>)
    requires Increasing(s) && Elements(s) <= ids
    requires forall x, y :: x in s && y in ids && y !in s ==> x < y
    ensures s == FirstIds(ids, |s|)
  {
    if s != [] {
      assert s[0] in Elements(s);
      var x := Least(ids);
      var head := s[0];
      assert x !in s ==> head < x;
      assert x in s ==> exists k :: 0 <= k < |s| && s[k] == x;
      var rest := s[1..];
      assert forall k :: 0 <= k < |rest| ==> rest[k] == s[k + 1];
      forall y | y in rest ensures y in ids - {x} { var k :| 0 <= k < |rest| &&
        rest[k] == y; assert s[k + 1] in Elements(s); }
      forall y, z | y in rest && z in ids - {x} && z !in rest ensures y < z { assert y in s; assert z !in s; }
      FirstIdsUnique(ids - {x}, rest);
    }
  }

  /** A limit beyond the size of the set changes nothing. */
  lemma {:induction false} FirstIdsLonger(ids: set<nat>, limit: nat)
    requires limit >= |ids|
    ensures FirstIds(ids, limit) == FirstIds(ids, |ids|)
    decreases limit
  {
    if ids != {} { FirstIdsLonger(ids - {Least(ids)}, limit - 1); }
  }

  lemma SameSize(a: set<nat>, b: set<nat>)
    requires a <= b && |a| == |b|
    ensures a == b
  {
    if x :| x in b && x !in a {
      assert |b - {x}| == |b| - 1 && a <= b - {x};
      SubsetIsSmaller(a, b - {x});
    }
  }
}
