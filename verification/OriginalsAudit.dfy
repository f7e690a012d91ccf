/** The sequential sweep that decodes every downloaded original and may take undecodable ones out of the
    catalog while it is paging through it. */
module OriginalsAudit {
  import opened Common
  import opened IdOrder

  datatype Row = Row(status: string, message: string)

  const FAILED := "failed"

  /** What reading an original tells; `kind` and `cause` make up the recorded error. */
  datatype Verdict = Missing | Decodable | Undecodable(kind: string, cause: string)

  /** A limit of zero means no limit; `excludeFails` are the rows whose update the database refuses. */
  datatype Options = Options(limit: nat, batchSize: nat, exclude: bool)

  type Rows = map<nat, Row>

  function Downloaded(rows: Rows): set<nat> { set id | id in rows && rows[id].status == DOWNLOADED }

  function Ahead(rows: Rows, last: nat): set<nat> { set id | id in Downloaded(rows) && id > last }

  function Message(v: Verdict): string
    requires v.Undecodable?
  {
    "undecodable original (" + v.kind + "): " + v.cause
  }

  /** The rows an audit of `ids` takes out. */
  function Excluded(ids: set<nat>, verdict: nat -> Verdict, o: Options, excludeFails: set<nat>): (r: set<nat>)
    ensures forall id :: id in r ==> verdict(id).Undecodable?
  {
    set id | id in ids && verdict(id).Undecodable? && o.exclude && id !in excludeFails
  }

  function AfterExclusion(rows: Rows, out: set<nat>, verdict: nat -> Verdict): Rows
    requires forall id :: id in out ==> verdict(id).Undecodable?
  {
    map id | id in rows :: if id in out then Row(FAILED, Message(verdict(id))) else rows[id]
  }

  /** An excluded row has failed with a message of its verdict; any other row is as it was. */
  lemma ExclusionInPlainTerms(rows: Rows, out: set<nat>, verdict: nat -> Verdict, id: nat)
    requires (forall x :: x in out ==> verdict(x).Undecodable?) && id in rows
    ensures var after := AfterExclusion(rows, out, verdict);
            && after.Keys == rows.Keys
            && (id in out ==>
                  && after[id].status == "failed"
                  && after[id].message == "undecodable original (" + verdict(id).kind + "): " + verdict(id).cause)
            && (id !in out ==> after[id] == rows[id])
  {
  }

  /** The visited ids with an undecodable original, in order. */
  function Findings(ids: seq<nat>, verdict: nat -> Verdict): seq<nat> {
    if ids == [] then []
    else Findings(ids[..|ids| - 1], verdict) + if verdict(ids[|ids| - 1]).Undecodable? then [ids[|ids| - 1]] else []
  }

  /** The findings are the undecodable ones among the visited rows, in the order of the sweep. */
  lemma {:induction false} FindingsAreUndecodable(ids: seq<nat>, verdict: nat -> Verdict)
    ensures forall id :: id in Findings(ids, verdict) <==> id in ids && verdict(id).Undecodable?
    ensures Increasing(ids) ==> Increasing(Findings(ids, verdict))
  {
    if ids != [] {
      var front, last := ids[..|ids| - 1], ids[|ids| - 1];
      FindingsAreUndecodable(front, verdict);
      assert ids == front + [last];
      var before := Findings(front, verdict);
      if Increasing(ids) {
        assert Increasing(front);
        forall k | 0 <= k < |before| ensures before[k] < last { assert before[k] in before && before[k] in front; }
      }
    }
  }

  // ----- How far the sweep is -----

  /** Visited are exactly the rows downloaded at the start up to `last`, in id order. */
  ghost predicate Swept(start: Rows, visited: seq<nat>, last: nat) {
    && Increasing(visited)
    && (forall x :: x in visited ==> x in Ahead(start, 0) && x <= last)
    && (forall y :: y in Ahead(start, 0) && y <= last ==> y in visited)
  }

  /** The rows of a page are, one after the other, the least ones not yet visited. */
  lemma NextOfPage(start: Rows, last: nat, n: nat, k: nat)
    requires k < |FirstIds(Ahead(start, last), n)|
    ensures var page := FirstIds(Ahead(start, last), n);
            var now := if k == 0 then last else page[k - 1];
            page[k] in Ahead(start, now) && forall y :: y in Ahead(start, now) ==> page[k] <= y
  {
    var page := FirstIds(Ahead(start, last), n);
    var now := if k == 0 then last else page[k - 1];
    FirstIdsHolds(Ahead(start, last), n);
    assert page[k] in Elements(page);
    assert k > 0 ==> page[k - 1] in Elements(page);
    assert forall j :: 0 <= j < k ==> page[j] <= now;
    forall y | y in Ahead(start, now) ensures page[k] <= y {
      if y in page {
        var j :| 0 <= j < |page| && page[j] == y;
      } else {
        assert page[k] in page && y in Ahead(start, last);
      }
    }
  }

  lemma SweptMore(start: Rows, visited: seq<nat>, last: nat, id: nat)
    requires Swept(start, visited, last) && id in Ahead(start, last) && forall y :: y in Ahead(start, last) ==> id <= y
    ensures Swept(start, visited + [id], id) && id !in visited
  {
    assert forall k :: 0 <= k < |visited| ==> (visited + [id])[k] == visited[k] && visited[k] in visited;
    forall y | y in Ahead(start, 0) && y <= id ensures y in visited + [id] {
      if y > last { assert y in Ahead(start, last); }
    }
  }

  /** When nothing is ahead, or the limit is used up, the visited rows are what one query would give. */
  lemma SweptIsQuery(start: Rows, visited: seq<nat>, last: nat)
    requires Swept(start, visited, last)
    ensures visited == FirstIds(Ahead(start, 0), |visited|) && Elements(visited) <= Ahead(start, 0)
    ensures |visited| + |Ahead(start, last)| == |Ahead(start, 0)|
  {
    FirstIdsUnique(Ahead(start, 0), visited);
    FirstIdsCount(Ahead(start, 0), |visited|);
    forall y ensures y in Ahead(start, 0) <==> y in Elements(visited) || y in Ahead(start, last) {
      assert y in Ahead(start, 0) && y > last ==> y in Ahead(start, last);
    }
    assert Ahead(start, 0) == Elements(visited) + Ahead(start, last);
    assert Elements(visited) !! Ahead(start, last);
  }

  /** How many rows a sweep without errors visits. */
  function Whole(rows: Rows, limit: nat): nat {
    if limit > 0 then Min(limit, |Ahead(rows, 0)|) else |Ahead(rows, 0)|
  }

  lemma PagesGrow(p: nat, q: nat, size: nat)
    ensures p <= q ==> p * size <= q * size
    ensures (p + 1) * size == p * size + size
  {
  }

  /** `pages` pages of `size` rows were asked for, and `n` rows came of a `whole` that was not used up before. */
  predicate Paged(pages: nat, size: nat, n: nat, whole: nat) {
    n == Min(pages * size, whole) && (pages > 0 ==> (pages - 1) * size < whole)
  }

  lemma PagedOn(pages: nat, size: nat, n: nat, whole: nat, more: nat)
    requires Paged(pages, size, n, whole) && n < whole && more == Min(size, whole - n)
    ensures Paged(pages + 1, size, n + more, whole)
  {
    PagesGrow(pages, pages, size);
  }

  lemma PagedEnds(pages: nat, size: nat, n: nat, whole: nat, failsAt: nat)
    requires Paged(pages, size, n, whole) && pages <= failsAt
    ensures pages == failsAt ==> failsAt == 0 || (failsAt - 1) * size < whole
    ensures pages < failsAt && n == whole ==> failsAt > 0 && (failsAt - 1) * size >= whole
  {
    if failsAt > 0 { PagesGrow(pages, failsAt - 1, size); }
  }

  lemma LessAhead(start: Rows, last: nat, n: nat)
    requires FirstIds(Ahead(start, last), n) != []
    ensures var page := FirstIds(Ahead(start, last), n); |Ahead(start, page[|page| - 1])| < |Ahead(start, last)|
  {
    var page := FirstIds(Ahead(start, last), n);
    var end := page[|page| - 1];
    FirstIdsCount(Ahead(start, last), n);
    assert end in Elements(page);
    assert Ahead(start, end) <= Ahead(start, last) - {end};
    SubsetIsSmaller(Ahead(start, end), Ahead(start, last) - {end});
  }

  // ----- What exclusion changes -----

  lemma ExclusionGrows(
      start: Rows, visited: seq<nat>, id: nat, verdict: nat -> Verdict, o: Options, excludeFails: set<nat>)
    requires id !in visited
    ensures var before, one := Excluded(Elements(visited), verdict, o, excludeFails),
            Excluded({id}, verdict, o, excludeFails);
            var after := Excluded(Elements(visited + [id]), verdict, o, excludeFails);
            && |after| == |before| + |one|
            && AfterExclusion(AfterExclusion(start, before, verdict), one, verdict) == AfterExclusion(start, after,
               verdict)
    ensures Findings(visited + [id], verdict) == Findings(visited, verdict) + Findings([id], verdict)
  {
    var before, one := Excluded(Elements(visited), verdict, o, excludeFails), Excluded({id}, verdict, o, excludeFails);
    var after := Excluded(Elements(visited + [id]), verdict, o, excludeFails);
    assert Elements(visited + [id]) == Elements(visited) + {id};
    assert after == before + one && before !! one;
    assert (visited + [id])[..|visited|] == visited;
    assert [id][..0] == [];
  }

  /** Exclusion changes visited rows only, so it does not disturb what lies ahead. */
  lemma AheadUndisturbed(
      start: Rows, visited: seq<nat>, last: nat, verdict: nat -> Verdict, o: Options, excludeFails: set<nat>)
    requires Swept(start, visited, last)
    ensures var rows := AfterExclusion(start, Excluded(Elements(visited), verdict, o, excludeFails), verdict);
            Ahead(rows, last) == Ahead(start, last)
  {
  }

  lemma StillDownloaded(
      start: Rows, visited: seq<nat>, last: nat, id: nat, verdict: nat -> Verdict, o: Options, excludeFails: set<nat>)
    requires Swept(start, visited, last) && id in Ahead(start, last)
    ensures id in Downloaded(AfterExclusion(start, Excluded(Elements(visited), verdict, o, excludeFails), verdict))
  {
  }

  /** After a complete excluding audit the downloaded rows are those that decode or miss their file, and
      the undecodable ones whose update failed: a second audit finds nothing else. */
  lemma CleanAfterExclusion(start: Rows, verdict: nat -> Verdict, o: Options, excludeFails: set<nat>, id: nat)
    requires o.exclude
    ensures var visited := FirstIds(Ahead(start, 0), |Ahead(start, 0)|);
            var rows := AfterExclusion(start, Excluded(Elements(visited), verdict, o, excludeFails), verdict);
            id in Ahead(rows, 0) <==> id in Ahead(start, 0) && (verdict(id).Undecodable? ==> id in excludeFails)
  {
    var all := Ahead(start, 0);
    FirstIdsCount(all, |all|);
    SameSize(Elements(FirstIds(all, |all|)), all);
  }

  class Auditor {
    var rows: Rows
    var scanned: nat
    var decodable: nat
    var missing: nat
    var undecodable: nat
    var excluded: nat
    var findings: seq<nat>

    /** One original: exactly one of the three counts grows, and only an undecodable row can change. */
    method AuditPhoto(id: nat, verdict: nat -> Verdict, o: Options, excludeFails: set<nat>)
      requires id in Downloaded(rows)
      modifies this`rows, this`decodable, this`missing, this`undecodable, this`excluded, this`findings
      ensures rows == AfterExclusion(old(rows), Excluded({id}, verdict, o, excludeFails), verdict)
      ensures decodable == old(decodable) + if verdict(id).Decodable? then 1 else 0
      ensures missing == old(missing) + if verdict(id).Missing? then 1 else 0
      ensures undecodable == old(undecodable) + if verdict(id).Undecodable? then 1 else 0
      ensures excluded == old(excluded) + |Excluded({id}, verdict, o, excludeFails)|
      ensures findings == old(findings) + Findings([id], verdict) &&
              |Findings([id], verdict)| == undecodable - old(undecodable)
    {
      assert [id][..0] == [];
      ghost var out := Excluded({id}, verdict, o, excludeFails);
      match verdict(id) {
        case Missing => missing := missing + 1;
        case Decodable => decodable := decodable + 1;
        case Undecodable(kind, cause) =>
          undecodable := undecodable + 1;
          if o.exclude && id !in excludeFails {
            assert out == {id};
            rows := rows[id := Row(FAILED, Message(verdict(id)))];
            excluded := excluded + 1;
          }
          findings := findings + [id];
      }
    }

    /** The result and the table after the rows `visited` of the table `start`. */
    ghost predicate Audited(start: Rows, visited: seq<nat>, verdict: nat -> Verdict, o: Options, excludeFails: set<nat>)
      reads this
    {
      && scanned == |visited| == decodable + missing + undecodable
      && findings == Findings(visited, verdict) && |findings| == undecodable
      && excluded == |Excluded(Elements(visited), verdict, o, excludeFails)|
      && rows == AfterExclusion(start, Excluded(Elements(visited), verdict, o, excludeFails), verdict)
    }

    /** One round of the loop over a page: the least row ahead is scanned and audited. */
    method AuditNext(id: nat, ghost start: Rows, ghost visited: seq<nat>, ghost last: nat,
                     verdict: nat -> Verdict, o: Options, excludeFails: set<nat>)
      requires Swept(start, visited, last) && Audited(start, visited, verdict, o, excludeFails)
      requires id in Ahead(start, last) && id !in visited
      modifies this
      ensures Audited(start, visited + [id], verdict, o, excludeFails)
    {
      StillDownloaded(start, visited, last, id, verdict, o, excludeFails);
      ExclusionGrows(start, visited, id, verdict, o, excludeFails);
      hide Ahead, Downloaded, Swept, Excluded, AfterExclusion, Findings, Elements;
      scanned := scanned + 1;
      AuditPhoto(id, verdict, o, excludeFails);
    }

    /** The loop over one fetched page. */
    method AuditPage(photos: seq<nat>, ghost start: Rows, ghost before: seq<nat>, from: nat, ghost n: nat,
                     verdict: nat -> Verdict, o: Options, excludeFails: set<nat>)
      returns (ghost visited: seq<nat>, last: nat)
      requires photos == FirstIds(Ahead(start, from), n) && photos != []
      requires Swept(start, before, from) && Audited(start, before, verdict, o, excludeFails)
      modifies this
      ensures Swept(start, visited, last) && Audited(start, visited, verdict, o, excludeFails)
      ensures |visited| == |before| + |photos| && |Ahead(start, last)| < |Ahead(start, from)|
    {
      visited, last := before, from;
      LessAhead(start, from, n);
      hide FirstIds, Ahead, Swept;
      for k := 0 to |photos|
        invariant last == if k == 0 then from else photos[k - 1]
        invariant Swept(start, visited, last) && Audited(start, visited, verdict, o, excludeFails) &&
                  |visited| == |before| + k
      {
        NextOfPage(start, from, n, k);
        SweptMore(start, visited, last, photos[k]);
        AuditNext(photos[k], start, visited, last, verdict, o, excludeFails);
        last := photos[k];
        visited := visited + [last];
      }
    }

    /** The sweep; `failsAt` is the page whose query fails or before which the context ends.  It visits
        the downloaded rows in id order up to the limit, although it changes their status on the way. */
    method AuditOriginals(verdict: nat -> Verdict, o: Options, excludeFails: set<nat>, failsAt: nat)
      returns (error: bool, ghost visited: seq<nat>)
      requires scanned == decodable == missing == undecodable == excluded == 0 && findings == [] && o.batchSize > 0
      modifies this
      ensures visited == FirstIds(Ahead(old(rows), 0), |visited|) && Elements(visited) <= Ahead(old(rows), 0)
      ensures !error ==> |visited| == Whole(old(rows), o.limit)
      // an error is met before a page that the sweep gets to, after the pages before it
      ensures error <==> failsAt == 0 || (failsAt - 1) * o.batchSize < Whole(old(rows), o.limit)
      ensures error ==> |visited| == Min(failsAt * o.batchSize, Whole(old(rows), o.limit))
      ensures scanned == |visited| == decodable + missing + undecodable
      ensures findings == Findings(visited, verdict) && |findings| == undecodable
      ensures excluded == |Excluded(Elements(visited), verdict, o, excludeFails)|
      ensures rows == AfterExclusion(old(rows), Excluded(Elements(visited), verdict, o, excludeFails), verdict)
    {
      ghost var start := rows;
      var last, page := 0, 0;
      visited := [];
      assert AfterExclusion(start, Excluded(Elements([]), verdict, o, excludeFails), verdict) == start;
      while true
        invariant Swept(start, visited, last) && Audited(start, visited, verdict, o, excludeFails)
        invariant o.limit > 0 ==> |visited| <= o.limit
        invariant page <= failsAt && Paged(page, o.batchSize, |visited|, Whole(start, o.limit))
        decreases |Ahead(start, last)|
      {
        SweptIsQuery(start, visited, last);
        PagedEnds(page, o.batchSize, |visited|, Whole(start, o.limit), failsAt);
        if page == failsAt { return true, visited; }
        var remaining := o.batchSize;
        if o.limit > 0 {
          if o.limit <= scanned { return false, visited; }
          remaining := Min(remaining, o.limit - scanned);
        }
        AheadUndisturbed(start, visited, last, verdict, o, excludeFails);
        var photos := FirstIds(Ahead(rows, last), remaining);
        FirstIdsCount(Ahead(start, last), remaining);
        if photos == [] { return false, visited; }
        PagedOn(page, o.batchSize, |visited|, Whole(start, o.limit), |photos|);
        visited, last := AuditPage(photos, start, visited, last, remaining, verdict, o, excludeFails);
        page := page + 1;
      }
    }
  }
}
