/** Routing a source's existing photos to its target, one limited batch per request, with the client's
    loop on top: does the loop stop, and does it stop only when nothing is left to route? */
module RoutingBackfill {
  import opened Common
  import opened IdOrder

  datatype Photo = Photo(status: string, provider: string, sourcePage: string, source: Option<nat>, hidden: bool)

  datatype Source = Source(id: nat, kind: string, chatId: string, target: Option<nat>, showInLibrary: bool)

  /** A folio piece is a pair of a folio and a photo. */
  type Pieces = set<(nat, nat)>

  datatype Tables = Tables(photos: map<nat, Photo>, pieces: Pieces)

  datatype Counts = Counts(matched: nat, updated: nat, added: nat, target: Option<nat>, showInLibrary: bool)

  const LIMIT := 1000
  const BACKFILL_BATCH_SIZE := 1000

  // ----- What a batch is about -----

  function Digits(n: nat): string {
    if n < 10 then ["0123456789"[n]] else Digits(n / 10) + ["0123456789"[n % 10]]
  }

  function ProviderTag(s: Source): string { s.kind + ":" + Digits(s.id) }

  predicate Belongs(s: Source, p: Photo) {
    p.status == DOWNLOADED
    && (p.source == Some(s.id) || p.provider == ProviderTag(s) || (p.provider == s.kind && p.sourcePage == s.chatId))
  }

  /** Hiding is wished for only together with a target folio. */
  function WishedHidden(s: Source): bool { s.target.Some? && !s.showInLibrary }

  predicate InTarget(s: Source, pieces: Pieces, id: nat) { s.target.Some? ==> (s.target.value, id) in pieces }

  /** The query's condition for a photo that still needs routing. */
  predicate NeedsRouting(s: Source, t: Tables, id: nat)
    requires id in t.photos
  {
    t.photos[id].source.None? || t.photos[id].hidden != WishedHidden(s) || !InTarget(s, t.pieces, id)
  }

  function Pending(s: Source, t: Tables): set<nat> {
    set id | id in t.photos && Belongs(s, t.photos[id]) && NeedsRouting(s, t, id)
  }

  // ----- One batch -----

  function Batch(s: Source, t: Tables, limit: nat): seq<nat> { FirstIds(Pending(s, t), limit) }

  function Rerouted(s: Source, photos: map<nat, Photo>, ids: set<nat>): map<nat, Photo> {
    map id | id in photos :: if id in ids then photos[id].(hidden := WishedHidden(s), source := Some(s.id))
      else photos[id]
  }

  function PiecesFor(s: Source, ids: set<nat>): Pieces {
    if s.target.Some? then set id | id in ids :: (s.target.value, id) else {}
  }

  function AfterBatch(s: Source, t: Tables, limit: nat): Tables {
    var ids := Elements(Batch(s, t, limit));
    Tables(Rerouted(s, t.photos, ids), t.pieces + PiecesFor(s, ids))
  }

  lemma PiecesForMore(s: Source, ids: seq<nat>, id: nat)
    requires s.target.Some?
    ensures PiecesFor(s, Elements(ids + [id])) == PiecesFor(s, Elements(ids)) + {(s.target.value, id)}
  {
    assert Elements(ids + [id]) == Elements(ids) + {id};
  }

  /** A batch takes exactly its ids out of the pending set, and nothing new becomes pending. */
  lemma BatchShrinksPending(s: Source, t: Tables, limit: nat)
    ensures Pending(s, AfterBatch(s, t, limit)) == Pending(s, t) - Elements(Batch(s, t, limit))
    ensures |Pending(s, AfterBatch(s, t, limit))| == |Pending(s, t)| - Min(limit, |Pending(s, t)|)
  {
    var ids := Elements(Batch(s, t, limit));
    var u := AfterBatch(s, t, limit);
    FirstIdsCount(Pending(s, t), limit);
    forall id ensures id in Pending(s, u) <==> id in Pending(s, t) && id !in ids {
      if id in t.photos {
        assert Belongs(s, u.photos[id]) <==> Belongs(s, t.photos[id]) || id in ids;
        assert InTarget(s, u.pieces, id) <==> InTarget(s, t.pieces, id) || id in ids;
      }
    }
    assert Pending(s, u) == Pending(s, t) - ids;
  }

  // ----- The client's loop -----

  /** do { ... } while (batch.matched >= batchSize), against a server that serves `limit` rows a batch. */
  function AfterLoop(s: Source, t: Tables, limit: nat, batchSize: nat): (Tables, nat)
    requires batchSize > 0
    decreases |Pending(s, t)|
  {
    var matched := |Batch(s, t, limit)|;
    var u := AfterBatch(s, t, limit);
    FirstIdsCount(Pending(s, t), limit);
    BatchShrinksPending(s, t, limit);
    if matched < batchSize then (u, matched)
    else
      var rest := AfterLoop(s, u, limit, batchSize);
      (rest.0, matched + rest.1)
  }

  lemma LoopUnfolds(s: Source, t: Tables, limit: nat, batchSize: nat)
    requires batchSize > 0
    ensures var u := AfterBatch(s, t, limit);
            var matched := Min(limit, |Pending(s, t)|);
            && |Pending(s, u)| == |Pending(s, t)| - matched
            && AfterLoop(s, t, limit, batchSize) ==
                 if matched < batchSize then (u, matched)
                 else (AfterLoop(s, u, limit, batchSize).0, matched + AfterLoop(s, u, limit, batchSize).1)
  {
    FirstIdsCount(Pending(s, t), limit);
    BatchShrinksPending(s, t, limit);
  }

  /** The loop leaves nothing pending exactly when the client's batch size is no larger than the server's
      limit, or one batch was enough anyway; and what it reports as matched is what it took away. */
  lemma {:induction false} LoopDrainsIff(s: Source, t: Tables, limit: nat, batchSize: nat)
    requires batchSize > 0
    ensures var (u, matched) := AfterLoop(s, t, limit, batchSize);
            && |Pending(s, u)| + matched == |Pending(s, t)|
            && (Pending(s, u) == {} <==> batchSize <= limit || |Pending(s, t)| <= limit)
    decreases |Pending(s, t)|
  {
    var u := AfterBatch(s, t, limit);
    FirstIdsCount(Pending(s, t), limit);
    BatchShrinksPending(s, t, limit);
    if |Batch(s, t, limit)| >= batchSize {
      LoopDrainsIff(s, u, limit, batchSize);
    } else {
      assert |Pending(s, u)| == 0 <==> Pending(s, u) == {};
    }
  }

  /** What the loop did to the tables: the pending photos, and only they, carry the wished routing; every
      photo of the source is settled; the folio grew by the pending photos it lacked. */
  lemma {:induction false} LoopRoutes(s: Source, t: Tables, limit: nat, batchSize: nat)
    requires 0 < batchSize <= limit
    ensures AfterLoop(s, t, limit, batchSize).0 ==
              Tables(Rerouted(s, t.photos, Pending(s, t)), t.pieces + PiecesFor(s, Pending(s, t)))
    ensures AfterLoop(s, t, limit, batchSize).1 == |Pending(s, t)|
    decreases |Pending(s, t)|
  {
    var ids := Elements(Batch(s, t, limit));
    var u := AfterBatch(s, t, limit);
    FirstIdsCount(Pending(s, t), limit);
    BatchShrinksPending(s, t, limit);
    if |Batch(s, t, limit)| >= batchSize {
      LoopRoutes(s, u, limit, batchSize);
      var rest := Pending(s, u);
      assert Pending(s, t) == ids + rest;
      RoutingComposes(s, t, ids, rest);
    } else {
      SameSize(ids, Pending(s, t));
    }
  }

  lemma RoutingComposes(s: Source, t: Tables, a: set<nat>, b: set<nat>)
    ensures Rerouted(s, Rerouted(s, t.photos, a), b) == Rerouted(s, t.photos, a + b)
    ensures PiecesFor(s, a + b) == PiecesFor(s, a) + PiecesFor(s, b)
  {
  }

  /** A second run right after a first one matches nothing. */
  lemma RerunMatchesNothing(s: Source, t: Tables)
    ensures AfterLoop(s, AfterLoop(s, t, LIMIT, BACKFILL_BATCH_SIZE).0, LIMIT, BACKFILL_BATCH_SIZE) ==
              (AfterLoop(s, t, LIMIT, BACKFILL_BATCH_SIZE).0, 0)
  {
    hide AfterLoop, Pending;
    LoopDrainsIff(s, t, LIMIT, BACKFILL_BATCH_SIZE);
    var u := AfterLoop(s, t, LIMIT, BACKFILL_BATCH_SIZE).0;
    LoopRoutes(s, u, LIMIT, BACKFILL_BATCH_SIZE);
    assert Rerouted(s, u.photos, {}) == u.photos;
    assert PiecesFor(s, {}) == {};
  }

  /** After the loop every photo of the source is settled. */
  lemma LoopSettlesAll(s: Source, t: Tables, id: nat)
    requires id in t.photos && Belongs(s, t.photos[id])
    ensures var u := AfterLoop(s, t, LIMIT, BACKFILL_BATCH_SIZE).0;
            && id in u.photos && Belongs(s, u.photos[id]) && u.photos[id].source.Some?
            && u.photos[id].hidden == WishedHidden(s) && InTarget(s, u.pieces, id)
  {
    LoopRoutes(s, t, LIMIT, BACKFILL_BATCH_SIZE);
    LoopDrainsIff(s, t, LIMIT, BACKFILL_BATCH_SIZE);
    var u := AfterLoop(s, t, LIMIT, BACKFILL_BATCH_SIZE).0;
    assert Belongs(s, u.photos[id]);
    assert id !in Pending(s, u);
  }

  predicate IsDecimal(d: string) { forall k :: 0 <= k < |d| ==> '0' <= d[k] <= '9' }

  function Number(d: string): nat
    requires IsDecimal(d)
  {
    if d == "" then 0 else 10 * Number(d[..|d| - 1]) + (d[|d| - 1] - '0') as nat
  }

  lemma {:induction false} DigitsAreDecimal(n: nat)
    ensures var d := Digits(n); IsDecimal(d) && Number(d) == n && d != "" && (n > 0 ==> d[0] != '0')
  {
    if n >= 10 {
      DigitsAreDecimal(n / 10);
      var d := Digits(n);
      assert d[..|d| - 1] == Digits(n / 10) && d[|d| - 1] == "0123456789"[n % 10];
      assert d[0] == Digits(n / 10)[0];
    }
  }

  /** A photo is the source's if it was downloaded and carries the source, or the tag made of the source's kind
      and decimal number, or its kind together with its chat. */
  predicate IsOfSource(s: Source, p: Photo, d: string) {
    && p.status == "downloaded"
    && (p.source == Some(s.id) || p.provider == s.kind + ":" + d || (p.provider == s.kind && p.sourcePage == s.chatId))
  }

  /** What the loop does to one photo.  If it is the source's, it has a source afterwards, is hidden if and only if
      the source has a target and is not shown in the library, and lies in the target; any other photo, and all
      else of this one, is as before. */
  lemma RoutedInPlainTerms(s: Source, t: Tables, id: nat, d: string)
    requires id in t.photos && d == Digits(s.id)
    ensures var u := AfterLoop(s, t, LIMIT, BACKFILL_BATCH_SIZE).0;
            && id in u.photos
            && (IsOfSource(s, t.photos[id], d) ==>
                  && u.photos[id].source in {t.photos[id].source, Some(s.id)} && u.photos[id].source.Some?
                  && u.photos[id].hidden == (s.target.Some? && !s.showInLibrary)
                  && (s.target.Some? ==> (s.target.value, id) in u.pieces))
            && (!IsOfSource(s, t.photos[id], d) ==> u.photos[id] == t.photos[id])
            && u.photos[id] == t.photos[id].(source := u.photos[id].source, hidden := u.photos[id].hidden)
  {
    LoopRoutes(s, t, LIMIT, BACKFILL_BATCH_SIZE);
    if IsOfSource(s, t.photos[id], d) { LoopSettlesAll(s, t, id); }
    hide Digits, Number;
  }

  // ----- The server and the client as they run -----

  /** The source a request works with: a target folio that is gone is dropped, and the source shows again. */
  function Effective(s: Source, folios: set<nat>): Source {
    if s.target.Some? && s.target.value !in folios then s.(target := None, showInLibrary := true) else s
  }

  /** A source whose target folio is gone hides nothing and routes nowhere; any other is as it is stored. */
  lemma EffectiveMeans(s: Source, folios: set<nat>)
    ensures var e := Effective(s, folios);
            && (s.target.Some? && s.target.value !in folios ==> e.target == None && e.showInLibrary && !WishedHidden(e))
            && (s.target.Some? && s.target.value in folios ==> e == s) && (s.target == None ==> e == s)
            && (e.target.Some? ==> e.target.value in folios)
            && e == s.(target := e.target, showInLibrary := e.showInLibrary)
  {
  }

  class Library {
    var photos: map<nat, Photo>
    var pieces: Pieces
    var folios: set<nat>
    var sources: map<nat, Source>

    function Contents(): Tables
      reads this
    {
      Tables(photos, pieces)
    }

    method EnsureTargetFolio(id: nat) returns (s: Source)
      requires id in sources
      modifies this`sources
      ensures s == Effective(old(sources[id]), folios) && sources == old(sources)[id := s]
    {
      s := sources[id];
      if s.target.Some? && s.target.value !in folios {
        s := s.(target := None, showInLibrary := true);
        sources := sources[id := s];
      }
    }

    /** Inserts that do nothing on conflict; `added` counts the rows that were new. */
    method InsertPieces(s: Source, ids: seq<nat>) returns (added: nat)
      requires s.target.Some?
      modifies this`pieces
      ensures pieces == old(pieces) + PiecesFor(s, Elements(ids)) && added == |pieces| - |old(pieces)|
    {
      added := 0;
      for k := 0 to |ids|
        invariant pieces == old(pieces) + PiecesFor(s, Elements(ids[..k])) && added == |pieces| - |old(pieces)|
      {
        assert ids[..k + 1] == ids[..k] + [ids[k]];
        PiecesForMore(s, ids[..k], ids[k]);
        if (s.target.value, ids[k]) !in pieces {
          pieces := pieces + {(s.target.value, ids[k])};
          added := added + 1;
        }
      }
      assert ids[..|ids|] == ids;
    }

    /** BackfillConnectorSourceRouting; None when there is no such source. */
    method Backfill(id: nat, limit: int) returns (r: Option<Counts>)
      modifies this`photos, this`pieces, this`sources
      ensures r.None? <==> id == 0 || id !in old(sources)
      ensures r.None? ==> Contents() == old(Contents()) && sources == old(sources)
      ensures r.Some? ==>
                var s := Effective(old(sources[id]), folios);
                var n: nat := if limit <= 0 || limit > LIMIT then LIMIT else limit;
                && sources == old(sources)[id := s]
                && Contents() == AfterBatch(s, old(Contents()), n)
                && r.value.matched == r.value.updated == Min(n, |Pending(s, old(Contents()))|)
                && r.value.added == |pieces| - |old(pieces)|
                && r.value.target == s.target && r.value.showInLibrary == s.showInLibrary
    {
      if id == 0 || id !in sources { return None; }
      var n: nat := if limit <= 0 || limit > LIMIT then LIMIT else limit;
      var s := EnsureTargetFolio(id);
      var ids := Batch(s, Contents(), n);
      FirstIdsCount(Pending(s, Contents()), n);
      photos := Rerouted(s, photos, Elements(ids));
      var added := 0;
      hide Pending, FirstIds;
      if s.target.Some? { added := InsertPieces(s, ids); }
      return Some(Counts(|ids|, |ids|, added, s.target, s.showInLibrary));
    }

    /** The dashboard's runBackfill against the handler's limit; None when the request was refused. */
    method RunBackfill(id: nat) returns (result: Option<Counts>)
      modifies this`photos, this`pieces, this`sources
      ensures result.None? <==> id == 0 || id !in old(sources)
      ensures result.None? ==> Contents() == old(Contents()) && sources == old(sources)
      ensures result.Some? ==>
                var s := Effective(old(sources[id]), folios);
                && Contents() == AfterLoop(s, old(Contents()), LIMIT, BACKFILL_BATCH_SIZE).0
                && result.value.matched == result.value.updated == |Pending(s, old(Contents()))|
                && result.value.target == s.target && result.value.showInLibrary == s.showInLibrary
                && Pending(s, Contents()) == {}
                && result.value.added == |pieces| - |old(pieces)|
    {
      if id == 0 || id !in sources { return None; }
      ghost var s := Effective(sources[id], folios);
      ghost var before := Contents();
      var total := Counts(0, 0, 0, None, true);
      var batch := Counts(BACKFILL_BATCH_SIZE, 0, 0, None, true);
      LoopDrainsIff(s, before, LIMIT, BACKFILL_BATCH_SIZE);
      ghost var goal := AfterLoop(s, before, LIMIT, BACKFILL_BATCH_SIZE);
      hide AfterLoop, Pending, AfterBatch;
      while batch.matched >= BACKFILL_BATCH_SIZE
        invariant id in sources && Effective(sources[id], folios) == s
        invariant total.matched == total.updated && total.added == |pieces| - |old(pieces)|
        invariant (total.target == s.target && total.showInLibrary == s.showInLibrary) ||
                  (total.target.None? && batch.matched == BACKFILL_BATCH_SIZE)
        invariant batch.matched >= BACKFILL_BATCH_SIZE ==>
                    && AfterLoop(s, Contents(), LIMIT, BACKFILL_BATCH_SIZE).0 == goal.0
                    && total.matched + AfterLoop(s, Contents(), LIMIT, BACKFILL_BATCH_SIZE).1 == goal.1
        invariant batch.matched < BACKFILL_BATCH_SIZE ==> Contents() == goal.0 && total.matched == goal.1
        decreases |Pending(s, Contents())|, batch.matched
      {
        LoopUnfolds(s, Contents(), LIMIT, BACKFILL_BATCH_SIZE);
        var reply := Backfill(id, LIMIT);
        batch := reply.value;
        total := Counts(total.matched + batch.matched, total.updated + batch.updated, total.added + batch.added,
                        if batch.target.Some? then batch.target else total.target, batch.showInLibrary);
      }
      return Some(total);
    }
  }
}
