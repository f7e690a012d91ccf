/** The sweeps over the catalog that feed concurrent workers: thumbnail warming and embedding backfill.
    One goroutine pages through the rows by id and hands units of work to workers over an unbuffered
    channel, while workers and other writers change which rows are eligible. */
module Sweep {
  import opened Common
  import opened IdOrder

  /** How one unit of a row ends.  A warm run counts made, already there, missing and failed thumbnails,
      one unit a width; a backfill counts embedded, missing, permanent and failed photos, one unit each. */
  datatype Outcome = Made | Skipped | Missing | Permanent | Failed

  datatype Kind = Warm | Embed

  /** A limit of zero means no limit. */
  datatype Config = Config(kind: Kind, limit: nat, batchSize: nat, units: nat, concurrency: nat)

  predicate WellFormed(c: Config) {
    c.batchSize > 0 && c.units > 0 && c.concurrency > 0 && (c.kind.Embed? ==> c.units == 1)
  }

  /** The goroutine that enqueues. `rest` are the fetched rows not yet visited, `left` the units of the
      current row not yet settled or handed over; `dropped` are the units a cancelled run gave up. */
  datatype Main =
    | Asking
    | Serving(rest: seq<nat>, left: nat)
    | Closed(error: bool, dropped: nat)
    | Returned(error: bool, dropped: nat)

  datatype Worker = Idle | Busy(id: nat) | Quit

  datatype Counts = Counts(made: nat, skipped: nat, missing: nat, permanent: nat, failed: nat)

  function Total(c: Counts): nat { c.made + c.skipped + c.missing + c.permanent + c.failed }

  function Count(c: Counts, o: Outcome, n: nat): Counts {
    match o
    case Made => c.(made := c.made + n)
    case Skipped => c.(skipped := c.skipped + n)
    case Missing => c.(missing := c.missing + n)
    case Permanent => c.(permanent := c.permanent + n)
    case Failed => c.(failed := c.failed + n)
  }

  /** `eligible` are the rows the query would select now; `visited` the rows scanned so far, in order. */
  datatype State = State(
    eligible: set<nat>, main: Main, last: nat, visited: seq<nat>, workers: seq<Worker>, counts: Counts)

  datatype Event =
    | Query
    | Visit(gone: bool)               // the next fetched row; `gone`: its original is missing
    | NextBatch
    | AlreadyThere                    // a thumbnail that exists
    | Offer(worker: nat)
    | Settle(worker: nat, outcome: Outcome)
    | Abort                           // a failed query or a cancelled context
    | Exit(worker: nat)
    | Return
    | Change(id: nat, now: bool)      // somebody else changes whether a row is eligible

  function Ahead(eligible: set<nat>, last: nat): set<nat> { set id | id in eligible && id > last }

  function PageSize(c: Config, scanned: nat): nat {
    if c.limit > 0 && scanned < c.limit && c.limit - scanned < c.batchSize then c.limit - scanned else c.batchSize
  }

  predicate LimitReached(c: Config, s: State) { c.limit > 0 && |s.visited| >= c.limit }

  function Init(c: Config, eligible: set<nat>): State {
    State(eligible, Asking, 0, [], seq(c.concurrency, i => Idle), Counts(0, 0, 0, 0, 0))
  }

  predicate Enabled(c: Config, s: State, e: Event) {
    match e
    case Query => s.main.Asking?
    case Visit(gone) => s.main.Serving? && s.main.rest != [] && s.main.left == 0 && (gone ==> c.kind.Warm?)
    case NextBatch => s.main.Serving? && s.main.rest == [] && s.main.left == 0
    case AlreadyThere => s.main.Serving? && s.main.left > 0 && c.kind.Warm?
    case Offer(w) => s.main.Serving? && s.main.left > 0 && w < |s.workers| && s.workers[w].Idle?
    case Settle(w, o) => w < |s.workers| && s.workers[w].Busy? && !o.Skipped? && (c.kind.Warm? ==> o.Made? || o.Failed?)
    case Abort => s.main.Asking? || (s.main.Serving? && s.main.left > 0)
    case Exit(w) => s.main.Closed? && w < |s.workers| && s.workers[w].Idle?
    case Return => s.main.Closed? && forall w :: 0 <= w < |s.workers| ==> s.workers[w].Quit?
    case Change(_, _) => true
  }

  function Apply(c: Config, s: State, e: Event): State
    requires Enabled(c, s, e)
  {
    match e
    case Query =>
      if LimitReached(c, s) then s.(main := Closed(false, 0))
      else
        var rows := FirstIds(Ahead(s.eligible, s.last), PageSize(c, |s.visited|));
        s.(main := if rows == [] then Closed(false, 0) else Serving(rows, 0))
    case Visit(gone) =>
      var id := s.main.rest[0];
      s.(main := Serving(s.main.rest[1..], if gone then 0 else c.units), last := id, visited := s.visited + [id],
         counts := if gone then Count(s.counts, Missing, c.units) else s.counts)
    case NextBatch => s.(main := Asking)
    case AlreadyThere => s.(main := s.main.(left := s.main.left - 1), counts := Count(s.counts, Skipped, 1))
    case Offer(w) => s.(main := s.main.(left := s.main.left - 1), workers := s.workers[w := Busy(s.last)])
    case Settle(w, o) =>
      // a stored embedding takes the row out of the query
      s.(workers := s.workers[w := Idle], counts := Count(s.counts, o, 1),
         eligible := if c.kind.Embed? && o.Made? then s.eligible - {s.workers[w].id} else s.eligible)
    case Abort => s.(main := Closed(true, if s.main.Serving? then s.main.left else 0))
    case Exit(w) => s.(workers := s.workers[w := Quit])
    case Return => s.(main := Returned(s.main.error, s.main.dropped))
    case Change(id, now) => s.(eligible := if now then s.eligible + {id} else s.eligible - {id})
  }

  ghost predicate IsRun(c: Config, states: seq<State>, events: seq<Event>) {
    && |states| == |events| + 1 && states[0] == Init(c, states[0].eligible)
    && forall k :: 0 <= k < |events| ==>
       Enabled(c, states[k], events[k]) && states[k + 1] == Apply(c, states[k], events[k])
  }

  // ----- Order, limits and conservation -----

  predicate IsBusy(w: Worker) { w.Busy? }

  function BusyCount(workers: seq<Worker>): nat {
    if workers == [] then 0 else (if IsBusy(workers[0]) then 1 else 0) + BusyCount(workers[1..])
  }

  lemma {:induction false} BusyUpdate(workers: seq<Worker>, w: nat, now: Worker)
    requires w < |workers|
    ensures BusyCount(workers[w := now]) + (if IsBusy(workers[w]) then 1 else 0) ==
            BusyCount(workers) + (if IsBusy(now) then 1 else 0)
  {
    if w == 0 {
      assert workers[0 := now][1..] == workers[1..];
    } else {
      BusyUpdate(workers[1..], w - 1, now);
      assert workers[w := now][1..] == workers[1..][w - 1 := now];
    }
  }

  lemma {:induction false} NoneBusy(workers: seq<Worker>)
    requires forall w :: 0 <= w < |workers| ==> !IsBusy(workers[w])
    ensures BusyCount(workers) == 0
  {
    if workers != [] { NoneBusy(workers[1..]); }
  }

  function Pages(s: State): seq<nat> { if s.main.Serving? then s.main.rest else [] }

  /** Units of the visited rows that have no outcome yet. */
  function Unsettled(s: State): nat {
    BusyCount(s.workers) + match s.main
                           case Asking => 0
                           case Serving(_, left) => left
                           case Closed(_, dropped) => dropped
                           case Returned(_, dropped) => dropped
  }

  /** Visited rows and the rest of the page form one increasing list that never outgrows the limit. */
  ghost predicate InOrder(c: Config, s: State) {
    && Increasing(s.visited) && (forall x :: x in s.visited ==> 0 < x <= s.last)
    && (s.visited == [] ==> s.last == 0) && (s.visited != [] ==> s.last == s.visited[|s.visited| - 1])
    && Increasing(Pages(s)) && (forall x :: x in Pages(s) ==> x > s.last)
    && (c.limit > 0 ==> |s.visited| + |Pages(s)| <= c.limit)
  }

  ghost predicate Inv(c: Config, s: State) {
    && |s.workers| == c.concurrency && InOrder(c, s)
    && Total(s.counts) + Unsettled(s) == |s.visited| * c.units
    && (c.kind.Warm? ==> s.counts.permanent == 0) && (c.kind.Embed? ==> s.counts.skipped == 0)
    && (s.main.Closed? || s.main.Returned? ==> s.main.error || s.main.dropped == 0)
    && (s.main.Returned? ==> forall w :: 0 <= w < |s.workers| ==> s.workers[w].Quit?)
    && (s.main.Asking? || s.main.Serving? ==> forall w :: 0 <= w < |s.workers| ==> !s.workers[w].Quit?)
  }

  lemma QueryKeepsOrder(c: Config, s: State)
    requires InOrder(c, s) && Enabled(c, s, Query)
    ensures InOrder(c, Apply(c, s, Query))
  {
    var ahead, n := Ahead(s.eligible, s.last), PageSize(c, |s.visited|);
    FirstIdsHolds(ahead, n);
    assert forall x :: x in FirstIds(ahead, n) ==> x in Elements(FirstIds(ahead, n));
  }

  lemma VisitKeepsOrder(c: Config, s: State, gone: bool)
    requires InOrder(c, s) && Enabled(c, s, Visit(gone))
    ensures InOrder(c, Apply(c, s, Visit(gone)))
  {
    var t := Apply(c, s, Visit(gone));
    assert forall k :: 0 <= k < |s.visited| ==> t.visited[k] == s.visited[k] && s.visited[k] in s.visited;
    assert forall k :: 0 <= k < |t.main.rest| ==> t.main.rest[k] == s.main.rest[k + 1];
    assert s.main.rest[0] in Pages(s);
  }

  lemma StepKeepsOrder(c: Config, s: State, e: Event)
    requires InOrder(c, s) && Enabled(c, s, e)
    ensures InOrder(c, Apply(c, s, e))
  {
    if e.Query? {
      QueryKeepsOrder(c, s);
    } else if e.Visit? {
      VisitKeepsOrder(c, s, e.gone);
    } else {
      assert Pages(Apply(c, s, e)) == Pages(s) || Pages(Apply(c, s, e)) == [];
    }
  }

  lemma MoreUnits(n: nat, units: nat)
    ensures (n + 1) * units == n * units + units
  {
  }

  lemma StepKeepsInv(c: Config, s: State, e: Event)
    requires Inv(c, s) && Enabled(c, s, e)
    ensures Inv(c, Apply(c, s, e))
  {
    StepKeepsOrder(c, s, e);
    MoreUnits(|s.visited|, c.units);
    match e {
      case Offer(w) => BusyUpdate(s.workers, w, Busy(s.last));
      case Settle(w, _) => BusyUpdate(s.workers, w, Idle);
      case Exit(w) => BusyUpdate(s.workers, w, Quit);
      case _ =>
    }
    hide InOrder;
  }

  lemma {:induction false} RunKeepsInv(c: Config, states: seq<State>, events: seq<Event>, k: nat)
    requires IsRun(c, states, events) && k < |states|
    ensures Inv(c, states[k])
  {
    if k == 0 {
      NoneBusy(states[0].workers);
    } else {
      RunKeepsInv(c, states, events, k - 1);
      StepKeepsInv(c, states[k - 1], events[k - 1]);
    }
  }

  /** In every interleaving and whatever other writers do: rows are visited in id order and so at most
      once, never beyond the limit; and a run that returns without error has an outcome for every unit of
      every scanned row. */
  lemma CountsAreConserved(c: Config, states: seq<State>, events: seq<Event>, k: nat)
    requires IsRun(c, states, events) && k < |states|
    ensures var s := states[k];
            && Increasing(s.visited) && (c.limit > 0 ==> |s.visited| <= c.limit)
            && Total(s.counts) <= |s.visited| * c.units
            && (c.kind.Warm? ==> s.counts.permanent == 0) && (c.kind.Embed? ==> s.counts.skipped == 0)
            && (s.main == Returned(false, 0) && c.kind.Warm? ==>
                  s.counts.made + s.counts.skipped + s.counts.missing + s.counts.failed == |s.visited| * c.units)
            && (s.main == Returned(false, 0) && c.kind.Embed? && WellFormed(c) ==>
                  s.counts.made + s.counts.missing + s.counts.permanent + s.counts.failed == |s.visited|)
            && (s.main.Returned? && !s.main.error ==> s.main.dropped == 0)
  {
    RunKeepsInv(c, states, events, k);
    if states[k].main.Returned? { NoneBusy(states[k].workers); }
  }

  /** How many units of work a step ends with an outcome. */
  function Ended(c: Config, e: Event, o: Outcome): nat {
    match e
    case Visit(gone) => if gone && o == Missing then c.units else 0
    case AlreadyThere => if o == Skipped then 1 else 0
    case Settle(_, result) => if result == o then 1 else 0
    case _ => 0
  }

  function EndedIn(c: Config, events: seq<Event>, o: Outcome): nat {
    if events == [] then 0 else EndedIn(c, events[..|events| - 1], o) + Ended(c, events[|events| - 1], o)
  }

  /** Each counter counts its own outcome: the thumbnails or embeddings made, those that were there, those
      whose original is missing, those refused for good, and the failures. */
  lemma {:induction false} CountersCountTheirOutcome(c: Config, states: seq<State>, events: seq<Event>, k: nat)
    requires IsRun(c, states, events) && k < |states|
    ensures var n, past := states[k].counts, events[..k];
            && n.made == EndedIn(c, past, Made) && n.skipped == EndedIn(c, past, Skipped)
            && n.missing == EndedIn(c, past, Missing) && n.permanent == EndedIn(c, past, Permanent)
            && n.failed == EndedIn(c, past, Failed)
  {
    if k > 0 {
      CountersCountTheirOutcome(c, states, events, k - 1);
      assert events[..k] == events[..k - 1] + [events[k - 1]];
      assert events[..k][..k - 1] == events[..k - 1];
    }
  }

  // ----- What a sweep leaves to do -----

  /** The row whose embedding a step stores. */
  function Embeds(c: Config, s: State, e: Event): set<nat> {
    if c.kind.Embed? && e.Settle? && e.outcome.Made? && e.worker < |s.workers| && s.workers[e.worker].Busy?
    then {s.workers[e.worker].id} else {}
  }

  ghost function EmbeddedIn(c: Config, states: seq<State>, events: seq<Event>, k: nat): set<nat>
    requires k <= |events| < |states|
  {
    if k == 0 then {} else EmbeddedIn(c, states, events, k - 1) + Embeds(c, states[k - 1], events[k - 1])
  }

  /** A warm sweep leaves the rows as they are, and an embedding sweep takes out of its query exactly the rows whose
      embedding it stored: what was missing, refused or failed is there for the next sweep. */
  lemma {:induction false} OnlyEmbeddedRowsAreDone(c: Config, states: seq<State>, events: seq<Event>, k: nat)
    requires IsRun(c, states, events) && k < |states| && forall j :: 0 <= j < k ==> !events[j].Change?
    ensures states[k].eligible == states[0].eligible - EmbeddedIn(c, states, events, k)
    ensures c.kind.Warm? ==> states[k].eligible == states[0].eligible
  {
    if k > 0 { OnlyEmbeddedRowsAreDone(c, states, events, k - 1); }
  }

  lemma ChangeIsSeen(c: Config, s: State, id: nat, now: bool)
    ensures var t := Apply(c, s, Change(id, now)); (id in t.eligible <==> now) && t.eligible - {id} == s.eligible - {id}
  {
  }

  // ----- Completeness -----

  /** A row that stays eligible is visited, or still ahead of the sweep. */
  ghost predicate NotMissed(s: State, id: nat) {
    id in s.visited || id in Pages(s) || (id > s.last && forall r :: r in Pages(s) ==> r < id)
  }

  lemma StepMissesNothing(c: Config, s: State, e: Event, id: nat)
    requires WellFormed(c) && InOrder(c, s) && Enabled(c, s, e) && NotMissed(s, id) &&
             (id in s.eligible || id <= s.last) && !e.Abort?
    ensures var t := Apply(c, s, e);
            NotMissed(t, id) && (t.main.Closed? && s.main.Asking? ==> id in t.visited || LimitReached(c, t))
  {
    var t := Apply(c, s, e);
    match e {
      case Query =>
        var ahead, n := Ahead(s.eligible, s.last), PageSize(c, |s.visited|);
        FirstIdsHolds(ahead, n);
        if !LimitReached(c, s) && id !in s.visited {
          assert id in ahead;
          assert |FirstIds(ahead, n)| > 0;
        }
      case Visit(_) =>
        var head, tail := s.main.rest[0], t.main.rest;
        assert head in Pages(s) && Pages(s) == [head] + tail && Pages(t) == tail;
        assert head in t.visited && forall x :: x in s.visited ==> x in t.visited;
        assert forall r :: r in tail ==> r in Pages(s);
      case _ =>
    }
  }

  predicate Aborted(s: State) { (s.main.Closed? || s.main.Returned?) && s.main.error }

  predicate Finished(s: State) { (s.main.Closed? || s.main.Returned?) && !s.main.error }

  lemma ClosedStays(c: Config, s: State, e: Event)
    requires Enabled(c, s, e)
    ensures Aborted(s) || e.Abort? ==> Aborted(Apply(c, s, e))
    ensures Finished(Apply(c, s, e)) && !s.main.Asking? ==> Finished(s) && Apply(c, s, e).visited == s.visited
    ensures s.main.Asking? ==> !Apply(c, s, e).main.Returned?
  {
    hide FirstIds;
  }

  lemma {:induction false} RunMissesNothing(c: Config, states: seq<State>, events: seq<Event>, k: nat, id: nat)
    requires WellFormed(c) && IsRun(c, states, events) && k < |states| && id > 0
    requires forall j :: 0 <= j < k ==> id in states[j].eligible
    ensures Aborted(states[k]) ||
            (NotMissed(states[k], id) &&
              (Finished(states[k]) ==> id in states[k].visited || LimitReached(c, states[k])))
  {
    if k > 0 {
      RunMissesNothing(c, states, events, k - 1, id);
      RunKeepsInv(c, states, events, k - 1);
      if !Aborted(states[k - 1]) && !events[k - 1].Abort? {
        StepMissesNothing(c, states[k - 1], events[k - 1], id);
      }
    }
  }

  /** Completeness, whatever other writers do: a run that finishes without error has visited every row that
      was eligible all the time, except those beyond the last visited one when the limit was used up. */
  lemma NothingIsMissed(c: Config, states: seq<State>, events: seq<Event>, k: nat, id: nat)
    requires WellFormed(c) && IsRun(c, states, events) && k < |states| && id > 0
    requires forall j :: 0 <= j < k ==> id in states[j].eligible
    requires Finished(states[k])
    ensures id in states[k].visited || (c.limit > 0 && |states[k].visited| == c.limit && id > states[k].last)
  {
    RunMissesNothing(c, states, events, k, id);
    RunKeepsInv(c, states, events, k);
  }

  // ----- Exactness when rows change behind the sweep only -----

  ghost predicate BehindOnly(states: seq<State>, events: seq<Event>)
    requires |states| == |events| + 1
  {
    forall k :: 0 <= k < |events| && events[k].Change? ==> events[k].id <= states[k].last
  }

  /** What is ahead of the sweep is what was there when it started. */
  ghost predicate AheadIsFresh(s: State, start: set<nat>) {
    && Ahead(s.eligible, s.last) == Ahead(start, s.last)
    && (forall x :: x in s.visited ==> x in start) && (forall x :: x in Pages(s) ==> x in start)
    && (forall w :: 0 <= w < |s.workers| && s.workers[w].Busy? ==> s.workers[w].id <= s.last)
  }

  lemma StepKeepsAhead(c: Config, s: State, e: Event, start: set<nat>)
    requires InOrder(c, s) && AheadIsFresh(s, start) && Enabled(c, s, e) && (e.Change? ==> e.id <= s.last)
    ensures AheadIsFresh(Apply(c, s, e), start)
  {
    var t := Apply(c, s, e);
    match e {
      case Query =>
        FirstIdsHolds(Ahead(s.eligible, s.last), PageSize(c, |s.visited|));
        forall x | x in Pages(t) ensures x in start {
          assert x in Elements(Pages(t));
          assert x in Ahead(start, s.last);
        }
      case Visit(_) =>
        assert s.main.rest[0] in Pages(s);
        forall x ensures x in Ahead(t.eligible, t.last) <==> x in Ahead(start, t.last) {
          assert x in Ahead(s.eligible, s.last) <==> x in Ahead(start, s.last);
        }
      case _ =>
        forall x ensures x in Ahead(t.eligible, t.last) <==> x in Ahead(start, t.last) {
          assert x in Ahead(s.eligible, s.last) <==> x in Ahead(start, s.last);
        }
    }
  }

  lemma {:induction false} RunKeepsAhead(c: Config, states: seq<State>, events: seq<Event>, k: nat)
    requires IsRun(c, states, events) && BehindOnly(states, events) && k < |states|
    ensures AheadIsFresh(states[k], states[0].eligible)
  {
    if k > 0 {
      RunKeepsAhead(c, states, events, k - 1);
      RunKeepsInv(c, states, events, k - 1);
      StepKeepsAhead(c, states[k - 1], events[k - 1], states[0].eligible);
    }
  }

  /** A row that was ahead at the start is not missed, although it may lose its eligibility once passed. */
  lemma {:induction false} StartRowsNotMissed(c: Config, states: seq<State>, events: seq<Event>, k: nat, id: nat)
    requires WellFormed(c) && IsRun(c, states, events) && BehindOnly(states, events) && k < |states| &&
             id in Ahead(states[0].eligible, 0)
    ensures Aborted(states[k]) ||
            (NotMissed(states[k], id) &&
              (Finished(states[k]) ==> id in states[k].visited || LimitReached(c, states[k])))
  {
    hide Apply, Enabled, InOrder;
    if k > 0 {
      var s := states[k - 1];
      ClosedStays(c, s, events[k - 1]);
      StartRowsNotMissed(c, states, events, k - 1, id);
      RunKeepsInv(c, states, events, k - 1);
      RunKeepsAhead(c, states, events, k - 1);
      if !Aborted(s) && !events[k - 1].Abort? {
        assert id > s.last ==> id in Ahead(s.eligible, s.last);
        StepMissesNothing(c, s, events[k - 1], id);
      }
    }
  }

  /** The sweep visits exactly the rows that were eligible when it started, each once and in id order, up
      to the limit, although workers and other writers change rows behind it. */
  lemma VisitsExactly(c: Config, states: seq<State>, events: seq<Event>, k: nat)
    requires WellFormed(c) && IsRun(c, states, events) && BehindOnly(states, events) && k < |states| &&
             Finished(states[k])
    ensures var all := Ahead(states[0].eligible, 0);
            states[k].visited == FirstIds(all, if c.limit > 0 then c.limit else |all|)
  {
    var s, all := states[k], Ahead(states[0].eligible, 0);
    RunKeepsInv(c, states, events, k);
    RunKeepsAhead(c, states, events, k);
    forall id | id in all ensures id in s.visited || (LimitReached(c, s) && id > s.last) {
      StartRowsNotMissed(c, states, events, k, id);
    }
    FirstIdsUnique(all, s.visited);
    FirstIdsCount(all, |s.visited|);
    if !LimitReached(c, s) {
      assert Elements(s.visited) == all;
      FirstIdsLonger(all, if c.limit > 0 then c.limit else |all|);
      FirstIdsLonger(all, |s.visited|);
    }
  }

  // ----- Progress -----

  /** Some step of the sweep itself is always possible until it returns. */
  lemma NoDeadlock(c: Config, s: State)
    requires WellFormed(c) && Inv(c, s) && !s.main.Returned?
    ensures exists e :: Enabled(c, s, e) && !e.Change? && !e.Abort?
  {
    match s.main {
      case Asking => assert Enabled(c, s, Query);
      case Serving(rest, left) =>
        if left > 0 {
          assert !s.workers[0].Quit?;
          if s.workers[0].Busy? { assert Enabled(c, s, Settle(0, Failed)); } else { assert Enabled(c, s, Offer(0)); }
        } else if rest == [] {
          assert Enabled(c, s, NextBatch);
        } else {
          assert Enabled(c, s, Visit(false));
        }
      case Closed(_, _) =>
        if w :| 0 <= w < |s.workers| && !s.workers[w].Quit? {
          if s.workers[w].Busy? { assert Enabled(c, s, Settle(w, Failed)); } else { assert Enabled(c, s, Exit(w)); }
        } else {
          assert Enabled(c, s, Return);
        }
    }
  }

  function WorkerRank(w: Worker): nat {
    match w
    case Idle => 1
    case Busy(_) => 2
    case Quit => 0
  }

  function WorkersRank(workers: seq<Worker>): nat {
    if workers == [] then 0 else WorkerRank(workers[0]) + WorkersRank(workers[1..])
  }

  lemma {:induction false} WorkersRankUpdate(workers: seq<Worker>, w: nat, now: Worker)
    requires w < |workers|
    ensures WorkersRank(workers[w := now]) + WorkerRank(workers[w]) == WorkersRank(workers) + WorkerRank(now)
  {
    if w == 0 {
      assert workers[0 := now][1..] == workers[1..];
    } else {
      WorkersRankUpdate(workers[1..], w - 1, now);
      assert workers[w := now][1..] == workers[1..][w - 1 := now];
    }
  }

  function MainRank(m: Main): nat {
    match m
    case Asking => 3
    case Serving(rest, left) => 2 * left + (if rest == [] then 4 else 2)
    case Closed(_, _) => 1
    case Returned(_, _) => 0
  }

  function Rank(c: Config, s: State): nat {
    |Ahead(s.eligible, s.last)| * (2 * c.units + 3) + MainRank(s.main) + WorkersRank(s.workers)
  }

  lemma SameAhead(c: Config, s: State, e: Event, start: set<nat>)
    requires Enabled(c, s, e) && !e.Visit? && AheadIsFresh(s, start) && (e.Change? ==> e.id <= s.last)
    ensures Ahead(Apply(c, s, e).eligible, Apply(c, s, e).last) == Ahead(s.eligible, s.last)
  {
    var t := Apply(c, s, e);
    forall x ensures x in Ahead(t.eligible, t.last) <==> x in Ahead(s.eligible, s.last) { }
  }

  lemma VisitShrinksAhead(c: Config, s: State, gone: bool, start: set<nat>)
    requires InOrder(c, s) && AheadIsFresh(s, start) && Enabled(c, s, Visit(gone))
    ensures var t := Apply(c, s, Visit(gone)); |Ahead(t.eligible, t.last)| < |Ahead(s.eligible, s.last)|
  {
    var t := Apply(c, s, Visit(gone));
    var head := s.main.rest[0];
    assert head in Pages(s) && head in Ahead(start, s.last);
    var before, after := Ahead(s.eligible, s.last), Ahead(t.eligible, t.last);
    assert head in before && after <= before - {head};
    SubsetIsSmaller(after, before - {head});
  }

  lemma {:induction false} LessWork(a: nat, b: nat, k: nat)
    requires a < b
    ensures a * k + k <= b * k
  {
    MoreUnits(b - 1, k);
    if a < b - 1 { LessWork(a, b - 1, k); }
  }

  /** Each step of the sweep brings it nearer to its end, and changes behind it push it back by nothing: so
      the run ends after finitely many of its own steps. */
  lemma StepsAreFinite(c: Config, s: State, e: Event, start: set<nat>)
    requires Inv(c, s) && AheadIsFresh(s, start) && Enabled(c, s, e)
    ensures !e.Change? ==> Rank(c, Apply(c, s, e)) < Rank(c, s)
    ensures e.Change? && e.id <= s.last ==> Rank(c, Apply(c, s, e)) == Rank(c, s)
  {
    if e.Visit? {
      VisitShrinksAhead(c, s, e.gone, start);
      LessWork(|Ahead(Apply(c, s, e).eligible, Apply(c, s, e).last)|, |Ahead(s.eligible, s.last)|, 2 * c.units + 3);
    } else if !e.Change? || e.id <= s.last {
      SameAhead(c, s, e, start);
    }
    match e {
      case Offer(w) => WorkersRankUpdate(s.workers, w, Busy(s.last));
      case Settle(w, _) => WorkersRankUpdate(s.workers, w, Idle);
      case Exit(w) => WorkersRankUpdate(s.workers, w, Quit);
      case _ =>
    }
    hide Ahead, InOrder, AheadIsFresh, WorkersRank, Inv;
  }
}
