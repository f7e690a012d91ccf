/** One page of the scraper: a goroutine per item, a counting semaphore around the whole item and a
    mutex per dedupe key around check-then-download.  A step is one blocking or shared operation of one
    goroutine; any order of steps is a run. */
module ScrapePage {

  /** An item's stable dedupe key; the empty string when the connector gave none. */
  type Items = seq<string>

  datatype Tally = Downloaded | Skipped | Failed

  datatype Phase =
    | Unborn                    // the loop has not started this goroutine yet
    | Queued                    // blocked on the semaphore
    | Admitted                  // holds a slot
    | AwaitingKey               // holds a slot, blocked on its key's mutex
    | Checking                  // holds the slot and the mutex
    | Downloading               // found the key not kept
    | Leaving(tally: Tally, locked: bool)   // counted; about to release what it holds
    | Gone(tally: Tally)

  /** `kept` are the keys with a downloaded row; `locks` maps a locked key to its goroutine. */
  datatype State = State(
    phases: seq<Phase>, kept: set<string>, locks: map<string, nat>,
    downloaded: nat, skipped: nat, failed: nat)

  datatype Download = Recorded | RoutedToInbox | Broken

  /** `lookup`: the check of the catalog succeeds; `elsewhere`: a downloaded row stands under the item's source
      URL; `recorded`: the exception could be filed in the inbox. */
  datatype Event =
    | Spawn(i: nat)
    | Acquire(i: nat)
    | ReadKey(i: nat, recorded: bool)
    | LockKey(i: nat)
    | Check(i: nat, lookup: bool, elsewhere: bool, recorded: bool)
    | Fetch(i: nat, result: Download)
    | Release(i: nat)

  function Init(items: Items, kept: set<string>): State {
    State(seq(|items|, i => Unborn), kept, map[], 0, 0, 0)
  }

  predicate HasSlot(p: Phase) { p.Admitted? || p.AwaitingKey? || p.Checking? || p.Downloading? || p.Leaving? }

  predicate InSection(p: Phase) { p.Checking? || p.Downloading? || (p.Leaving? && p.locked) }

  function Slots(s: State): set<nat> { set i | 0 <= i < |s.phases| && HasSlot(s.phases[i]) }

  predicate Enabled(items: Items, limit: nat, s: State, e: Event) {
    && e.i < |items| == |s.phases|
    && match e
       case Spawn(i) => s.phases[i].Unborn? && forall j :: 0 <= j < i ==> !s.phases[j].Unborn?
       case Acquire(i) => s.phases[i].Queued? && |Slots(s)| < limit
       case ReadKey(i, _) => s.phases[i].Admitted?
       case LockKey(i) => s.phases[i].AwaitingKey? && items[i] !in s.locks
       case Check(i, _, _, _) => s.phases[i].Checking?
       case Fetch(i, _) => s.phases[i].Downloading?
       case Release(i) => s.phases[i].Leaving?
  }

  function NextPhase(items: Items, s: State, e: Event): Phase
    requires e.i < |items| == |s.phases|
  {
    match e
    case Spawn(i) => Queued
    case Acquire(i) => Admitted
    case ReadKey(i, recorded) =>
      if items[i] == "" then Leaving(if recorded then Skipped else Failed, false) else AwaitingKey
    case LockKey(i) => Checking
    case Check(i, lookup, elsewhere, recorded) =>
      if !lookup then Leaving(Failed, true)
      else if items[i] in s.kept || elsewhere then Leaving(if recorded then Skipped else Failed, true)
      else Downloading
    case Fetch(i, result) => Leaving(if result.Broken? then Failed else Downloaded, true)
    case Release(i) => if s.phases[i].Leaving? then Gone(s.phases[i].tally) else s.phases[i]
  }

  function Apply(items: Items, limit: nat, s: State, e: Event): State
    requires Enabled(items, limit, s, e)
  {
    var i, p := e.i, NextPhase(items, s, e);
    s.(phases := s.phases[i := p],
       kept := if e.Fetch? && e.result.Recorded? then s.kept + {items[i]} else s.kept,
       locks := if e.LockKey? then s.locks[items[i] := i]
                else if e.Release? && s.phases[i].locked then s.locks - {items[i]}
                else s.locks,
       downloaded := if p.Leaving? && p.tally.Downloaded? then s.downloaded + 1 else s.downloaded,
       skipped := if p.Leaving? && p.tally.Skipped? then s.skipped + 1 else s.skipped,
       failed := if p.Leaving? && p.tally.Failed? then s.failed + 1 else s.failed)
  }

  // ----- What every step keeps -----

  /** How many goroutines have been counted under a tally. */
  function Tallied(phases: seq<Phase>, t: Tally): nat {
    if phases == [] then 0
    else (if IsTallied(phases[0], t) then 1 else 0) + Tallied(phases[1..], t)
  }

  predicate IsTallied(p: Phase, t: Tally) { (p.Leaving? || p.Gone?) && p.tally == t }

  ghost predicate LocksMatch(items: Items, s: State) {
    && |s.phases| == |items|
    && (forall k :: k in s.locks ==> s.locks[k] < |items| && items[s.locks[k]] == k && InSection(s.phases[s.locks[k]]))
    && (forall i :: 0 <= i < |items| && InSection(s.phases[i]) ==> items[i] in s.locks && s.locks[items[i]] == i)
  }

  ghost predicate Inv(items: Items, limit: nat, s: State) {
    && |s.phases| == |items|
    && |Slots(s)| <= limit
    && LocksMatch(items, s)
    && (forall i :: 0 <= i < |items| && s.phases[i].Downloading? ==> items[i] !in s.kept)
    && s.downloaded == Tallied(s.phases, Downloaded)
    && s.skipped == Tallied(s.phases, Skipped)
    && s.failed == Tallied(s.phases, Failed)
  }

  lemma {:induction false} TalliedUpdate(phases: seq<Phase>, i: nat, p: Phase, t: Tally)
    requires i < |phases|
    ensures Tallied(phases[i := p], t) + (if IsTallied(phases[i], t) then 1 else 0) ==
            Tallied(phases, t) + (if IsTallied(p, t) then 1 else 0)
  {
    if i == 0 {
      assert phases[0 := p][1..] == phases[1..];
    } else {
      TalliedUpdate(phases[1..], i - 1, p, t);
      assert phases[i := p][1..] == phases[1..][i - 1 := p];
    }
  }

  lemma SlotsUpdate(items: Items, limit: nat, s: State, e: Event)
    requires Enabled(items, limit, s, e)
    ensures var t := Apply(items, limit, s, e);
            Slots(t) == if e.Acquire? then Slots(s) + {e.i} else if e.Release? then Slots(s) - {e.i} else Slots(s)
  {
  }

  lemma LocksStep(items: Items, limit: nat, s: State, e: Event)
    requires |s.phases| == |items| && LocksMatch(items, s) && Enabled(items, limit, s, e)
    ensures LocksMatch(items, Apply(items, limit, s, e))
  {
    hide Slots;
    var t := Apply(items, limit, s, e);
    if e.LockKey? || (e.Release? && s.phases[e.i].locked) {
      assert forall i :: 0 <= i < |items| && i != e.i ==> t.phases[i] == s.phases[i];
    } else {
      SectionStays(items, limit, s, e);
      hide NextPhase, InSection;
    }
  }

  /** Only taking and releasing a key's mutex begins or ends a critical section. */
  lemma SectionStays(items: Items, limit: nat, s: State, e: Event)
    requires Enabled(items, limit, s, e) && !e.LockKey? && !(e.Release? && s.phases[e.i].locked)
    ensures var t := Apply(items, limit, s, e);
            t.locks == s.locks && forall i :: 0 <= i < |items| ==> InSection(t.phases[i]) == InSection(s.phases[i])
  {
    hide Slots;
  }

  lemma StepKeepsInv(items: Items, limit: nat, s: State, e: Event)
    requires Inv(items, limit, s) && Enabled(items, limit, s, e)
    ensures Inv(items, limit, Apply(items, limit, s, e))
  {
    SlotsUpdate(items, limit, s, e);
    LocksStep(items, limit, s, e);
    var p := NextPhase(items, s, e);
    TalliedUpdate(s.phases, e.i, p, Downloaded);
    TalliedUpdate(s.phases, e.i, p, Skipped);
    TalliedUpdate(s.phases, e.i, p, Failed);
    var t := Apply(items, limit, s, e);
    forall i | 0 <= i < |items| && t.phases[i].Downloading? ensures items[i] !in t.kept {
      if i != e.i { assert InSection(s.phases[i]); }
    }
    hide Slots, LocksMatch, Tallied;
  }

  lemma {:induction false} NothingTallied(phases: seq<Phase>, t: Tally)
    requires forall i :: 0 <= i < |phases| ==> phases[i].Unborn?
    ensures Tallied(phases, t) == 0
  {
    if phases != [] { NothingTallied(phases[1..], t); }
  }

  lemma InitInv(items: Items, limit: nat, kept: set<string>)
    ensures Inv(items, limit, Init(items, kept))
  {
    var s := Init(items, kept);
    NothingTallied(s.phases, Downloaded);
    NothingTallied(s.phases, Skipped);
    NothingTallied(s.phases, Failed);
    assert Slots(s) == {};
  }

  // ----- Runs -----

  ghost predicate IsRun(items: Items, limit: nat, kept: set<string>, states: seq<State>, events: seq<Event>) {
    && |states| == |events| + 1 && states[0] == Init(items, kept)
    && forall k :: 0 <= k < |events| ==>
         Enabled(items, limit, states[k], events[k]) && states[k + 1] == Apply(items, limit, states[k], events[k])
  }

  lemma {:induction false} RunKeepsInv(
      items: Items, limit: nat, kept: set<string>, states: seq<State>, events: seq<Event>, k: nat)
    requires IsRun(items, limit, kept, states, events) && k < |states|
    ensures Inv(items, limit, states[k])
  {
    if k == 0 {
      InitInv(items, limit, kept);
    } else {
      RunKeepsInv(items, limit, kept, states, events, k - 1);
      StepKeepsInv(items, limit, states[k - 1], events[k - 1]);
    }
  }

  /** In every interleaving: at most `limit` items are in flight; two goroutines of the same key are never
      both between check and download; and a key found not kept is still not kept when it is fetched. */
  lemma SectionIsExclusive(
      items: Items, limit: nat, kept: set<string>, states: seq<State>, events: seq<Event>, k: nat, i: nat, j: nat)
    requires IsRun(items, limit, kept, states, events) && k < |states| && i < |items| && j < |items|
    ensures var s := states[k];
            && |s.phases| == |items|
            && |Slots(s)| <= limit
            && (InSection(s.phases[i]) && InSection(s.phases[j]) && items[i] == items[j] ==> i == j)
            && (s.phases[i].Downloading? ==> items[i] !in s.kept)
  {
    RunKeepsInv(items, limit, kept, states, events, k);
  }

  lemma {:induction false} KeptGrows(
      items: Items, limit: nat, kept: set<string>, states: seq<State>, events: seq<Event>, a: nat, b: nat)
    requires IsRun(items, limit, kept, states, events) && a <= b < |states|
    ensures states[a].kept <= states[b].kept
    decreases b - a
  {
    if a < b { KeptGrows(items, limit, kept, states, events, a, b - 1); }
  }

  /** So no key is recorded twice in one page, however often it occurs. */
  lemma RecordedOncePerKey(
      items: Items, limit: nat, kept: set<string>, states: seq<State>, events: seq<Event>, a: nat, b: nat)
    requires IsRun(items, limit, kept, states, events) && a < b < |events|
    requires events[a].Fetch? && events[a].result.Recorded? && events[b].Fetch? && events[b].result.Recorded?
    requires events[a].i < |items| && events[b].i < |items|
    ensures items[events[a].i] != items[events[b].i]
  {
    KeptGrows(items, limit, kept, states, events, a + 1, b);
    SectionIsExclusive(items, limit, kept, states, events, b, events[b].i, events[b].i);
    assert items[events[a].i] in states[a + 1].kept;
  }

  /** The goroutines of a page are started in the order of its items. */
  lemma {:induction false} StartedInOrder(
      items: Items, limit: nat, kept: set<string>, states: seq<State>, events: seq<Event>, k: nat, i: nat, j: nat)
    requires IsRun(items, limit, kept, states, events) && k < |states| && i < j < |items|
    ensures |states[k].phases| == |items|
    ensures states[k].phases[i].Unborn? ==> states[k].phases[j].Unborn?
  {
    hide Slots;
    if k > 0 { StartedInOrder(items, limit, kept, states, events, k - 1, i, j); }
  }

  // ----- What each counter counts -----

  /** A step that ends an item: its media was stored or sent to the inbox; it was known already and filed as a
      duplicate, or had no key and was filed as an exception; or something failed. */
  predicate Downloads(e: Event) { e.Fetch? && !e.result.Broken? }

  predicate FindsKept(items: Items, s: State, e: Event)
    requires e.i < |items|
  {
    e.Check? && e.lookup && (items[e.i] in s.kept || e.elsewhere)
  }

  predicate Skips(items: Items, s: State, e: Event)
    requires e.i < |items|
  {
    (e.ReadKey? && items[e.i] == "" && e.recorded) || (FindsKept(items, s, e) && e.recorded)
  }

  predicate Fails(items: Items, s: State, e: Event)
    requires e.i < |items|
  {
    || (e.ReadKey? && items[e.i] == "" && !e.recorded) || (e.Check? && !e.lookup)
    || (FindsKept(items, s, e) && !e.recorded) || (e.Fetch? && e.result.Broken?)
  }

  /** The steps of a run that end an item in the way of `t`. */
  ghost function Ended(items: Items, states: seq<State>, events: seq<Event>, k: nat, t: Tally): nat
    requires k <= |events| < |states| && forall j :: 0 <= j < |events| ==> events[j].i < |items|
  {
    if k == 0 then 0
    else
      var s, e := states[k - 1], events[k - 1];
      Ended(items, states, events, k - 1, t)
      + match t
        case Downloaded => if Downloads(e) then 1 else 0
        case Skipped => if Skips(items, s, e) then 1 else 0
        case Failed => if Fails(items, s, e) then 1 else 0
  }

  /** Each counter counts the items that ended in its way. */
  lemma {:induction false} CountersCountTheirEnd(
      items: Items, limit: nat, kept: set<string>, states: seq<State>, events: seq<Event>, k: nat)
    requires IsRun(items, limit, kept, states, events) && k < |states|
    ensures forall j :: 0 <= j < |events| ==> events[j].i < |items|
    ensures states[k].downloaded == Ended(items, states, events, k, Downloaded)
    ensures states[k].skipped == Ended(items, states, events, k, Skipped)
    ensures states[k].failed == Ended(items, states, events, k, Failed)
  {
    hide Slots;
    if k > 0 { CountersCountTheirEnd(items, limit, kept, states, events, k - 1); }
  }

  /** An item without a key is never fetched, and one that was fetched had been looked up and found neither
      under its key nor under its source URL. */
  lemma FetchedWasNotKept(
      items: Items, limit: nat, kept: set<string>, states: seq<State>, events: seq<Event>, k: nat)
    requires IsRun(items, limit, kept, states, events) && k < |events| && events[k].Fetch?
    ensures var i := events[k].i;
            && i < |items| && items[i] != "" && items[i] !in states[k].kept
            && exists j :: 0 <= j < k && events[j].Check? && events[j].i == i && events[j].lookup &&
                 !FindsKept(items, states[j], events[j])
  {
    RunKeepsInv(items, limit, kept, states, events, k);
    DownloadingWasChecked(items, limit, kept, states, events, k, events[k].i);
  }

  lemma {:induction false} DownloadingWasChecked(
      items: Items, limit: nat, kept: set<string>, states: seq<State>, events: seq<Event>, k: nat, i: nat)
    requires IsRun(items, limit, kept, states, events) && k < |states| && i < |items|
    ensures |states[k].phases| == |items|
    ensures states[k].phases[i] in {AwaitingKey, Checking, Downloading} ==> items[i] != ""
    ensures states[k].phases[i].Downloading? ==>
              exists j :: 0 <= j < k && events[j].Check? && events[j].i == i && events[j].lookup &&
                !FindsKept(items, states[j], events[j])
  {
    hide Slots;
    if k > 0 {
      DownloadingWasChecked(items, limit, kept, states, events, k - 1, i);
      if states[k].phases[i].Downloading? && !states[k - 1].phases[i].Downloading? {
        assert events[k - 1].Check? && !FindsKept(items, states[k - 1], events[k - 1]);
      }
    }
  }

  // ----- Every run ends, and only in the right way -----

  function Rank(p: Phase): nat {
    match p
    case Unborn => 7
    case Queued => 6
    case Admitted => 5
    case AwaitingKey => 4
    case Checking => 3
    case Downloading => 2
    case Leaving(_, _) => 1
    case Gone(_) => 0
  }

  function Work(phases: seq<Phase>): nat {
    if phases == [] then 0 else Rank(phases[0]) + Work(phases[1..])
  }

  lemma {:induction false} WorkUpdate(phases: seq<Phase>, i: nat, p: Phase)
    requires i < |phases|
    ensures Work(phases[i := p]) + Rank(phases[i]) == Work(phases) + Rank(p)
  {
    if i == 0 {
      assert phases[0 := p][1..] == phases[1..];
    } else {
      WorkUpdate(phases[1..], i - 1, p);
      assert phases[i := p][1..] == phases[1..][i - 1 := p];
    }
  }

  /** Every step brings the page nearer to its end, so no run is longer than seven steps per item. */
  lemma StepsAreFinite(items: Items, limit: nat, s: State, e: Event)
    requires Enabled(items, limit, s, e)
    ensures Work(Apply(items, limit, s, e).phases) < Work(s.phases)
  {
    WorkUpdate(s.phases, e.i, NextPhase(items, s, e));
  }

  predicate AllGone(s: State) { forall i :: 0 <= i < |s.phases| ==> s.phases[i].Gone? }

  /** The semaphore and the key mutexes cannot deadlock: as long as a goroutine is left, one can move. */
  lemma NoDeadlock(items: Items, limit: nat, s: State)
    requires Inv(items, limit, s) && limit > 0 && !AllGone(s)
    ensures exists e :: Enabled(items, limit, s, e)
  {
    if i :| 0 <= i < |items| && HasSlot(s.phases[i]) {
      SlotHolderMoves(items, limit, s, i);
    } else {
      assert Slots(s) == {};
      if i :| 0 <= i < |items| && s.phases[i].Queued? {
        assert Enabled(items, limit, s, Acquire(i));
      } else {
        var i := FirstUnborn(items, s, 0);
        assert Enabled(items, limit, s, Spawn(i));
      }
    }
  }

  /** A goroutine with a slot can move, or waits for a mutex whose holder can. */
  lemma SlotHolderMoves(items: Items, limit: nat, s: State, i: nat)
    requires Inv(items, limit, s) && i < |items| && HasSlot(s.phases[i])
    ensures exists e :: Enabled(items, limit, s, e)
  {
    if s.phases[i].AwaitingKey? && items[i] in s.locks {
      var h := s.locks[items[i]];
      assert InSection(s.phases[h]);
      SectionMoves(items, limit, s, h);
    } else if s.phases[i].AwaitingKey? {
      assert Enabled(items, limit, s, LockKey(i));
    } else if s.phases[i].Admitted? {
      assert Enabled(items, limit, s, ReadKey(i, true));
    } else if s.phases[i].Leaving? {
      assert Enabled(items, limit, s, Release(i));
    } else {
      SectionMoves(items, limit, s, i);
    }
  }

  lemma SectionMoves(items: Items, limit: nat, s: State, h: nat)
    requires h < |items| == |s.phases| && InSection(s.phases[h])
    ensures exists e :: Enabled(items, limit, s, e)
  {
    if s.phases[h].Checking? {
      assert Enabled(items, limit, s, Check(h, true, false, true));
    } else if s.phases[h].Downloading? {
      assert Enabled(items, limit, s, Fetch(h, Recorded));
    } else {
      assert Enabled(items, limit, s, Release(h));
    }
  }

  lemma {:induction false} FirstUnborn(items: Items, s: State, from: nat) returns (i: nat)
    requires |s.phases| == |items| && from <= |items|
    requires exists k :: from <= k < |items| && s.phases[k].Unborn?
    requires forall k :: 0 <= k < from ==> !s.phases[k].Unborn?
    ensures i < |items| && s.phases[i].Unborn? && forall k :: 0 <= k < i ==> !s.phases[k].Unborn?
    decreases |items| - from
  {
    if s.phases[from].Unborn? { i := from; } else { i := FirstUnborn(items, s, from + 1); }
  }

  lemma {:induction false} TalliesSum(phases: seq<Phase>)
    requires forall i :: 0 <= i < |phases| ==> phases[i].Gone?
    ensures Tallied(phases, Downloaded) + Tallied(phases, Skipped) + Tallied(phases, Failed) == |phases|
  {
    if phases != [] { TalliesSum(phases[1..]); }
  }

  /** A run that cannot go on has served every item, and the three counters sum to their number. */
  lemma CountersSumUp(items: Items, limit: nat, kept: set<string>, states: seq<State>, events: seq<Event>)
    requires limit > 0 && IsRun(items, limit, kept, states, events)
    requires forall e :: !Enabled(items, limit, states[|events|], e)
    ensures var s := states[|events|]; AllGone(s) && s.downloaded + s.skipped + s.failed == |items|
  {
    var s := states[|events|];
    RunKeepsInv(items, limit, kept, states, events, |events|);
    if !AllGone(s) { NoDeadlock(items, limit, s); }
    TalliesSum(s.phases);
  }

  /** With a limit of zero the semaphore never opens: a page with items never finishes.  The
      configuration must refuse it, and does. */
  lemma {:induction false} ZeroLimitBlocks(
      items: Items, kept: set<string>, states: seq<State>, events: seq<Event>, k: nat)
    requires IsRun(items, 0, kept, states, events) && k < |states|
    ensures |states[k].phases| == |items|
    ensures forall i :: 0 <= i < |items| ==> states[k].phases[i].Unborn? || states[k].phases[i].Queued?
  {
    if k > 0 { ZeroLimitBlocks(items, kept, states, events, k - 1); }
  }
}
