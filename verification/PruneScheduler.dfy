/** The debounced prune of the derivative cache: the mutex-guarded fields as a class, and every
    interleaving of writers, timer callbacks and prunes as a step system over the same critical sections. */
module PruneScheduler {
  import opened Common

  /** The fields guarded by pruneMu, and how many timer callbacks are armed or waiting for the mutex. */
  datatype Guarded = Guarded(timer: bool, running: bool, requested: bool, armed: nat)

  /** The critical section of SchedulePrune. */
  function Schedule(g: Guarded): Guarded {
    if g.running then g.(requested := true)
    else if !g.timer then g.(timer := true, armed := g.armed + 1)
    else g
  }

  /** The first critical section of runScheduledPrune; it consumes one callback. */
  function Begin(g: Guarded): Guarded
    requires g.armed > 0
  {
    g.(timer := false, running := true, armed := g.armed - 1)
  }

  /** The second critical section of runScheduledPrune. */
  function End(g: Guarded): Guarded {
    if g.requested then Guarded(true, false, false, g.armed + 1) else g.(running := false)
  }

  class Scheduler {
    /** The budget; without one nothing is ever scheduled, and the runs below are those of a cache that has one. */
    const maxBytes: int
    var timer: bool
    var running: bool
    var requested: bool
    /** Callbacks handed to the runtime that have not entered their first critical section. */
    ghost var armed: nat

    constructor (maxBytes: int)
      ensures this.maxBytes == maxBytes && Model() == Guarded(false, false, false, 0)
    {
      this.maxBytes, timer, running, requested, armed := maxBytes, false, false, false, 0;
    }

    ghost function Model(): Guarded
      reads this
    {
      Guarded(timer, running, requested, armed)
    }

    method SchedulePrune()
      modifies this
      ensures Model() == if maxBytes <= 0 then old(Model()) else Schedule(old(Model()))
    {
      if maxBytes <= 0 { return; }
      if running {
        requested := true;
        return;
      }
      if !timer {
        timer := true;
        armed := armed + 1;
      }
    }

    method BeginScheduledPrune()
      requires armed > 0
      modifies this
      ensures Model() == Begin(old(Model()))
    {
      timer := false;
      running := true;
      armed := armed - 1;
    }

    method EndScheduledPrune()
      modifies this
      ensures Model() == End(old(Model()))
    {
      running := false;
      if requested {
        requested := false;
        timer := true;
        armed := armed + 1;
      }
    }
  }

  // ----- All interleavings -----

  /** A prune between its two critical sections. */
  datatype Walk = NotBegun | Begun

  /** `written` counts the files put in place, numbered in that order; `scheduled` holds the writes whose
      call of SchedulePrune has returned; `seen` is the number of files in place when the latest walk
      began, so that walk came after exactly the writes up to `seen`. */
  datatype State = State(g: Guarded, prunes: map<nat, Walk>, written: nat, scheduled: set<nat>, seen: nat)

  datatype Event =
    | PutFile
    | ScheduleFor(write: nat)
    | BeginPrune(thread: nat)
    | BeginWalk(thread: nat)
    | EndPrune(thread: nat)

  const INIT := State(Guarded(false, false, false, 0), map[], 0, {}, 0)

  predicate Enabled(s: State, e: Event) {
    match e
    case PutFile => true
    case ScheduleFor(w) => 0 < w <= s.written && w !in s.scheduled
    case BeginPrune(t) => s.g.armed > 0 && t !in s.prunes
    case BeginWalk(t) => t in s.prunes && s.prunes[t].NotBegun?
    case EndPrune(t) => t in s.prunes && s.prunes[t].Begun?
  }

  function Apply(s: State, e: Event): State
    requires Enabled(s, e)
  {
    match e
    case PutFile => s.(written := s.written + 1)
    case ScheduleFor(w) => s.(g := Schedule(s.g), scheduled := s.scheduled + {w})
    case BeginPrune(t) => s.(g := Begin(s.g), prunes := s.prunes[t := NotBegun])
    case BeginWalk(t) => s.(prunes := s.prunes[t := Begun], seen := s.written)
    case EndPrune(t) => s.(g := End(s.g), prunes := s.prunes - {t})
  }

  ghost predicate Inv(s: State) {
    && s.g.armed == (if s.g.timer then 1 else 0)
    && |s.prunes| == (if s.g.running then 1 else 0)
    && !(s.g.timer && s.g.running)
    && (s.g.requested ==> s.g.running)
    && s.seen <= s.written
    && forall w :: w in s.scheduled ==> w <= s.written && Covered(s, w)
  }

  /** Write `w` is behind the latest walk, or a walk is still to come: a timer is pending, a rerun is
      requested, or a prune has started whose walk has not. */
  ghost predicate Covered(s: State, w: nat) {
    w <= s.seen || s.g.timer || s.g.requested || exists t :: t in s.prunes && s.prunes[t].NotBegun?
  }

  lemma OnlyOne(prunes: map<nat, Walk>, a: nat, b: nat)
    requires |prunes| <= 1 && a in prunes && b in prunes
    ensures a == b
  {
    if a != b {
      assert {a, b} <= prunes.Keys;
      SubsetIsSmaller({a, b}, prunes.Keys);
    }
  }

  lemma StepKeepsInv(s: State, e: Event)
    requires Inv(s) && Enabled(s, e)
    ensures Inv(Apply(s, e)) && s.scheduled <= Apply(s, e).scheduled && s.seen <= Apply(s, e).seen
  {
    var t := Apply(s, e);
    match e
    case PutFile =>
    case ScheduleFor(w) =>
    case BeginPrune(k) =>
      assert k in t.prunes && t.prunes[k].NotBegun?;
      assert |t.prunes| == 1;
    case BeginWalk(k) =>
      assert t.prunes.Keys == s.prunes.Keys;
    case EndPrune(k) =>
      assert t.prunes.Keys == s.prunes.Keys - {k};
      forall w | w in t.scheduled ensures Covered(t, w) {
        if j :| j in s.prunes && s.prunes[j].NotBegun? { OnlyOne(s.prunes, j, k); }
      }
  }

  ghost predicate IsRun(states: seq<State>, events: seq<Event>) {
    && |states| == |events| + 1 && states[0] == INIT
    && forall k :: 0 <= k < |events| ==> Enabled(states[k], events[k]) && states[k + 1] == Apply(states[k], events[k])
  }

  lemma {:induction false} RunKeepsInv(states: seq<State>, events: seq<Event>, k: nat)
    requires IsRun(states, events) && k < |states|
    ensures Inv(states[k])
  {
    if k > 0 {
      RunKeepsInv(states, events, k - 1);
      StepKeepsInv(states[k - 1], events[k - 1]);
    }
  }

  /** Prunes never overlap: at any moment of any run at most one scheduled prune is pending or running. */
  lemma PrunesNeverOverlap(states: seq<State>, events: seq<Event>, k: nat)
    requires IsRun(states, events) && k < |states|
    ensures states[k].g.armed + |states[k].prunes| <= 1
  {
    RunKeepsInv(states, events, k);
  }

  /** No request is lost: once SchedulePrune has returned for a write, then at every later moment the
      write is behind the latest walk or a walk is still to come; and when nothing is pending or running
      any more, the latest walk began after every such write. */
  lemma NoRequestIsLost(states: seq<State>, events: seq<Event>, k: nat, j: nat, w: nat)
    requires IsRun(states, events) && k <= j < |states| && w in states[k].scheduled
    ensures Covered(states[j], w)
    ensures states[j].g.armed == 0 && states[j].prunes == map[] ==> w <= states[j].seen
  {
    RunKeepsInv(states, events, j);
    ScheduledStays(states, events, k, j);
  }

  lemma {:induction false} ScheduledStays(states: seq<State>, events: seq<Event>, k: nat, j: nat)
    requires IsRun(states, events) && k <= j < |states|
    ensures states[k].scheduled <= states[j].scheduled
    decreases j - k
  {
    if k < j {
      RunKeepsInv(states, events, j - 1);
      StepKeepsInv(states[j - 1], events[j - 1]);
      ScheduledStays(states, events, k, j - 1);
    }
  }

  /** The writes that were in place after `k` steps. */
  function Written(events: seq<Event>, k: nat): nat
    requires k <= |events|
  {
    if k == 0 then 0 else Written(events, k - 1) + if events[k - 1].PutFile? then 1 else 0
  }

  /** What a state says was written and walked is what the run did. */
  lemma {:induction false} StateTellsTheRun(states: seq<State>, events: seq<Event>, j: nat)
    requires IsRun(states, events) && j < |states|
    ensures states[j].written == Written(events, j)
    ensures states[j].seen == 0 ||
            exists n :: 0 <= n < j && events[n].BeginWalk? && Written(events, n) == states[j].seen
  {
    if j > 0 { StateTellsTheRun(states, events, j - 1); }
  }

  /** In terms of the run alone: if SchedulePrune was called for the `w`-th write and nothing is pending or running
      any more, a walk over the directory has begun after that write was in place. */
  lemma EveryWriteIsWalked(states: seq<State>, events: seq<Event>, k: nat, j: nat, w: nat)
    requires IsRun(states, events) && k < j < |states| && events[k] == ScheduleFor(w)
    requires states[j].g.armed == 0 && states[j].prunes == map[]
    ensures exists n :: 0 <= n < j && events[n].BeginWalk? && Written(events, n) >= w
  {
    assert w in states[k + 1].scheduled;
    NoRequestIsLost(states, events, k + 1, j, w);
    StateTellsTheRun(states, events, j);
  }

  /** How many steps the scheduler itself still takes once writers are silent. */
  function Remaining(s: State): nat {
    (if s.g.requested then 3 else 0) + 3 * s.g.armed
    + (if exists t :: t in s.prunes && s.prunes[t].NotBegun? then 2 else if s.prunes != map[] then 1 else 0)
  }

  /** With writers silent the scheduler comes to rest: a step is always possible until nothing is pending
      or running, and every one of its steps brings rest nearer. */
  lemma ComesToRest(s: State)
    requires Inv(s)
    ensures Remaining(s) == 0 <==> s.g.armed == 0 && s.prunes == map[]
    ensures Remaining(s) > 0 ==> exists e :: Enabled(s, e) && !e.PutFile? && !e.ScheduleFor?
    ensures forall e :: Enabled(s, e) && !e.PutFile? && !e.ScheduleFor? ==> Remaining(Apply(s, e)) < Remaining(s)
  {
    if s.g.armed > 0 {
      assert s.prunes == map[];
      assert Enabled(s, BeginPrune(0));
    } else if t :| t in s.prunes {
      assert Enabled(s, BeginWalk(t)) || Enabled(s, EndPrune(t));
    } else {
      assert s.prunes == map[];
    }
    forall e | Enabled(s, e) && !e.PutFile? && !e.ScheduleFor? ensures Remaining(Apply(s, e)) < Remaining(s) {
      StepKeepsInv(s, e);
      var t := Apply(s, e);
      match e
      case BeginPrune(k) => assert s.prunes == map[];
      case BeginWalk(k) =>
        assert k in t.prunes;
        forall j | j in t.prunes ensures t.prunes[j].Begun? { OnlyOne(t.prunes, j, k); }
      case EndPrune(k) =>
        forall j | j in s.prunes ensures j == k { OnlyOne(s.prunes, j, k); }
        assert t.prunes == map[];
      case _ =>
    }
  }
}
