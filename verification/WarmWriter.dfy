/** The cache writer shared by the workers of a warm run: every file is written outside the mutex, then
    counted under it, and each `pruneEvery`-th count prunes.  How many finished writes can a prune have
    missed at any moment? */
module WarmWriter {

  datatype Holder = Free | Pruning(worker: nat) | Walked(worker: nat)

  /** `uncounted` are the workers whose file is in place but not yet counted (or whose count is still
      pruning); `unseen` is the number of files put in place since the latest walk began. */
  datatype State = State(writes: nat, holder: Holder, uncounted: set<nat>, unseen: nat)

  datatype Event = PutFile(worker: nat) | Count(worker: nat) | BeginWalk | EndPrune

  datatype Limits = Limits(pruneEvery: nat, concurrency: nat)

  const INIT := State(0, Free, {}, 0)

  predicate Enabled(c: Limits, s: State, e: Event) {
    match e
    case PutFile(w) => w < c.concurrency && w !in s.uncounted
    case Count(w) => w in s.uncounted && s.holder.Free?
    case BeginWalk => s.holder.Pruning?
    case EndPrune => s.holder.Walked?
  }

  function Apply(c: Limits, s: State, e: Event): State
    requires Enabled(c, s, e)
  {
    match e
    case PutFile(w) => s.(uncounted := s.uncounted + {w}, unseen := s.unseen + 1)
    case Count(w) =>
      if s.writes + 1 < c.pruneEvery then s.(writes := s.writes + 1, uncounted := s.uncounted - {w})
      else s.(writes := 0, holder := Pruning(w))
    case BeginWalk => s.(holder := Walked(s.holder.worker), unseen := 0)
    case EndPrune => s.(holder := Free, uncounted := s.uncounted - {s.holder.worker})
  }

  ghost predicate Inv(c: Limits, s: State) {
    && (forall w :: w in s.uncounted ==> w < c.concurrency)
    && s.writes < c.pruneEvery
    && match s.holder
       case Free => s.unseen <= s.writes + |s.uncounted|
       case Pruning(w) => s.writes == 0 && w in s.uncounted && s.unseen <= c.pruneEvery + |s.uncounted| - 1
       case Walked(w) => s.writes == 0 && w in s.uncounted && s.unseen <= |s.uncounted| - 1
  }

  lemma {:induction false} SmallIds(ids: set<nat>, n: nat)
    requires forall w :: w in ids ==> w < n
    ensures |ids| <= n
  {
    if n == 0 {
      assert ids == {};
    } else {
      SmallIds(ids - {n - 1}, n - 1);
    }
  }

  lemma StepKeepsInv(c: Limits, s: State, e: Event)
    requires Inv(c, s) && Enabled(c, s, e)
    ensures Inv(c, Apply(c, s, e))
  {
  }

  function Run(c: Limits, s: State, events: seq<Event>): State
    requires CanRun(c, s, events)
    decreases |events|
  {
    if events == [] then s else Run(c, Apply(c, s, events[0]), events[1..])
  }

  predicate CanRun(c: Limits, s: State, events: seq<Event>)
    decreases |events|
  {
    events == [] || (Enabled(c, s, events[0]) && CanRun(c, Apply(c, s, events[0]), events[1..]))
  }

  /** At every moment of every run, whatever the schedule of the workers, at most
      pruneEvery + concurrency - 1 finished writes are unseen by a prune. */
  lemma {:induction false} UnseenIsBounded(c: Limits, s: State, events: seq<Event>)
    requires c.pruneEvery > 0 && Inv(c, s) && CanRun(c, s, events)
    ensures Inv(c, Run(c, s, events))
    ensures Run(c, s, events).unseen <= c.pruneEvery + c.concurrency - 1
    decreases |events|
  {
    if events == [] {
      SmallIds(s.uncounted, c.concurrency);
    } else {
      StepKeepsInv(c, s, events[0]);
      UnseenIsBounded(c, Apply(c, s, events[0]), events[1..]);
    }
  }

  /** How many steps the writes in place still need until each is counted and no prune is under way. */
  function Outstanding(s: State): int {
    match s.holder
    case Free => 3 * |s.uncounted|
    case Pruning(_) => 3 * |s.uncounted| - 1
    case Walked(_) => 3 * |s.uncounted| - 2
  }

  /** No worker is stuck: while a write is not counted or a prune is under way, a step of counting or pruning is
      possible, and each of them brings rest nearer. */
  lemma EveryWriteIsCounted(c: Limits, s: State, e: Event)
    requires Inv(c, s)
    ensures Outstanding(s) >= 0 && (Outstanding(s) == 0 <==> s.uncounted == {} && s.holder.Free?)
    ensures Outstanding(s) > 0 ==> exists b :: Enabled(c, s, b) && !b.PutFile?
    ensures Enabled(c, s, e) && !e.PutFile? ==> Outstanding(Apply(c, s, e)) < Outstanding(s)
  {
    match s.holder
    case Free => if w :| w in s.uncounted { assert Enabled(c, s, Count(w)); }
    case Pruning(w) => assert Enabled(c, s, BeginWalk) && {w} <= s.uncounted;
    case Walked(w) => assert Enabled(c, s, EndPrune) && |s.uncounted - {w}| == |s.uncounted| - 1;
  }

  lemma {:induction false} RunAppend(c: Limits, s: State, events: seq<Event>, e: Event)
    requires CanRun(c, s, events) && Enabled(c, Run(c, s, events), e)
    ensures CanRun(c, s, events + [e]) && Run(c, s, events + [e]) == Apply(c, Run(c, s, events), e)
    decreases |events|
  {
    if events == [] {
      assert [e][1..] == [];
    } else {
      RunAppend(c, Apply(c, s, events[0]), events[1..], e);
      assert (events + [e])[1..] == events[1..] + [e];
    }
  }

  lemma {:induction false} CountedRun(c: Limits, n: nat) returns (events: seq<Event>)
    requires n < c.pruneEvery && c.concurrency > 0
    ensures CanRun(c, INIT, events) && Run(c, INIT, events) == State(n, Free, {}, n)
  {
    if n == 0 {
      events := [];
    } else {
      events := CountedRun(c, n - 1);
      RunAppend(c, INIT, events, PutFile(0));
      events := events + [PutFile(0)];
      assert Run(c, INIT, events) == State(n - 1, Free, {0}, n);
      RunAppend(c, INIT, events, Count(0));
      events := events + [Count(0)];
      assert {0} - {0} == {};
    }
  }

  /** And the bound is reached: every worker has just put a file in place after pruneEvery - 1 counts. */
  lemma {:induction false} BoundIsReached(c: Limits, workers: nat) returns (events: seq<Event>)
    requires c.pruneEvery > 0 && c.concurrency > 0 && workers <= c.concurrency
    ensures CanRun(c, INIT, events)
    ensures Run(c, INIT, events).unseen == c.pruneEvery - 1 + workers
    ensures forall w :: w in Run(c, INIT, events).uncounted ==> w < workers
  {
    if workers == 0 {
      events := CountedRun(c, c.pruneEvery - 1);
    } else {
      events := BoundIsReached(c, workers - 1);
      RunAppend(c, INIT, events, PutFile(workers - 1));
      events := events + [PutFile(workers - 1)];
    }
  }

  /** The writer's own field and critical section. */
  class Writer {
    const pruneEvery: nat
    var writes: nat

    constructor (pruneEvery: nat)
      ensures this.pruneEvery == pruneEvery && writes == 0
    {
      this.pruneEvery := pruneEvery;
      writes := 0;
    }

    /** Under the mutex: counts a write and says whether it is time to prune. */
    method CountWrite() returns (prune: bool)
      modifies this
      ensures pruneEvery == 0 ==> !prune && writes == old(writes)
      // with a period, it is the step Count of the runs above: same field, and a prune exactly when the step
      // makes its worker the pruning one
      ensures forall c: Limits, s: State, w: nat ::
                0 < c.pruneEvery == pruneEvery && s.writes == old(writes) && Enabled(c, s, Count(w)) ==>
                  Apply(c, s, Count(w)).writes == writes && (prune <==> Apply(c, s, Count(w)).holder == Pruning(w))
    {
      if pruneEvery == 0 { return false; }
      writes := writes + 1;
      if writes < pruneEvery { return false; }
      writes := 0;
      return true;
    }
  }
}
