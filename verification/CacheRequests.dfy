/** What becomes of the requests and the locks of the catalog cache: every request comes to an answer by itself, and
    a lock is released by its holder unless the store refuses. */
module CacheRequests {
  import opened Common
  import opened CatalogCache
  import opened CacheEntries

  // ----- Every request ends -----

  /** How many steps a request has in front of it at most. */
  function StepsLeft(p: Phase): nat {
    match p
    case Entering => 10
    case Keyed(_) => 9
    case Choosing(_) => 8
    case Looking(_) => 7
    case Locking(_) => 6
    case Peeking(_) => 5
    case Waiting(_) => 4
    case Computing(_, _, _) => 3
    case Storing(_, _) => 2
    case Releasing(_, _) => 1
    case _ => 0
  }

  lemma StepLeads(s: State, r: Request, a: Action)
    requires CanAct(s, r, a)
    ensures StepsLeft(NextPhase(s, r, a)) < StepsLeft(r.phase) || (a.Poll? && NextPhase(s, r, a) == r.phase)
  {
  }

  lemma StepExists(s: State, r: Request) returns (a: Action)
    requires StepsLeft(r.phase) > 0 && (r.phase.Computing? ==> r.phase.since <= s.version)
    ensures CanAct(s, r, a) && !a.Poll?
  {
    match r.phase {
      case Entering => a := ReadEpoch(Ok);
      case Keyed(_) => a := Condition(None);
      case Choosing(_) => a := Enter;
      case Looking(_) => a := FirstGet(true, Ok);
      case Locking(_) => a := TryLock(Ok);
      case Peeking(_) => a := Peek(Ok);
      case Waiting(_) => a := GiveUp;
      case Computing(_, _, _) => a := Computed(s.version);
      case Storing(_, _) => a := Store(Ok);
      case Releasing(_, _) => a := Release(Ok);
    }
  }

  /** Every step of a request brings it nearer to its answer, except a poll that finds nothing; and until it is
      answered it has such a step, whatever the others do. */
  lemma RequestsEnd(states: seq<State>, events: seq<Event>, j: nat, i: nat, a: Action)
    requires IsRun(states, events) && j < |states| && i in states[j].requests
    ensures var s, r := states[j], states[j].requests[i];
            && (CanAct(s, r, a) ==>
                  StepsLeft(NextPhase(s, r, a)) < StepsLeft(r.phase) || (a.Poll? && NextPhase(s, r, a) == r.phase))
            && (StepsLeft(r.phase) > 0 ==>
                  exists b :: CanAct(s, r, b) && StepsLeft(NextPhase(s, r, b)) < StepsLeft(r.phase))
  {
    hide NextPhase, CanAct, StepsLeft;
    RunKeepsInv(states, events, j);
    var s, r := states[j], states[j].requests[i];
    if r.phase.Computing? { ComputesSince(s, i); }
    if CanAct(s, r, a) { StepLeads(s, r, a); }
    if StepsLeft(r.phase) > 0 {
      var b := StepExists(s, r);
      StepLeads(s, r, b);
    }
  }

  lemma ComputesSince(s: State, i: nat)
    requires Inv(s) && i in s.requests && s.requests[i].phase.Computing?
    ensures s.requests[i].phase.since <= s.version
  {
  }

  // ----- The epoch of a request -----

  /** The epoch that step `n` gives to its request: the store's, or 0 if it cannot be read. */
  ghost predicate ReadsEpoch(states: seq<State>, events: seq<Event>, n: nat, i: nat, epoch: nat) {
    && n < |events| && |states| == |events| + 1
    && ((events[n] == Act(i, ReadEpoch(Ok)) && epoch == states[n].epoch)
        || (epoch == 0 && (events[n] == Act(i, ReadEpoch(Error)) || events[n] == Act(i, ReadEpoch(ErrorAfterEffect))))
        || (epoch == 0 && events[n] == Act(i, SkipEpoch)
            && i in states[n].requests && states[n].requests[i].client in states[n].offline))
  }

  lemma EpochStep(s: State, r: Request, a: Action)
    requires CanAct(s, r, a)
    ensures var p := NextPhase(s, r, a);
            HasEpoch(p) ==>
              if HasEpoch(r.phase) then p.epoch == r.phase.epoch
              else (a == ReadEpoch(Ok) && p.epoch == s.epoch) ||
                   (p.epoch == 0 && ((a.ReadEpoch? && a.reply != Ok) || (a.SkipEpoch? && r.client in s.offline)))
  {
  }

  /** A request works under the one epoch that it read at its start, whatever becomes of the store's epoch; if it
      could not read one, or its process had given the cache up, under 0. */
  lemma {:induction false} EpochIsReadOnce(states: seq<State>, events: seq<Event>, j: nat, i: nat) returns (n: nat)
    requires IsRun(states, events) && j < |states|
    requires i in states[j].requests && HasEpoch(states[j].requests[i].phase)
    ensures n < j && ReadsEpoch(states, events, n, i, states[j].requests[i].phase.epoch)
  {
    if j == 0 { NothingAtFirst(states, events); }
    n := j - 1;
    if i !in states[n].requests {
      NewRequestEnters(states, events, n, i);
    } else {
      StepKeepsRequest(states, events, n, i);
      if events[n].Act? && events[n].i == i {
        StepIsAct(states, events, n, i);
        EpochStep(states[n], states[n].requests[i], events[n].action);
      }
      if HasEpoch(states[n].requests[i].phase) { n := EpochIsReadOnce(states, events, n, i); }
      hide CanAct, NextPhase, IsRun;
    }
  }

  // ----- Who gives the cache up -----

  /** Step `n` is a store operation of process `c` that the store reports as failed: a read of the epoch, the first
      read, taking the lock, storing, or a bump. */
  ghost predicate FailsFor(states: seq<State>, events: seq<Event>, n: nat, c: nat) {
    && n < |events| < |states|
    && match events[n]
       case Act(i, ReadEpoch(reply)) => i in states[n].requests && states[n].requests[i].client == c && reply != Ok
       case Act(i, FirstGet(_, reply)) => i in states[n].requests && states[n].requests[i].client == c && reply != Ok
       case Act(i, TryLock(reply)) => i in states[n].requests && states[n].requests[i].client == c && reply != Ok
       case Act(i, Store(reply)) => i in states[n].requests && states[n].requests[i].client == c && reply != Ok
       case Bump(w, reply) => w in states[n].writers && states[n].writers[w].client == c && reply != Ok
       case _ => false
  }

  lemma OfflineStep(states: seq<State>, events: seq<Event>, n: nat, c: nat)
    requires IsRun(states, events) && n < |events|
    ensures c in states[n + 1].offline <==> c in states[n].offline || FailsFor(states, events, n, c)
  {
    hide NextPhase, StoreAfter, LocksAfter, IssuedAfter;
  }

  /** A process gives the cache up if and only if one of its own store operations failed, and then for good. */
  lemma {:induction false} OfflineExactlyAfterFailure(states: seq<State>, events: seq<Event>, j: nat, c: nat)
    requires IsRun(states, events) && j < |states|
    ensures c in states[j].offline <==> exists n :: 0 <= n < j && FailsFor(states, events, n, c)
  {
    if j > 0 {
      OfflineExactlyAfterFailure(states, events, j - 1, c);
      OfflineStep(states, events, j - 1, c);
    }
    hide FailsFor, IsRun;
  }

  // ----- What makes a request fail -----

  /** Request `i` failed of its own: its computation failed, or it was cancelled while it waited. */
  ghost predicate GaveUp(events: seq<Event>, j: nat, i: nat) {
    exists n :: 0 <= n < j && n < |events| && (events[n] == Act(i, ComputeError) || events[n] == Act(i, Cancel))
  }

  lemma FailureStep(s: State, r: Request, a: Action)
    requires CanAct(s, r, a)
    ensures var p := NextPhase(s, r, a);
            (p.Failed? || (p.Releasing? && p.outcome.None?)) ==>
              a.ComputeError? || a.Cancel? || (r.phase.Releasing? && r.phase.outcome.None?)
  {
  }

  /** No failure of the store, of the lock or of another request makes a request fail. */
  lemma {:induction false} FailsOnlyByItself(states: seq<State>, events: seq<Event>, j: nat, i: nat)
    requires IsRun(states, events) && j < |states| && i in states[j].requests
    ensures var p := states[j].requests[i].phase;
            p.Failed? || (p.Releasing? && p.outcome.None?) ==> GaveUp(events, j, i)
  {
    if j == 0 {
      NothingAtFirst(states, events);
    } else {
      var n := j - 1;
      if i !in states[n].requests {
        NewRequestEnters(states, events, n, i);
      } else {
        FailsOnlyByItself(states, events, n, i);
        StepKeepsRequest(states, events, n, i);
        if events[n].Act? && events[n].i == i {
          StepIsAct(states, events, n, i);
          FailureStep(states[n], states[n].requests[i], events[n].action);
        }
        hide CanAct, NextPhase, IsRun;
      }
    }
  }

  // ----- Locks -----

  /** The store misled request `i`: it took the lock for it and reported an error, or failed to release it. */
  ghost predicate Misled(events: seq<Event>, j: nat, i: nat) {
    exists n :: 0 <= n < j && n < |events| &&
      (events[n] == Act(i, TryLock(ErrorAfterEffect)) || events[n] == Act(i, Release(Error)))
  }

  /** `i` holds the lock on `k`, and is between taking it and releasing it. */
  ghost predicate IsInUse(s: State, k: Key, i: nat) {
    i in s.requests && Holding(s.requests[i]) && KeyOf(s.requests[i]) == k
  }

  lemma LockStep(s: State, i: nat, a: Action, k: Key)
    requires i in s.requests && CanAct(s, s.requests[i], a) && k in AfterAct(s, i, a).locks
    ensures var t, holder := AfterAct(s, i, a), AfterAct(s, i, a).locks[k];
            if holder == i then
              || IsInUse(t, k, i) || a == TryLock(ErrorAfterEffect) || a == Release(Error)
              || (k in s.locks && s.locks[k] == i && !IsInUse(s, k, i))
            else k in s.locks && s.locks[k] == holder && (IsInUse(s, k, holder) ==> IsInUse(t, k, holder))
  {
    hide StoreAfter, OfflineAfter, IssuedAfter;
  }

  /** A lock in the store is in use by its holder, unless the store misled that request; so no outcome of a
      computation and no failed store leaves a lock behind. */
  lemma {:induction false} LocksAreInUse(states: seq<State>, events: seq<Event>, j: nat, k: Key)
    requires IsRun(states, events) && j < |states| && k in states[j].locks
    ensures IsInUse(states[j], k, states[j].locks[k]) || Misled(events, j, states[j].locks[k])
  {
    if j > 0 {
      var n := j - 1;
      var s, e := states[n], events[n];
      if e.Act? {
        StepIsAct(states, events, n, e.i);
        LockStep(s, e.i, e.action, k);
      }
      if k in s.locks { LocksAreInUse(states, events, n, k); }
      hide CanAct, NextPhase, AfterAct;
    }
  }
}
