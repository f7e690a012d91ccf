/** Where the catalog cache's payloads come from: every entry, and every answer, was computed for its own key. */
module CacheEntries {
  import opened Common
  import opened CatalogCache

  /** Step `n` of the run is request `i` doing `a`. */
  ghost predicate Does(states: seq<State>, events: seq<Event>, n: nat, i: nat, a: Action) {
    n < |events| && |states| == |events| + 1 && events[n] == Act(i, a) && i in states[n].requests
  }

  /** Step `n` is request `i`, whose own epoch and shape are `k`, computing version `v`. */
  ghost predicate Computes(states: seq<State>, events: seq<Event>, n: nat, i: nat, k: Key, v: nat) {
    && Does(states, events, n, i, Computed(v))
    && var r := states[n].requests[i]; r.phase.Computing? && r.phase.epoch == k.epoch && r.shape == k.shape
  }

  /** Step `n` is request `i`, whose own epoch and shape are `k`, storing version `v`, with success as far as the
      store is concerned. */
  ghost predicate Stores(states: seq<State>, events: seq<Event>, n: nat, i: nat, k: Key, v: nat) {
    && n < |events| && |states| == |events| + 1 && events[n].Act? && events[n].i == i && i in states[n].requests
    && events[n].action.Store? && events[n].action.reply != Error
    && var r := states[n].requests[i]; r.phase == Storing(k.epoch, v) && r.shape == k.shape
  }

  // ----- What a request holds, it computed itself -----

  /** The version that a request is about to store, or to answer with after it stored it. */
  function Carried(p: Phase): Option<nat> {
    match p
    case Storing(_, v) => Some(v)
    case Releasing(_, outcome) => outcome
    case _ => None
  }

  lemma StepKeepsRequest(states: seq<State>, events: seq<Event>, n: nat, i: nat)
    requires IsRun(states, events) && n < |events| && i in states[n].requests
    ensures i in states[n + 1].requests
    ensures var r, r' := states[n].requests[i], states[n + 1].requests[i];
            r' == r.(phase := r'.phase) && (!(events[n].Act? && events[n].i == i) ==> r' == r)
  {
    hide CanAct, NextPhase;
  }

  lemma NothingAtFirst(states: seq<State>, events: seq<Event>)
    requires IsRun(states, events)
    ensures states[0].requests == map[] && states[0].store == map[] && states[0].issued == {}
  {}

  /** A request arrives with nothing in its hands. */
  lemma NewRequestEnters(states: seq<State>, events: seq<Event>, n: nat, i: nat)
    requires IsRun(states, events) && n < |events| && i !in states[n].requests && i in states[n + 1].requests
    ensures states[n + 1].requests[i].phase.Entering?
  {
    hide CanAct, NextPhase;
  }

  lemma CarriedStep(s: State, r: Request, a: Action)
    requires CanAct(s, r, a)
    ensures var p := NextPhase(s, r, a);
            Carried(p).Some? ==>
              && HasEpoch(r.phase) && p.epoch == r.phase.epoch
              && (Carried(r.phase) == Carried(p) || (r.phase.Computing? && a == Computed(Carried(p).value)))
  {}

  lemma StepIsAct(states: seq<State>, events: seq<Event>, n: nat, i: nat)
    requires IsRun(states, events) && n < |events| && events[n].Act? && events[n].i == i
    ensures i in states[n].requests && CanAct(states[n], states[n].requests[i], events[n].action)
    ensures states[n + 1] == AfterAct(states[n], i, events[n].action)
  {
    hide CanAct, AfterAct;
  }

  /** In one step a request keeps what it carries, or computes it. */
  lemma CarriedMoves(states: seq<State>, events: seq<Event>, n: nat, i: nat)
    requires IsRun(states, events) && n < |events| && i in states[n].requests
    requires i in states[n + 1].requests && Carried(states[n + 1].requests[i].phase).Some?
    ensures var r, r' := states[n].requests[i], states[n + 1].requests[i];
            && HasEpoch(r.phase) && r'.phase.epoch == r.phase.epoch && r'.shape == r.shape
            && (Carried(r.phase) == Carried(r'.phase)
                || Computes(states, events, n, i, Key(r'.phase.epoch, r'.shape), Carried(r'.phase).value))
  {
    StepKeepsRequest(states, events, n, i);
    if events[n].Act? && events[n].i == i {
      StepIsAct(states, events, n, i);
      CarriedStep(states[n], states[n].requests[i], events[n].action);
      hide CanAct, NextPhase, Enabled, Apply;
    }
  }

  /** A version that a request is about to store or release was computed by that very request, for its own key. */
  lemma {:induction false} CarriedWasComputed(states: seq<State>, events: seq<Event>, j: nat, i: nat) returns (n: nat)
    requires IsRun(states, events) && j < |states| && i in states[j].requests &&
             Carried(states[j].requests[i].phase).Some?
    ensures var r := states[j].requests[i];
            n < j && Computes(states, events, n, i, Key(r.phase.epoch, r.shape), Carried(r.phase).value)
  {
    hide CanAct, NextPhase, Enabled, Apply, Computes;
    NothingAtFirst(states, events);
    if i !in states[j - 1].requests {
      NewRequestEnters(states, events, j - 1, i);
    } else {
      CarriedMoves(states, events, j - 1, i);
      if Carried(states[j - 1].requests[i].phase) == Carried(states[j].requests[i].phase) {
        n := CarriedWasComputed(states, events, j - 1, i);
      } else {
        n := j - 1;
      }
    }
  }

  // ----- Entries -----

  /** Every entry stands under the key of the request that stored it, with the version it was storing. */
  lemma {:induction false} EntryWasStored(states: seq<State>, events: seq<Event>, j: nat, k: Key)
    returns (n: nat, i: nat)
    requires IsRun(states, events) && j < |states| && k in states[j].store
    ensures n < j && Stores(states, events, n, i, k, states[j].store[k])
  {
    hide Enabled, Apply, Stores;
    NothingAtFirst(states, events);
    if k in states[j - 1].store && states[j - 1].store[k] == states[j].store[k] {
      n, i := EntryWasStored(states, events, j - 1, k);
    } else {
      NewEntryIsStored(states, events, j - 1, k);
      n, i := j - 1, events[j - 1].i;
    }
  }

  lemma NewEntryIsStored(states: seq<State>, events: seq<Event>, n: nat, k: Key)
    requires IsRun(states, events) && n < |events| && k in states[n + 1].store
    requires k !in states[n].store || states[n].store[k] != states[n + 1].store[k]
    ensures events[n].Act? && Stores(states, events, n, events[n].i, k, states[n + 1].store[k])
  {
    hide NextPhase, LocksAfter, IssuedAfter;
  }

  /** So every entry was computed for its key: by an earlier request whose own epoch and shape are that key,
      which then stored it. */
  lemma EntryWasComputed(states: seq<State>, events: seq<Event>, j: nat, k: Key) returns (c: nat, n: nat, i: nat)
    requires IsRun(states, events) && j < |states| && k in states[j].store
    ensures c < n < j
    ensures Computes(states, events, c, i, k, states[j].store[k]) && Stores(states, events, n, i, k, states[j].store[k])
  {
    n, i := EntryWasStored(states, events, j, k);
    c := CarriedWasComputed(states, events, n, i);
  }

  // ----- Answers -----

  /** A request answers with what it carries, with what it computes, or with the entry under its own key. */
  lemma ServedStep(s: State, r: Request, a: Action)
    requires CanAct(s, r, a) && NextPhase(s, r, a).Served? && !r.phase.Served?
    ensures HasEpoch(r.phase) && NextPhase(s, r, a).epoch == r.phase.epoch
    ensures var v := NextPhase(s, r, a).version;
            || Carried(r.phase) == Some(v) || (r.phase.Computing? && a == Computed(v))
            || (KeyOf(r) in s.store && s.store[KeyOf(r)] == v && (a.FirstGet? || a.Peek? || a.Poll?))
  {}

  /** Every answer with a body was computed by a request of the same epoch and shape; an answer from the store
      was stored by it, too, before it was read. */
  lemma {:induction false} AnswerWasComputed(states: seq<State>, events: seq<Event>, j: nat, i: nat)
    returns (c: nat, author: nat)
    requires IsRun(states, events) && j < |states| && i in states[j].requests && states[j].requests[i].phase.Served?
    ensures var r := states[j].requests[i];
            c < j && Computes(states, events, c, author, Key(r.phase.epoch, r.shape), r.phase.version)
  {
    hide CanAct, NextPhase, Enabled, Apply, Computes, Stores;
    NothingAtFirst(states, events);
    if i !in states[j - 1].requests {
      NewRequestEnters(states, events, j - 1, i);
    } else {
      StepKeepsRequest(states, events, j - 1, i);
      if states[j - 1].requests[i] == states[j].requests[i] {
        c, author := AnswerWasComputed(states, events, j - 1, i);
      } else {
        c, author := FirstAnswer(states, events, j - 1, i);
      }
    }
  }

  lemma FirstAnswer(states: seq<State>, events: seq<Event>, n: nat, i: nat) returns (c: nat, author: nat)
    requires IsRun(states, events) && n < |events| && events[n].Act? && events[n].i == i
    requires i in states[n + 1].requests && states[n + 1].requests[i].phase.Served?
    ensures var r := states[n + 1].requests[i];
            c <= n && Computes(states, events, c, author, Key(r.phase.epoch, r.shape), r.phase.version)
  {
    StepIsAct(states, events, n, i);
    var r, a := states[n].requests[i], events[n].action;
    ServedIsFinal(states[n], r, a);
    ServedStep(states[n], r, a);
    hide CanAct, NextPhase, Enabled, Apply, StoreAfter, LocksAfter, IssuedAfter;
    if Carried(r.phase) == Some(states[n + 1].requests[i].phase.version) {
      c := CarriedWasComputed(states, events, n, i);
      author := i;
    } else if r.phase.Computing? {
      c, author := n, i;
    } else {
      var stored;
      c, stored, author := EntryWasComputed(states, events, n, KeyOf(r));
    }
  }

  lemma ServedIsFinal(s: State, r: Request, a: Action)
    requires CanAct(s, r, a)
    ensures !r.phase.Served?
  {}

  /** Every copy that a browser can hold was the answer to a request for the tag it came with. */
  lemma {:induction false} CopyWasComputed(states: seq<State>, events: seq<Event>, j: nat, copy: Copy)
    returns (c: nat, author: nat)
    requires IsRun(states, events) && j < |states| && copy in states[j].issued
    ensures c < j && Computes(states, events, c, author, copy.etag, copy.version)
  {
    hide CanAct, NextPhase, Enabled, Apply, Computes;
    NothingAtFirst(states, events);
    if copy in states[j - 1].issued {
      c, author := CopyWasComputed(states, events, j - 1, copy);
    } else {
      NewCopyIsAnswer(states, events, j - 1, copy);
      c, author := FirstAnswer(states, events, j - 1, events[j - 1].i);
    }
  }

  lemma NewCopyIsAnswer(states: seq<State>, events: seq<Event>, n: nat, copy: Copy)
    requires IsRun(states, events) && n < |events| && copy in states[n + 1].issued && copy !in states[n].issued
    ensures events[n].Act? && events[n].i in states[n + 1].requests
    ensures var r := states[n + 1].requests[events[n].i];
            r.phase.Served? && copy == Copy(Key(r.phase.epoch, r.shape), r.phase.version)
  {
    hide NextPhase, CanAct, StoreAfter, LocksAfter;
  }

  // ----- What is stored is found -----

  /** After a request has stored a version, and until the entry runs out or another request stores under the same
      key, every working read of that key finds the version: the first read when it is fresh, the lock loser's
      look when it is not, and a poll. */
  lemma StoredIsFound(states: seq<State>, events: seq<Event>, n: nat, author: nat, k: Key, v: nat, j: nat, i: nat)
    requires IsRun(states, events) && Stores(states, events, n, author, k, v) && n < j < |events|
    requires forall m :: n < m < j ==>
               events[m] != ExpireEntry(k) &&
               forall other, w :: !Stores(states, events, m, other, k, w)
    requires events[j].Act? && events[j].i == i && i in states[j].requests
    requires HasEpoch(states[j].requests[i].phase) && KeyOf(states[j].requests[i]) == k
    requires events[j].action in {FirstGet(true, Ok), Peek(Ok), Poll(true)}
    ensures i in states[j + 1].requests && states[j + 1].requests[i].phase == Served(k.epoch, v)
  {
    StepIsAct(states, events, n, author);
    EntryStays(states, events, n + 1, k, v, j);
    StepIsAct(states, events, j, i);
    hide Enabled, Apply, StoreAfter, LocksAfter, IssuedAfter, Stores;
  }

  lemma {:induction false} EntryStays(states: seq<State>, events: seq<Event>, a: nat, k: Key, v: nat, j: nat)
    requires IsRun(states, events) && a <= j < |states| && k in states[a].store && states[a].store[k] == v
    requires forall m :: a <= m < j ==>
               events[m] != ExpireEntry(k) && forall other, w :: !Stores(states, events, m, other, k, w)
    ensures k in states[j].store && states[j].store[k] == v
    decreases j - a
  {
    hide Enabled, Apply, Stores;
    if a < j {
      EntryOutlasts(states, events, a, k);
      EntryStays(states, events, a + 1, k, v, j);
    }
  }

  lemma EntryOutlasts(states: seq<State>, events: seq<Event>, n: nat, k: Key)
    requires IsRun(states, events) && n < |events| && k in states[n].store && events[n] != ExpireEntry(k)
    requires forall other, w :: !Stores(states, events, n, other, k, w)
    ensures k in states[n + 1].store && states[n + 1].store[k] == states[n].store[k]
  {
    if events[n].Act? {
      StepIsAct(states, events, n, events[n].i);
      if events[n].action.Store? && events[n].action.reply != Error {
        var r := states[n].requests[events[n].i];
        assert Stores(states, events, n, events[n].i, KeyOf(r), r.phase.version);
      }
    }
    hide NextPhase, LocksAfter, IssuedAfter;
  }
}
