/** When can a reader miss a write that no bump has published?  For every state, exactly when something of
    the current epoch is older than the write and still able to reach a reader. */
module CacheGaps {
  import opened Common
  import opened CatalogCache

  // ----- What may happen from a state on -----

  predicate CanRun(s: State, events: seq<Event>)
    decreases |events|
  {
    events == [] || (Enabled(s, events[0]) && CanRun(Apply(s, events[0]), events[1..]))
  }

  function After(s: State, events: seq<Event>): State
    requires CanRun(s, events)
    decreases |events|
  {
    if events == [] then s else After(Apply(s, events[0]), events[1..])
  }

  /** Request `i` arrives after `s`, from `client`, and is answered with data older than `v`. */
  ghost predicate IsLate(s: State, events: seq<Event>, i: nat, client: nat, v: nat) {
    CanRun(s, events) && i !in s.requests && i in After(s, events).requests &&
    var r := After(s, events).requests[i];
    r.client == client && Answer(r.phase).Some? && Answer(r.phase).value < v
  }

  /** So is a request that names the tags it asks for, or sends none. */
  ghost predicate IsStale(s: State, events: seq<Event>, i: nat, client: nat, v: nat) {
    IsLate(s, events, i, client, v) && !After(s, events).requests[i].header.Any?
  }

  ghost predicate StalePossible(s: State, client: nat, v: nat) {
    exists events, i :: IsStale(s, events, i, client, v)
  }

  /** So is a request with `*` from a browser that holds these copies. */
  ghost predicate IsStarStale(s: State, events: seq<Event>, i: nat, client: nat, held: set<Copy>, v: nat) {
    IsLate(s, events, i, client, v) &&
    After(s, events).requests[i].header.Any? && After(s, events).requests[i].held == held
  }

  ghost predicate StarStalePossible(s: State, client: nat, held: set<Copy>, v: nat) {
    exists events, i :: IsStarStale(s, events, i, client, held, v)
  }

  // ----- What is left of the current epoch -----

  /** A request that carries a payload below `v`, or may still compute one. */
  predicate Carries(p: Phase, epoch: nat, v: nat) {
    match p
    case Computing(e, since, _) => e == epoch && since < v
    case Storing(e, x) => e == epoch && x < v
    case Releasing(e, outcome) => e == epoch && outcome.Some? && outcome.value < v
    case _ => false
  }

  ghost predicate OldCopy(s: State, v: nat) { exists c :: c in s.issued && c.etag.epoch == s.epoch && c.version < v }

  ghost predicate OldEntry(s: State, v: nat) { exists k :: k in s.store && k.epoch == s.epoch && s.store[k] < v }

  ghost predicate OldRequest(s: State, v: nat) {
    exists i :: i in s.requests && Carries(s.requests[i].phase, s.epoch, v)
  }

  /** A response a browser holds, an entry of the store, or a request under way. */
  ghost predicate Leftover(s: State, v: nat) { OldCopy(s, v) || OldEntry(s, v) || OldRequest(s, v) }

  // ----- Without a leftover no reader is late -----

  predicate CarriesLater(p: Phase, epoch: nat, v: nat) {
    match p
    case Computing(e, since, _) => e >= epoch ==> v <= since
    case Storing(e, x) => e >= epoch ==> v <= x
    case Releasing(e, outcome) => e >= epoch && outcome.Some? ==> v <= outcome.value
    case _ => true
  }

  /** Nothing of an epoch from `epoch` on is older than `v`. */
  ghost predicate Clean(s: State, epoch: nat, v: nat) {
    && epoch <= s.epoch && v <= s.version
    && (forall c :: c in s.issued && c.etag.epoch >= epoch ==> v <= c.version)
    && (forall k :: k in s.store && k.epoch >= epoch ==> v <= s.store[k])
    && (forall i :: i in s.requests ==> CarriesLater(s.requests[i].phase, epoch, v))
  }

  /** A request that arrived in a clean state answers with `v` or later. */
  ghost predicate OnTime(s: State, r: Request, epoch: nat, v: nat) {
    && !r.header.Any? && (forall c :: c in r.held && c.etag.epoch >= epoch ==> v <= c.version)
    && match r.phase
       case Keyed(e) => r.client in s.offline || e >= epoch
       case Choosing(e) => r.client in s.offline || e >= epoch
       case Looking(e) => e >= epoch
       case Locking(e) => e >= epoch
       case Peeking(e) => e >= epoch
       case Waiting(e) => e >= epoch
       case Computing(_, since, _) => v <= since
       case Storing(_, x) => v <= x
       case Releasing(_, outcome) => outcome.Some? ==> v <= outcome.value
       case Served(_, x) => v <= x
       case NotModified(shown) => shown.Some? ==> v <= shown.value
       case _ => true
  }

  lemma NextPhaseClean(s: State, i: nat, a: Action, epoch: nat, v: nat)
    requires Clean(s, epoch, v) && i in s.requests && CanAct(s, s.requests[i], a)
    ensures CarriesLater(NextPhase(s, s.requests[i], a), epoch, v)
    ensures var p := NextPhase(s, s.requests[i], a);
            p.Served? && !s.requests[i].phase.Served? && p.epoch >= epoch ==> v <= p.version
  {
    assert CarriesLater(s.requests[i].phase, epoch, v);
  }

  lemma NextPhaseOnTime(s: State, i: nat, a: Action, epoch: nat, v: nat)
    requires Clean(s, epoch, v) && i in s.requests && CanAct(s, s.requests[i], a) && OnTime(s, s.requests[i], epoch, v)
    ensures OnTime(AfterAct(s, i, a), AfterAct(s, i, a).requests[i], epoch, v)
  {
    hide StoreAfter, LocksAfter, IssuedAfter;
  }

  lemma ActKeepsClean(s: State, i: nat, a: Action, epoch: nat, v: nat)
    requires Clean(s, epoch, v) && i in s.requests && CanAct(s, s.requests[i], a)
    ensures Clean(AfterAct(s, i, a), epoch, v)
  {
    NextPhaseClean(s, i, a, epoch, v);
    hide NextPhase, LocksAfter, OfflineAfter;
    assert CarriesLater(s.requests[i].phase, epoch, v);
  }

  lemma StepKeepsClean(s: State, e: Event, epoch: nat, v: nat)
    requires Clean(s, epoch, v) && Enabled(s, e)
    ensures Clean(Apply(s, e), epoch, v)
  {
    hide CanAct, AfterAct;
    if e.Act? { ActKeepsClean(s, e.i, e.action, epoch, v); }
  }

  lemma StepKeepsOnTime(s: State, e: Event, i: nat, epoch: nat, v: nat)
    requires Clean(s, epoch, v) && Enabled(s, e) && i in s.requests && OnTime(s, s.requests[i], epoch, v)
    ensures i in Apply(s, e).requests && OnTime(Apply(s, e), Apply(s, e).requests[i], epoch, v)
    ensures Apply(s, e).requests[i].client == s.requests[i].client
  {
    hide CanAct, NextPhase, StoreAfter, LocksAfter, IssuedAfter;
    if e.Act? && e.i == i { NextPhaseOnTime(s, i, e.action, epoch, v); }
  }

  /** From a clean state on, every request that arrives without `*` is on time, in every continuation. */
  lemma {:induction false} CleanStaysOnTime(s: State, events: seq<Event>, i: nat, epoch: nat, v: nat)
    requires Clean(s, epoch, v) && CanRun(s, events)
    requires i in s.requests && !s.requests[i].header.Any? ==> OnTime(s, s.requests[i], epoch, v)
    ensures var t := After(s, events); i in t.requests && !t.requests[i].header.Any? ==>
            OnTime(t, t.requests[i], epoch, v)
    decreases |events|
  {
    if events != [] {
      var e := events[0];
      StepKeepsClean(s, e, epoch, v);
      if i in s.requests {
        RequestStays(s, e, i);
        if !s.requests[i].header.Any? { StepKeepsOnTime(s, e, i, epoch, v); }
      }
      assert i !in s.requests && i in Apply(s, e).requests && !Apply(s, e).requests[i].header.Any? ==>
               OnTime(Apply(s, e), Apply(s, e).requests[i], epoch, v);
      hide Clean, OnTime, Apply, Enabled;
      CleanStaysOnTime(Apply(s, e), events[1..], i, epoch, v);
    }
  }

  // ----- With a leftover some reader is late -----

  lemma {:induction false} FreshId(ids: set<nat>) returns (i: nat)
    ensures i !in ids && forall k :: k in ids ==> k < i
  {
    if k :| k in ids {
      i := FreshId(ids - {k});
      assert forall x :: x in ids ==> x == k || x in ids - {k};
      i := if i > k then i else k + 1;
    } else {
      i := 0;
    }
  }

  lemma {:induction false} RunOn(s: State, events: seq<Event>, more: seq<Event>)
    requires CanRun(s, events) && CanRun(After(s, events), more)
    ensures CanRun(s, events + more) && After(s, events + more) == After(After(s, events), more)
    decreases |events|
  {
    if events == [] {
      assert events + more == more;
    } else {
      RunOn(Apply(s, events[0]), events[1..], more);
      assert (events + more)[1..] == events[1..] + more;
    }
  }

  /** One more step at the end of a run. */
  lemma Then(s: State, events: seq<Event>, e: Event) returns (more: seq<Event>)
    requires CanRun(s, events) && Enabled(After(s, events), e)
    ensures more == events + [e] && CanRun(s, more) && After(s, more) == Apply(After(s, events), e)
  {
    more := events + [e];
    assert [e][1..] == [];
    assert CanRun(Apply(After(s, events), e), []);
    RunOn(s, events, [e]);
  }

  /** A later state of the same epoch in which a reader can be late. */
  lemma EarlierToo(s: State, events: seq<Event>, client: nat, v: nat)
    requires CanRun(s, events) && s.requests.Keys <= After(s, events).requests.Keys
    requires StalePossible(After(s, events), client, v)
    ensures StalePossible(s, client, v)
  {
    var t := After(s, events);
    var more, i :| IsStale(t, more, i, client, v);
    RunOn(s, events, more);
    assert IsStale(s, events + more, i, client, v);
  }

  /** A new request of a process that uses the cache has read the epoch. */
  lemma Reader(s: State, client: nat, shape: nat, header: Header, held: set<Copy>) returns (events: seq<Event>, i: nat)
    requires held <= s.issued
    ensures i !in s.requests && CanRun(s, events)
    ensures After(s, events) == s.(requests := s.requests[i := Request(client, shape, header, held, Keyed(s.epoch))])
  {
    i := FreshId(s.requests.Keys);
    var r := Request(client, shape, header, held, Entering);
    events := Then(s, [], Arrive(i, client, shape, header, held));
    assert After(s, events) == s.(requests := s.requests[i := r]);
    events := Then(s, events, Act(i, ReadEpoch(Ok)));
  }

  /** Asked for the tag of an old copy, it answers 304. */
  lemma CopyIsLate(s: State, client: nat, v: nat, copy: Copy)
    requires client !in s.offline && copy in s.issued && copy.etag.epoch == s.epoch && copy.version < v
    ensures StalePossible(s, client, v)
  {
    hide CanRun, After;
    var events, i := Reader(s, client, copy.etag.shape, Tags({copy.etag}), {copy});
    events := Then(s, events, Act(i, Condition(Some(copy))));
    assert IsStale(s, events, i, client, v);
  }

  /** It is about to look its key up. */
  lemma Looker(s: State, client: nat, shape: nat) returns (events: seq<Event>, i: nat)
    requires client !in s.offline
    ensures i !in s.requests && CanRun(s, events)
    ensures After(s, events) == s.(requests := s.requests[i := Request(client, shape, Absent, {}, Looking(s.epoch))])
  {
    hide CanRun, After;
    events, i := Reader(s, client, shape, Absent, {});
    var r := Request(client, shape, Absent, {}, Entering);
    events := Then(s, events, Act(i, Condition(None)));
    assert After(s, events) == s.(requests := s.requests[i := r.(phase := Choosing(s.epoch))]);
    events := Then(s, events, Act(i, Enter));
  }

  /** Asked for the key of an old entry, it serves the entry. */
  lemma EntryIsLate(s: State, client: nat, v: nat, k: Key)
    requires client !in s.offline && k in s.store && k.epoch == s.epoch && s.store[k] < v
    ensures StalePossible(s, client, v)
  {
    hide CanRun, After;
    var events, i := Looker(s, client, k.shape);
    events := Then(s, events, Act(i, FirstGet(true, Ok)));
    assert IsStale(s, events, i, client, v);
  }

  /** One step of a request, seen as a run. */
  lemma ActFirst(s: State, i: nat, a: Action, client: nat, v: nat)
    requires i in s.requests && CanAct(s, s.requests[i], a) && StalePossible(AfterAct(s, i, a), client, v)
    ensures StalePossible(s, client, v)
  {
    var events := Then(s, [], Act(i, a));
    EarlierToo(s, events, client, v);
  }

  /** A request under way turns what it carries into a copy or an entry. */
  lemma RequestIsLate(s: State, client: nat, v: nat, i: nat)
    requires client !in s.offline && i in s.requests && Carries(s.requests[i].phase, s.epoch, v) && v <= s.version
    ensures StalePossible(s, client, v)
    decreases if s.requests[i].phase.Computing? then 1 else 0
  {
    var r := s.requests[i];
    match r.phase {
      case Computing(e, since, locked) =>
        var t := AfterAct(s, i, Computed(since));
        if locked {
          RequestIsLate(t, client, v, i);
        } else {
          CopyIsLate(t, client, v, Copy(Key(e, r.shape), since));
        }
        ActFirst(s, i, Computed(since), client, v);
      case Storing(e, x) =>
        EntryIsLate(AfterAct(s, i, Store(Ok)), client, v, Key(e, r.shape));
        ActFirst(s, i, Store(Ok), client, v);
      case Releasing(e, outcome) =>
        CopyIsLate(AfterAct(s, i, Release(Ok)), client, v, Copy(Key(e, r.shape), outcome.value));
        ActFirst(s, i, Release(Ok), client, v);
    }
  }

  // ----- The promise and its exact condition -----

  /** For every state, every process and every version that has been committed: a request of the process
      that arrives from now on, without `*`, can be answered with older data if and only if the process still
      uses the cache and something of the current epoch is left that is older - a response some browser
      holds, an entry of the store, or a request under way. */
  lemma StaleExactlyWhen(s: State, client: nat, v: nat)
    requires Inv(s) && v <= s.version
    ensures StalePossible(s, client, v) <==> client !in s.offline && Leftover(s, v)
  {
    if client !in s.offline && Leftover(s, v) {
      if OldCopy(s, v) {
        var c :| c in s.issued && c.etag.epoch == s.epoch && c.version < v;
        CopyIsLate(s, client, v, c);
      } else if OldEntry(s, v) {
        var k :| k in s.store && k.epoch == s.epoch && s.store[k] < v;
        EntryIsLate(s, client, v, k);
      } else {
        var i :| i in s.requests && Carries(s.requests[i].phase, s.epoch, v);
        RequestIsLate(s, client, v, i);
      }
    } else {
      forall events, i ensures !IsStale(s, events, i, client, v) {
        if client in s.offline { OfflineIsOnTime(s, events, i, client, v); }
          else { NoLeftoverIsOnTime(s, events, i, client, v); }
      }
    }
  }

  lemma NoLeftoverIsOnTime(s: State, events: seq<Event>, i: nat, client: nat, v: nat)
    requires Inv(s) && v <= s.version && !Leftover(s, v)
    ensures !IsStale(s, events, i, client, v)
  {
    assert Clean(s, s.epoch, v) by {
      forall j | j in s.requests ensures CarriesLater(s.requests[j].phase, s.epoch, v) {
        assert RequestOk(s, s.requests[j]) && !Carries(s.requests[j].phase, s.epoch, v);
      }
    }
    if CanRun(s, events) && i !in s.requests { CleanStaysOnTime(s, events, i, s.epoch, v); }
  }

  /** A process that gave the cache up computes every answer after the request arrived. */
  lemma OfflineIsOnTime(s: State, events: seq<Event>, i: nat, client: nat, v: nat)
    requires Inv(s) && v <= s.version && client in s.offline
    ensures !IsLate(s, events, i, client, v)
  {
    if CanRun(s, events) && i !in s.requests { ArrivalsAreFresh(s, events, i, client, v, true); }
  }

  /** A request of `client` that no `*` can harm: it trusts no older copy, or the process had given the cache up. */
  predicate IsSafe(r: Request, client: nat, v: nat, gone: bool) { r.client == client && (gone || Trusts(r, v)) }

  lemma {:induction false} ArrivalsAreFresh(s: State, events: seq<Event>, i: nat, client: nat, v: nat, gone: bool)
    requires Inv(s) && CanRun(s, events) && Visible(s, client, v) && (gone ==> client in s.offline)
    requires i in s.requests && IsSafe(s.requests[i], client, v, gone) ==> FreshFor(s, i, v)
    ensures var t := After(s, events);
            i in t.requests && IsSafe(t.requests[i], client, v, gone) ==> Inv(t) && FreshFor(t, i, v)
    decreases |events|
  {
    if events != [] {
      hide Inv, FreshFor, Apply, Enabled, Visible, IsSafe;
      ArrivalStep(s, events[0], i, client, v, gone);
      ArrivalsAreFresh(Apply(s, events[0]), events[1..], i, client, v, gone);
    }
  }

  lemma ArrivalStep(s: State, e: Event, i: nat, client: nat, v: nat, gone: bool)
    requires Inv(s) && Enabled(s, e) && Visible(s, client, v) && (gone ==> client in s.offline)
    requires i in s.requests && IsSafe(s.requests[i], client, v, gone) ==> FreshFor(s, i, v)
    ensures var t := Apply(s, e);
            && Inv(t) && Visible(t, client, v) && (gone ==> client in t.offline)
            && (i in t.requests && IsSafe(t.requests[i], client, v, gone) ==> FreshFor(t, i, v))
  {
    hide CanAct, NextPhase, StoreAfter, LocksAfter, IssuedAfter, RequestOk, WriterOk, Trusts;
    var t := Apply(s, e);
    StepKeepsInv(s, e);
    StepIsLater(s, e);
    if i in s.requests {
      RequestStays(s, e, i);
      TrustStays(s.requests[i], t.requests[i], v);
      if IsSafe(s.requests[i], client, v, gone) { StepKeepsFresh(s, e, i, v); }
    }
  }

  // ----- Requests with `*` -----

  /** A request with `*` looks nothing up: it is answered 304, or its process has given the cache up. */
  ghost predicate StarOnTime(s: State, r: Request, v: nat) {
    v <= s.version && r.header.Any? && Trusts(r, v) &&
    match r.phase
    case Entering => true
    case Keyed(_) => true
    case Choosing(_) => r.client in s.offline
    case Computing(_, since, _) => v <= since
    case Storing(_, x) => v <= x
    case Releasing(_, outcome) => outcome.Some? ==> v <= outcome.value
    case Served(_, x) => v <= x
    case NotModified(shown) => shown.Some? ==> v <= shown.value
    case Failed => true
    case _ => false
  }

  lemma StepKeepsStarOnTime(s: State, e: Event, i: nat, v: nat)
    requires Enabled(s, e) && i in s.requests && StarOnTime(s, s.requests[i], v)
    ensures i in Apply(s, e).requests && StarOnTime(Apply(s, e), Apply(s, e).requests[i], v)
  {
    hide StoreAfter, LocksAfter, IssuedAfter, Trusts;
    if e.Act? && e.i == i { StarActs(s, i, e.action, v); } else { hide CanAct, NextPhase; }
  }

  lemma StarActs(s: State, i: nat, a: Action, v: nat)
    requires i in s.requests && CanAct(s, s.requests[i], a) && StarOnTime(s, s.requests[i], v)
    ensures StarOnTime(AfterAct(s, i, a), AfterAct(s, i, a).requests[i], v)
  {
    hide StoreAfter, LocksAfter, IssuedAfter;
  }

  lemma {:induction false} StarStaysOnTime(s: State, events: seq<Event>, i: nat, v: nat)
    requires v <= s.version && CanRun(s, events)
    requires i in s.requests && s.requests[i].header.Any? && Trusts(s.requests[i], v) ==>
             StarOnTime(s, s.requests[i], v)
    ensures var t := After(s, events);
            i in t.requests && t.requests[i].header.Any? && Trusts(t.requests[i], v) ==> StarOnTime(t, t.requests[i], v)
    decreases |events|
  {
    if events != [] {
      var e, t := events[0], Apply(s, events[0]);
      if i in s.requests {
        RequestStays(s, e, i);
        if s.requests[i].header.Any? && Trusts(s.requests[i], v) { StepKeepsStarOnTime(s, e, i, v); }
      }
      assert s.version <= t.version && (i !in s.requests && i in t.requests ==> t.requests[i].phase.Entering?) by {
        hide CanAct, AfterBump, NextPhase;
      }
      hide StarOnTime, Apply, Enabled, Trusts;
      StarStaysOnTime(t, events[1..], i, v);
    }
  }

  /** A request that arrives with `*` from a browser that holds some copies can be answered with data older
      than `v` if and only if its process still uses the cache and one of the copies is older: whatever the
      epoch, and however the writes were published. */
  lemma StarIsStaleExactlyWhen(s: State, client: nat, held: set<Copy>, v: nat)
    requires Inv(s) && v <= s.version && held <= s.issued
    ensures StarStalePossible(s, client, held, v) <==> client !in s.offline && exists c :: c in held && c.version < v
  {
    if client in s.offline {
      forall events, i ensures !IsStarStale(s, events, i, client, held, v) { OfflineIsOnTime(s, events, i, client, v); }
    } else if c :| c in held && c.version < v {
      StarIsLate(s, client, held, v, c);
    } else {
      forall events, i ensures !IsStarStale(s, events, i, client, held, v) {
        if CanRun(s, events) && i !in s.requests { StarStaysOnTime(s, events, i, v); }
      }
    }
  }

  lemma StarIsLate(s: State, client: nat, held: set<Copy>, v: nat, copy: Copy)
    requires client !in s.offline && held <= s.issued && copy in held && copy.version < v
    ensures StarStalePossible(s, client, held, v)
  {
    hide CanRun, After;
    var events, i := Reader(s, client, 0, Any, held);
    events := Then(s, events, Act(i, Condition(Some(copy))));
    assert IsStarStale(s, events, i, client, held, v);
  }

  // ----- Finished writes -----

  /** A finished write can be missed by a process exactly when the process still uses the cache and something
      older is left of the current epoch; so never when its bump was published, nor by its own process.  A
      request with `*` misses it exactly when its process uses the cache and its browser holds an older copy,
      published or not. */
  lemma WriteIsMissedExactlyWhen(s: State, w: nat, client: nat, held: set<Copy>)
    requires Inv(s) && w in s.writers && s.writers[w].phase.Finished? && held <= s.issued
    ensures var wr := s.writers[w];
            && (StalePossible(s, client, wr.version) <==> client !in s.offline && Leftover(s, wr.version))
            && (wr.phase.published || client == wr.client ==> !StalePossible(s, client, wr.version))
            && (StarStalePossible(s, client, held, wr.version) <==>
                  client !in s.offline && exists c :: c in held && c.version < wr.version)
  {
    var wr := s.writers[w];
    assert WriterOk(s, wr);
    StaleExactlyWhen(s, client, wr.version);
    StarIsStaleExactlyWhen(s, client, held, wr.version);
    if wr.version <= s.began[s.epoch] { CurrentIsNoLeftover(s, wr.version); }
  }

  /** The current epoch began after the write. */
  lemma CurrentIsNoLeftover(s: State, v: nat)
    requires Inv(s) && v <= s.began[s.epoch]
    ensures !Leftover(s, v)
  {
    forall i | i in s.requests ensures !Carries(s.requests[i].phase, s.epoch, v) { assert RequestOk(s, s.requests[i]); }
  }

  /** A write whose INCR fails, or, in a process that has given the cache up, is not even tried. */
  function Unpublished(s: State, w: nat, writer: nat): State
    requires w !in s.writers
  {
    var t := Apply(Apply(s, Commit(w, writer)), BeginBump(w));
    if writer in s.offline then t else Apply(t, Bump(w, Error))
  }

  /** The database moves on and the epoch stays: such a write can be missed by exactly the other processes
      that use the cache, and exactly when anything older is left of the epoch; by a request with `*` exactly
      when its browser holds any copy at all. */
  lemma UnpublishedWriteIsMissed(s: State, w: nat, writer: nat, client: nat, held: set<Copy>)
    requires Inv(s) && w !in s.writers && held <= s.issued
    ensures var t := Unpublished(s, w, writer);
            && t.epoch == s.epoch && t.version == s.version + 1 &&
               t.writers[w] == Writer(writer, t.version, Finished(false))
            && (StalePossible(t, client, t.version) <==>
                  client != writer && client !in s.offline && Leftover(s, t.version))
            && (StarStalePossible(t, client, held, t.version) <==>
                client != writer && client !in s.offline && held != {})
  {
    hide Inv, CanAct, AfterAct, Unpublished;
    var t := Unpublished(s, w, writer);
    UnpublishedHolds(s, w, writer);
    CopiesAreOlder(s, held);
    StaleExactlyWhen(t, client, t.version);
    StarIsStaleExactlyWhen(t, client, held, t.version);
  }

  lemma UnpublishedHolds(s: State, w: nat, writer: nat)
    requires Inv(s) && w !in s.writers
    ensures var t := Unpublished(s, w, writer);
            && Inv(t) && t.offline == s.offline + {writer} &&
               t.writers == s.writers[w := Writer(writer, s.version + 1, Finished(false))]
            && t == s.(version := s.version + 1, offline := t.offline, writers := t.writers)
  {
    hide Inv, CanAct, AfterAct;
    var a := Apply(s, Commit(w, writer));
    StepKeepsInv(s, Commit(w, writer));
    StepKeepsInv(a, BeginBump(w));
    if writer !in s.offline { StepKeepsInv(Apply(a, BeginBump(w)), Bump(w, Error)); }
  }

  lemma CopiesAreOlder(s: State, held: set<Copy>)
    requires Inv(s) && held <= s.issued
    ensures forall c :: c in held ==> c.version <= s.version
  {
    forall c | c in held ensures c.version <= s.version { assert Current(s, c.etag.epoch, c.version); }
  }
}
