/** The epoch-keyed catalog cache: cache-aside reads, writers that bump the epoch, and a store that
    several processes share.

    Every step below is one store operation, one database operation or one read of a process's
    passthrough flag; between two steps of a request or a writer any other step may happen.  The
    database is represented by the number of writes committed so far, a payload by the version it was
    read from, and a random lock token by the request that drew it. */
module CatalogCache {
  import opened Common

  /** A catalog key: the epoch it embeds and everything else (filter hash, limit, offset). */
  datatype Key = Key(epoch: nat, shape: nat)

  /** A response a browser kept: the ETag it came with and the version of its body. */
  datatype Copy = Copy(etag: Key, version: nat)

  /** The If-None-Match header: missing, `*`, or a list of tags. */
  datatype Header = Absent | Any | Tags(tags: set<Key>)

  datatype Phase =
    | Entering                             // admitted; the epoch is not read yet
    | Keyed(epoch: nat)                    // epoch read; If-None-Match is examined next
    | Choosing(epoch: nat)                 // about to enter GetOrCompute
    | Looking(epoch: nat)                  // first cache read
    | Locking(epoch: nat)                  // SET NX
    | Computing(epoch: nat, since: nat, locked: bool)
    | Storing(epoch: nat, version: nat)
    | Releasing(epoch: nat, outcome: Option<nat>)
    | Peeking(epoch: nat)                  // lock loser: any cached value will do
    | Waiting(epoch: nat)                  // lock loser: polling for a fresh value
    | Served(epoch: nat, version: nat)     // 200 with a body
    | NotModified(shown: Option<nat>)      // 304; the browser shows a copy of its own, if it holds one
    | Failed

  /** `held` are the copies that the browser can fall back on. */
  datatype Request = Request(client: nat, shape: nat, header: Header, held: set<Copy>, phase: Phase)

  datatype WriterPhase = Committed | Bumping | Finished(published: bool)

  datatype Writer = Writer(client: nat, version: nat, phase: WriterPhase)

  /** `began[e]` is the database version at the moment epoch `e` began; `offline` holds the processes
      whose passthrough flag is set; `issued` every (ETag, body) pair ever sent. */
  datatype State = State(
    version: nat,
    epoch: nat,
    began: seq<nat>,
    offline: set<nat>,
    store: map<Key, nat>,
    locks: map<Key, nat>,
    requests: map<nat, Request>,
    writers: map<nat, Writer>,
    issued: set<Copy>)

  datatype Reply = Ok | Error | ErrorAfterEffect

  /** What one request does in one step; replies, freshness and the copy shown on a 304 are the environment's choice. */
  datatype Action =
    | ReadEpoch(reply: Reply)
    | SkipEpoch
    | Condition(shown: Option<Copy>)
    | Enter
    | FirstGet(isFresh: bool, reply: Reply)
    | TryLock(reply: Reply)
    | Computed(version: nat)
    | ComputeError
    | Store(reply: Reply)
    | Release(reply: Reply)
    | Peek(reply: Reply)
    | Poll(isFresh: bool)
    | GiveUp
    | Cancel

  datatype Event =
    | Commit(w: nat, client: nat)
    | BeginBump(w: nat)
    | Bump(w: nat, reply: Reply)
    | Arrive(i: nat, client: nat, shape: nat, header: Header, held: set<Copy>)
    | Act(i: nat, action: Action)
    | ExpireEntry(key: Key)
    | ExpireLock(key: Key)

  // ----- The steps -----

  const INIT := State(0, 0, [0], {}, map[], map[], map[], map[], {})

  predicate HasEpoch(p: Phase) {
    !p.Entering? && !p.NotModified? && !p.Failed?
  }

  function KeyOf(r: Request): Key
    requires HasEpoch(r.phase)
  {
    Key(r.phase.epoch, r.shape)
  }

  /** requestETagMatches */
  predicate Matches(r: Request)
    requires r.phase.Keyed?
  {
    r.header.Any? || (r.header.Tags? && KeyOf(r) in r.header.tags)
  }

  /** The copies that a 304 tells the browser to use: any of its own after `*`, else those with the tag. */
  predicate IsConfirmed(r: Request, c: Copy)
    requires r.phase.Keyed?
  {
    c in r.held && (r.header.Any? || c.etag == KeyOf(r))
  }

  predicate CanAct(s: State, r: Request, a: Action) {
    match a
    case ReadEpoch(_) => r.phase.Entering?
    case SkipEpoch => r.phase.Entering? && r.client in s.offline
    case Condition(shown) => r.phase.Keyed? && (shown.Some? ==> IsConfirmed(r, shown.value))
    case Enter => r.phase.Choosing?
    case FirstGet(_, _) => r.phase.Looking?
    case TryLock(_) => r.phase.Locking?
    case Computed(v) => r.phase.Computing? && r.phase.since <= v <= s.version
    case ComputeError => r.phase.Computing?
    case Store(_) => r.phase.Storing?
    case Release(_) => r.phase.Releasing?
    case Peek(_) => r.phase.Peeking?
    case Poll(_) => r.phase.Waiting?
    case GiveUp => r.phase.Waiting?
    case Cancel => r.phase.Waiting?
  }

  predicate Enabled(s: State, e: Event) {
    match e
    case Commit(w, c) => w !in s.writers
    case BeginBump(w) => w in s.writers && s.writers[w].phase.Committed?
    case Bump(w, _) => w in s.writers && s.writers[w].phase.Bumping?
    case Arrive(i, c, shape, header, held) => i !in s.requests && held <= s.issued
    case Act(i, a) => i in s.requests && CanAct(s, s.requests[i], a)
    case ExpireEntry(k) => true
    case ExpireLock(k) => true
  }

  /** The phase a request is in after its action. */
  function NextPhase(s: State, r: Request, a: Action): Phase
    requires CanAct(s, r, a)
  {
    match a
    case ReadEpoch(reply) => Keyed(if reply == Ok then s.epoch else 0)
    case SkipEpoch => Keyed(0)
    case Condition(shown) =>
      if r.client !in s.offline && Matches(r)
      then NotModified(if shown.Some? then Some(shown.value.version) else None) else Choosing(r.phase.epoch)
    case Enter =>
      if r.client in s.offline then Computing(r.phase.epoch, s.version, false) else Looking(r.phase.epoch)
    case FirstGet(isFresh, reply) =>
      if reply != Ok then Computing(r.phase.epoch, s.version, false)
      else if KeyOf(r) in s.store && isFresh then Served(r.phase.epoch, s.store[KeyOf(r)])
      else Locking(r.phase.epoch)
    case TryLock(reply) =>
      if reply != Ok then Computing(r.phase.epoch, s.version, false)
      else if KeyOf(r) !in s.locks then Computing(r.phase.epoch, s.version, true)
      else Peeking(r.phase.epoch)
    case Computed(v) => if r.phase.locked then Storing(r.phase.epoch, v) else Served(r.phase.epoch, v)
    case ComputeError => if r.phase.locked then Releasing(r.phase.epoch, None) else Failed
    case Store(_) => Releasing(r.phase.epoch, Some(r.phase.version))
    case Release(_) => if r.phase.outcome.Some? then Served(r.phase.epoch, r.phase.outcome.value) else Failed
    case Peek(reply) =>
      if reply == Ok && KeyOf(r) in s.store then Served(r.phase.epoch, s.store[KeyOf(r)])
      else Waiting(r.phase.epoch)
    case Poll(isFresh) =>
      if isFresh && KeyOf(r) in s.store then Served(r.phase.epoch, s.store[KeyOf(r)]) else r.phase
    case GiveUp => Computing(r.phase.epoch, s.version, false)
    case Cancel => Failed
  }

  /** A failed store operation switches the request's process to passthrough, for good. */
  function OfflineAfter(s: State, r: Request, a: Action): set<nat> {
    if a.ReadEpoch? || a.FirstGet? || a.TryLock? || a.Store?
    then if a.reply == Ok then s.offline else s.offline + {r.client}
    else s.offline
  }

  function StoreAfter(s: State, r: Request, a: Action): map<Key, nat>
    requires CanAct(s, r, a)
  {
    if a.Store? && a.reply != Error then s.store[KeyOf(r) := r.phase.version] else s.store
  }

  function LocksAfter(s: State, i: nat, r: Request, a: Action): map<Key, nat>
    requires CanAct(s, r, a)
  {
    if a.TryLock? && a.reply != Error && KeyOf(r) !in s.locks then s.locks[KeyOf(r) := i]
    else if a.Release? && a.reply != Error && KeyOf(r) in s.locks && s.locks[KeyOf(r)] == i then s.locks - {KeyOf(r)}
    else s.locks
  }

  function IssuedAfter(s: State, r: Request, p: Phase): set<Copy> {
    if p.Served? && !r.phase.Served? then s.issued + {Copy(Key(p.epoch, r.shape), p.version)} else s.issued
  }

  function AfterAct(s: State, i: nat, a: Action): State
    requires i in s.requests && CanAct(s, s.requests[i], a)
  {
    var r := s.requests[i];
    var p := NextPhase(s, r, a);
    s.(offline := OfflineAfter(s, r, a),
       store := StoreAfter(s, r, a),
       locks := LocksAfter(s, i, r, a),
       issued := IssuedAfter(s, r, p),
       requests := s.requests[i := r.(phase := p)])
  }

  function AfterBump(s: State, w: nat, reply: Reply): State
    requires w in s.writers
  {
    var wr := s.writers[w];
    s.(epoch := if reply == Error then s.epoch else s.epoch + 1,
       began := if reply == Error then s.began else s.began + [s.version],
       offline := if reply == Ok then s.offline else s.offline + {wr.client},
       writers := s.writers[w := wr.(phase := Finished(reply != Error))])
  }

  function Apply(s: State, e: Event): State
    requires Enabled(s, e)
  {
    match e
    case Commit(w, c) =>
      s.(version := s.version + 1, writers := s.writers[w := Writer(c, s.version + 1, Committed)])
    case BeginBump(w) =>
      var wr := s.writers[w];
      s.(writers := s.writers[w := wr.(phase := if wr.client in s.offline then Finished(false) else Bumping)])
    case Bump(w, reply) => AfterBump(s, w, reply)
    case Arrive(i, c, shape, header, held) => s.(requests := s.requests[i := Request(c, shape, header, held, Entering)])
    case Act(i, a) => AfterAct(s, i, a)
    case ExpireEntry(k) => s.(store := s.store - {k})
    case ExpireLock(k) => s.(locks := s.locks - {k})
  }

  // ----- Runs -----

  ghost predicate IsRun(states: seq<State>, events: seq<Event>) {
    && |states| == |events| + 1
    && states[0] == INIT
    && forall k :: 0 <= k < |events| ==> Enabled(states[k], events[k]) && states[k + 1] == Apply(states[k], events[k])
  }

  // ----- What every step keeps -----

  /** The epochs form a history: each began no earlier than the one before it. */
  ghost predicate History(s: State) {
    && |s.began| == s.epoch + 1
    && (forall a, b :: 0 <= a <= b <= s.epoch ==> s.began[a] <= s.began[b])
    && s.began[s.epoch] <= s.version
  }

  /** A payload filed under epoch `e` is no older than the moment `e` began. */
  ghost predicate Current(s: State, e: nat, v: nat)
    requires History(s)
  {
    e <= s.epoch && s.began[e] <= v <= s.version
  }

  ghost predicate PhaseOk(s: State, p: Phase)
    requires History(s)
  {
    && (HasEpoch(p) ==> p.epoch <= s.epoch)
    && (p.Computing? ==> Current(s, p.epoch, p.since))
    && (p.Storing? || p.Served? ==> Current(s, p.epoch, p.version))
    && (p.Releasing? && p.outcome.Some? ==> Current(s, p.epoch, p.outcome.value))
  }

  ghost predicate RequestOk(s: State, r: Request)
    requires History(s)
  {
    PhaseOk(s, r.phase) && forall c :: c in r.held ==> Current(s, c.etag.epoch, c.version)
  }

  /** A reader of `client` that arrives now cannot miss version `v`: the client no longer uses the
      cache, or the current epoch began after `v`. */
  ghost predicate Visible(s: State, client: nat, v: nat)
    requires History(s)
  {
    v <= s.version && (client in s.offline || v <= s.began[s.epoch])
  }

  ghost predicate WriterOk(s: State, wr: Writer)
    requires History(s)
  {
    && wr.version <= s.version
    && (wr.phase.Finished? ==> Visible(s, wr.client, wr.version))
    && (wr.phase == Finished(true) ==> wr.version <= s.began[s.epoch])
  }

  ghost predicate Inv(s: State) {
    && History(s)
    && (forall k :: k in s.store ==> Current(s, k.epoch, s.store[k]))
    && (forall c :: c in s.issued ==> Current(s, c.etag.epoch, c.version))
    && (forall i :: i in s.requests ==> RequestOk(s, s.requests[i]))
    && (forall w :: w in s.writers ==> WriterOk(s, s.writers[w]))
  }

  /** `t` is a later state than `s`: nothing that freshness relies on is taken back. */
  ghost predicate Later(s: State, t: State)
    requires History(s)
  {
    && History(t)
    && s.version <= t.version && s.epoch <= t.epoch && s.offline <= t.offline
    && s.began[s.epoch] <= t.began[t.epoch]
    && forall a :: 0 <= a <= s.epoch ==> t.began[a] == s.began[a]
  }

  lemma StepIsLater(s: State, e: Event)
    requires History(s) && Enabled(s, e)
    ensures Later(s, Apply(s, e))
  {
    hide NextPhase, StoreAfter, LocksAfter, IssuedAfter, CanAct;
  }

  lemma NextPhaseOk(s: State, r: Request, a: Action)
    requires History(s) && RequestOk(s, r) && CanAct(s, r, a)
    requires HasEpoch(r.phase) && KeyOf(r) in s.store ==> Current(s, r.phase.epoch, s.store[KeyOf(r)])
    ensures PhaseOk(s, NextPhase(s, r, a))
  {
  }

  lemma StoreStaysCurrent(s: State, i: nat, a: Action)
    requires Inv(s) && i in s.requests && CanAct(s, s.requests[i], a)
    ensures var t := AfterAct(s, i, a); forall k :: k in t.store ==> Current(s, k.epoch, t.store[k])
  {
    hide NextPhase, OfflineAfter, LocksAfter, IssuedAfter;
    var r, t := s.requests[i], AfterAct(s, i, a);
    assert RequestOk(s, r);
    forall k | k in t.store ensures Current(s, k.epoch, t.store[k]) { }
  }

  lemma IssuedStaysCurrent(s: State, i: nat, a: Action)
    requires Inv(s) && i in s.requests && CanAct(s, s.requests[i], a)
    ensures var t := AfterAct(s, i, a); forall c :: c in t.issued ==> Current(s, c.etag.epoch, c.version)
  {
    var r, t := s.requests[i], AfterAct(s, i, a);
    NextPhaseOk(s, r, a);
    hide NextPhase, CanAct, OfflineAfter, LocksAfter, StoreAfter;
    forall c | c in t.issued ensures Current(s, c.etag.epoch, c.version) { }
  }

  lemma ActKeepsInv(s: State, i: nat, a: Action)
    requires Inv(s) && i in s.requests && CanAct(s, s.requests[i], a)
    ensures Inv(AfterAct(s, i, a))
  {
    hide NextPhase, CanAct, LocksAfter, StoreAfter, IssuedAfter, PhaseOk;
    var r, t := s.requests[i], AfterAct(s, i, a);
    StoreStaysCurrent(s, i, a);
    IssuedStaysCurrent(s, i, a);
    NextPhaseOk(s, r, a);
    forall j | j in t.requests ensures RequestOk(t, t.requests[j]) {
      if j == i { RequestUnmoved(s, t, r.(phase := NextPhase(s, r, a))); } else { RequestUnmoved(s, t, s.requests[j]); }
    }
    forall w | w in t.writers ensures WriterOk(t, t.writers[w]) { }
  }

  /** What is said of a request depends on the epochs and the version only. */
  lemma RequestUnmoved(s: State, t: State, r: Request)
    requires History(s) && RequestOk(s, r) && t.began == s.began && t.epoch == s.epoch && t.version == s.version
    ensures RequestOk(t, r)
  {
  }

  lemma BumpKeepsInv(s: State, w: nat, reply: Reply)
    requires Inv(s) && Enabled(s, Bump(w, reply))
    ensures Inv(AfterBump(s, w, reply))
  {
    hide CanAct;
    var t := AfterBump(s, w, reply);
    assert Later(s, t) by { StepIsLater(s, Bump(w, reply)); }
    assert WriterOk(s, s.writers[w]);
    forall i | i in t.requests ensures RequestOk(t, t.requests[i]) { assert RequestOk(s, s.requests[i]); }
    forall v | v in t.writers ensures WriterOk(t, t.writers[v]) { assert WriterOk(s, s.writers[v]); }
  }

  lemma WriterKeepsInv(s: State, e: Event)
    requires Inv(s) && Enabled(s, e) && (e.Commit? || e.BeginBump?)
    ensures Inv(Apply(s, e))
  {
    hide CanAct, AfterAct, AfterBump, PhaseOk;
    var t := Apply(s, e);
    assert History(t);
    forall k | k in t.store ensures Current(t, k.epoch, t.store[k]) { assert Current(s, k.epoch, s.store[k]); }
    forall i | i in t.requests ensures RequestOk(t, t.requests[i]) { RequestOutlasts(s, t, s.requests[i]); }
    forall w | w in t.writers ensures WriterOk(t, t.writers[w]) {
      if w in s.writers { assert WriterOk(s, s.writers[w]); }
    }
  }

  /** Nothing said of a request is lost when the version grows. */
  lemma RequestOutlasts(s: State, t: State, r: Request)
    requires History(s) && History(t) && RequestOk(s, r) && t.began == s.began && t.epoch == s.epoch &&
             s.version <= t.version
    ensures RequestOk(t, r)
  {
  }

  lemma ReaderKeepsInv(s: State, e: Event)
    requires Inv(s) && Enabled(s, e) && (e.Arrive? || e.ExpireEntry? || e.ExpireLock?)
    ensures Inv(Apply(s, e))
  {
    hide CanAct, AfterAct, AfterBump;
    var t := Apply(s, e);
    assert History(t);
    forall k | k in t.store ensures Current(t, k.epoch, t.store[k]) { assert Current(s, k.epoch, s.store[k]); }
    forall i | i in t.requests ensures RequestOk(t, t.requests[i]) {
      if i in s.requests { RequestOutlasts(s, t, s.requests[i]); }
    }
    forall w | w in t.writers ensures WriterOk(t, t.writers[w]) { assert WriterOk(s, s.writers[w]); }
  }

  lemma StepKeepsInv(s: State, e: Event)
    requires Inv(s) && Enabled(s, e)
    ensures Inv(Apply(s, e))
  {
    hide CanAct, AfterBump, AfterAct, Inv;
    match e {
      case Act(i, a) => ActKeepsInv(s, i, a);
      case Bump(w, reply) => BumpKeepsInv(s, w, reply);
      case Commit(_, _) => WriterKeepsInv(s, e);
      case BeginBump(_) => WriterKeepsInv(s, e);
      case _ => ReaderKeepsInv(s, e);
    }
  }

  // ----- Reads never hide a published write -----

  /** Whatever a request of `client` in phase `p` still does, it can only answer with `v` or later. */
  ghost predicate PhaseFresh(s: State, client: nat, p: Phase, v: nat)
    requires History(s) && PhaseOk(s, p)
  {
    match p
    case Entering => Visible(s, client, v)
    case Keyed(e) => client in s.offline || v <= s.began[e]
    case Choosing(e) => client in s.offline || v <= s.began[e]
    case Looking(e) => v <= s.began[e]
    case Locking(e) => v <= s.began[e]
    case Peeking(e) => v <= s.began[e]
    case Waiting(e) => v <= s.began[e]
    case Computing(_, since, _) => v <= since
    case Storing(_, x) => v <= x
    case Releasing(_, outcome) => outcome.Some? ==> v <= outcome.value
    case Served(_, x) => v <= x
    case NotModified(shown) => shown.Some? ==> v <= shown.value
    case Failed => true
  }

  /** No `*` confirms a copy older than `v`. */
  predicate Trusts(r: Request, v: nat) { r.header.Any? ==> forall c :: c in r.held ==> v <= c.version }

  ghost predicate FreshFor(s: State, i: nat, v: nat)
    requires Inv(s) && i in s.requests
  {
    var r := s.requests[i];
    v <= s.version && PhaseFresh(s, r.client, r.phase, v) && (r.client in s.offline || Trusts(r, v))
  }

  lemma NextPhaseFresh(s: State, r: Request, a: Action, v: nat)
    requires History(s) && RequestOk(s, r) && CanAct(s, r, a)
    requires HasEpoch(r.phase) && KeyOf(r) in s.store ==> Current(s, r.phase.epoch, s.store[KeyOf(r)])
    requires v <= s.version && PhaseFresh(s, r.client, r.phase, v) && (r.client in s.offline || Trusts(r, v))
    ensures PhaseOk(s, NextPhase(s, r, a))
    ensures PhaseFresh(s.(offline := OfflineAfter(s, r, a)), r.client, NextPhase(s, r, a), v)
  {
    NextPhaseOk(s, r, a);
  }

  lemma LaterKeepsFresh(s: State, t: State, client: nat, p: Phase, v: nat)
    requires History(s) && Later(s, t) && PhaseOk(s, p) && PhaseOk(t, p) && v <= s.version &&
             PhaseFresh(s, client, p, v)
    ensures PhaseFresh(t, client, p, v)
  {
  }

  lemma RequestStays(s: State, e: Event, i: nat)
    requires Enabled(s, e) && i in s.requests
    ensures i in Apply(s, e).requests
    ensures Apply(s, e).requests[i] == s.requests[i].(phase := Apply(s, e).requests[i].phase)
  {
    hide CanAct, NextPhase;
  }

  lemma StepKeepsFresh(s: State, e: Event, i: nat, v: nat)
    requires Inv(s) && Enabled(s, e) && i in s.requests && FreshFor(s, i, v)
    ensures Inv(Apply(s, e)) && i in Apply(s, e).requests && FreshFor(Apply(s, e), i, v)
    ensures Apply(s, e).requests[i].client == s.requests[i].client
  {
    hide NextPhase, CanAct, StoreAfter, IssuedAfter, LocksAfter, PhaseFresh, Trusts;
    StepKeepsInv(s, e);
    StepIsLater(s, e);
    RequestStays(s, e, i);
    var t, r := Apply(s, e), s.requests[i];
    assert RequestOk(s, r) && RequestOk(t, t.requests[i]);
    if e.Act? && e.i == i {
      NextPhaseFresh(s, r, e.action, v);
      LaterKeepsFresh(s.(offline := t.offline), t, r.client, t.requests[i].phase, v);
    } else {
      LaterKeepsFresh(s, t, r.client, r.phase, v);
    }
    TrustStays(r, t.requests[i], v);
  }

  lemma TrustStays(r: Request, r': Request, v: nat)
    requires r' == r.(phase := r'.phase)
    ensures Trusts(r, v) <==> Trusts(r', v)
  {}

  lemma {:induction false} RunKeepsInv(states: seq<State>, events: seq<Event>, k: nat)
    requires IsRun(states, events) && k < |states|
    ensures Inv(states[k])
  {
    if k > 0 {
      RunKeepsInv(states, events, k - 1);
      StepKeepsInv(states[k - 1], events[k - 1]);
    }
  }

  lemma {:induction false} RunKeepsFresh(states: seq<State>, events: seq<Event>, b: nat, j: nat, i: nat, v: nat)
    requires IsRun(states, events) && b <= j < |states|
    requires Inv(states[b]) && i in states[b].requests && FreshFor(states[b], i, v)
    ensures Inv(states[j]) && i in states[j].requests && FreshFor(states[j], i, v)
    decreases j - b
  {
    if b < j {
      StepKeepsFresh(states[b], events[b], i, v);
      RunKeepsFresh(states, events, b + 1, j, i, v);
    }
  }

  lemma {:induction false} RunKeepsVisible(states: seq<State>, events: seq<Event>, a: nat, b: nat, client: nat, v: nat)
    requires IsRun(states, events) && a <= b < |states|
    requires Inv(states[a]) && Visible(states[a], client, v)
    ensures Inv(states[b]) && Visible(states[b], client, v)
    decreases b - a
  {
    if a < b {
      StepKeepsInv(states[a], events[a]);
      StepIsLater(states[a], events[a]);
      RunKeepsVisible(states, events, a + 1, b, client, v);
    }
  }

  function Answer(p: Phase): Option<nat> {
    match p
    case Served(_, v) => Some(v)
    case NotModified(shown) => shown
    case _ => None
  }

  /** The cache's promise.  Once writer `w` has finished (its row committed and `BumpEpoch` returned),
      a request that arrives later never answers - from a fresh entry, a stale one, a polled one, a
      computation or a 304 - with data from before that write, provided the bump reached the store or
      the request belongs to the writer's own process; and provided it does not ask with `*` for a copy
      from before the write, unless its process has given the cache up. */
  lemma NoStaleRead(states: seq<State>, events: seq<Event>, a: nat, b: nat, j: nat, w: nat)
    requires IsRun(states, events) && a <= b < |events| && b < j < |states|
    requires w in states[a].writers && states[a].writers[w].phase.Finished? && events[b].Arrive?
    requires states[a].writers[w].phase.published || states[a].writers[w].client == events[b].client
    requires events[b].header.Any? ==>
               events[b].client in states[b].offline || forall c :: c in events[b].held ==>
                 states[a].writers[w].version <= c.version
    ensures events[b].i in states[j].requests
    ensures var answer := Answer(states[j].requests[events[b].i].phase);
            answer.Some? ==> states[a].writers[w].version <= answer.value
  {
    var wr := states[a].writers[w];
    var client, i := events[b].client, events[b].i;
    RunKeepsInv(states, events, a);
    RunKeepsVisible(states, events, a, b, client, wr.version);
    StepKeepsInv(states[b], events[b]);
    assert FreshFor(states[b + 1], i, wr.version);
    RunKeepsFresh(states, events, b + 1, j, i, wr.version);
  }

  /** `began[e]` is what its name says: the version of the first state of the run with epoch `e`. */
  lemma {:induction false} BeganIsTheStart(states: seq<State>, events: seq<Event>, j: nat, e: nat) returns (m: nat)
    requires IsRun(states, events) && j < |states| && e <= states[j].epoch
    ensures m <= j && states[m].epoch == e && (m == 0 || states[m - 1].epoch < e)
    ensures e < |states[j].began| && states[m].version == states[j].began[e]
  {
    hide Enabled, Apply, RequestOk, WriterOk, Current;
    RunKeepsInv(states, events, j);
    if j == 0 {
      m := 0;
    } else {
      RunKeepsInv(states, events, j - 1);
      StepIsLater(states[j - 1], events[j - 1]);
      EpochGrowsByOne(states[j - 1], events[j - 1]);
      if e <= states[j - 1].epoch {
        m := BeganIsTheStart(states, events, j - 1, e);
      } else {
        m := j;
      }
    }
  }

  lemma EpochGrowsByOne(s: State, e: Event)
    requires Inv(s) && Enabled(s, e)
    ensures var t := Apply(s, e);
            t.epoch == s.epoch || (t.epoch == s.epoch + 1 && History(t) && t.began[t.epoch] == t.version)
  {
    StepIsLater(s, e);
    hide NextPhase, CanAct;
  }

  /** Every entry of the store holds a payload read after its epoch had begun. */
  lemma StoredEntriesAreCurrent(states: seq<State>, events: seq<Event>, j: nat, k: Key) returns (m: nat)
    requires IsRun(states, events) && j < |states| && k in states[j].store
    ensures m <= j && states[m].epoch == k.epoch && (m == 0 || states[m - 1].epoch < k.epoch)
    ensures states[m].version <= states[j].store[k] <= states[j].version
  {
    RunKeepsInv(states, events, j);
    m := BeganIsTheStart(states, events, j, k.epoch);
  }

  // ----- Locks -----

  /** A lock leaves its holder's hands only by the holder's own release or by running out of time. */
  lemma OnlyHolderReleases(s: State, e: Event, k: Key)
    requires Enabled(s, e) && k in s.locks
    requires k !in Apply(s, e).locks || Apply(s, e).locks[k] != s.locks[k]
    ensures e == ExpireLock(k) || (e.Act? && e.action.Release? && e.i == s.locks[k])
  {
    hide NextPhase, CanAct, StoreAfter, IssuedAfter;
  }

  predicate Holding(r: Request) {
    (r.phase.Computing? && r.phase.locked) || r.phase.Storing? || r.phase.Releasing?
  }

  ghost predicate HoldersOwnLocks(s: State) {
    forall i :: i in s.requests && Holding(s.requests[i]) ==>
      KeyOf(s.requests[i]) in s.locks && s.locks[KeyOf(s.requests[i])] == i
  }

  lemma ActKeepsHolders(s: State, i: nat, a: Action)
    requires HoldersOwnLocks(s) && i in s.requests && CanAct(s, s.requests[i], a)
    ensures HoldersOwnLocks(AfterAct(s, i, a))
  {
    var r, t := s.requests[i], AfterAct(s, i, a);
    assert Holding(t.requests[i]) ==> KeyOf(t.requests[i]) in t.locks && t.locks[KeyOf(t.requests[i])] == i by {
      hide StoreAfter, IssuedAfter, OfflineAfter;
    }
    hide NextPhase, CanAct, StoreAfter, IssuedAfter, OfflineAfter;
  }

  /** As long as no lock runs out, at most one request per key computes under the lock. */
  lemma {:induction false} SingleFlight(states: seq<State>, events: seq<Event>, k: nat)
    requires IsRun(states, events) && k < |states|
    requires forall m :: 0 <= m < |events| ==> !events[m].ExpireLock?
    ensures HoldersOwnLocks(states[k])
    ensures forall i, j |
              && i in states[k].requests && Holding(states[k].requests[i])
              && j in states[k].requests && Holding(states[k].requests[j])
              && KeyOf(states[k].requests[i]) == KeyOf(states[k].requests[j]) :: i == j
  {
    if k > 0 {
      SingleFlight(states, events, k - 1);
      var s, e := states[k - 1], events[k - 1];
      if e.Act? {
        ActKeepsHolders(s, e.i, e.action);
      } else {
        hide NextPhase, CanAct, AfterAct;
      }
    }
  }

  // ----- The promise needs its condition -----

  ghost predicate Reaches(events: seq<Event>, s: State) {
    exists states :: IsRun(states, events) && states[|events|] == s
  }

  /** Three processes share the store.  When process 0's bump fails, only process 0 stops using the
      cache: a later request of process 1 is answered 304 for a copy from before the write. */
  lemma FailedBumpIsInvisibleElsewhere() returns (events: seq<Event>, s: State)
    ensures Reaches(events, s)
    ensures |events| > 4 && events[|events| - 4] == Bump(0, Error) && events[|events| - 3].Arrive? &&
            events[|events| - 3].i == 1
    ensures 0 in s.writers && s.writers[0] == Writer(0, 1, Finished(false))
    ensures 1 in s.requests && s.requests[1].client == 1 && s.requests[1].phase == NotModified(Some(0))
  {
    hide Reaches;
    events, s := FailToPublish();
    events, s := AskAgain(events, s, Tags({Key(0, 0)}));
  }

  /** Process 2 has given the cache up; its later write bumps nothing, and process 1 answers 304 for a copy
      from before it. */
  lemma OfflineWriteIsInvisibleElsewhere() returns (events: seq<Event>, s: State)
    ensures Reaches(events, s)
    ensures forall k :: 0 <= k < |events| ==> !events[k].Bump?
    ensures 0 in s.writers && s.writers[0] == Writer(2, 1, Finished(false))
    ensures 1 in s.requests && s.requests[1].client == 1 && s.requests[1].phase == NotModified(Some(0))
  {
    hide Reaches;
    events, s := SendCopy();
    events, s := Do(events, s, Commit(0, 2));
    events, s := Do(events, s, BeginBump(0));
    events, s := AskAgain(events, s, Tags({Key(0, 0)}));
  }

  /** A published write is missed as well when the browser asks with `*`: the epoch has moved on, and still
      process 1 answers 304 to a browser that holds a copy from before the write. */
  lemma StarConfirmsAnyCopy() returns (events: seq<Event>, s: State)
    ensures Reaches(events, s)
    ensures |events| > 4 && events[|events| - 4] == Bump(0, Ok) &&
            events[|events| - 3] == Arrive(1, 1, 0, Any, {Copy(Key(0, 0), 0)})
    ensures 0 in s.writers && s.writers[0] == Writer(0, 1, Finished(true))
    ensures 1 in s.requests && s.requests[1].client == 1 && s.requests[1].phase == NotModified(Some(0))
  {
    hide Reaches;
    events, s := SendCopy();
    events, s := Do(events, s, Commit(0, 0));
    events, s := Do(events, s, BeginBump(0));
    events, s := Do(events, s, Bump(0, Ok));
    events, s := AskAgain(events, s, Any);
  }

  /** A browser that holds version 0 of epoch 0 asks process 1. */
  lemma AskAgain(events: seq<Event>, s: State, header: Header) returns (events': seq<Event>, t: State)
    requires Reaches(events, s) && Copy(Key(0, 0), 0) in s.issued && 1 !in s.requests && 1 !in s.offline
    requires header == Any || (header == Tags({Key(0, 0)}) && s.epoch == 0)
    ensures Reaches(events', t) && 1 in t.requests && t.requests[1].client == 1
    ensures t.requests[1].phase == NotModified(Some(0)) && t.writers == s.writers
    ensures events' == events + [Arrive(1, 1, 0, header, {Copy(Key(0, 0), 0)}), Act(1, ReadEpoch(Ok)),
            Act(1, Condition(Some(Copy(Key(0, 0), 0))))]
  {
    hide Reaches;
    var c := Copy(Key(0, 0), 0);
    events', t := Do(events, s, Arrive(1, 1, 0, header, {c}));
    events', t := Do(events', t, Act(1, ReadEpoch(Ok)));
    events', t := Do(events', t, Act(1, Condition(Some(c))));
  }

  lemma Start()
    ensures Reaches([], INIT)
  {
    assert IsRun([INIT], []);
  }

  /** A request of process 2 has read epoch 0 and is about to enter GetOrCompute. */
  lemma OpenRequest() returns (events: seq<Event>, s: State)
    ensures Reaches(events, s) && forall k :: 0 <= k < |events| ==> events[k].Arrive? || events[k].Act?
    ensures s == INIT.(requests := map[0 := Request(2, 0, Absent, {}, Choosing(0))])
  {
    hide Reaches, IsRun;
    events, s := [], INIT;
    Start();
    events, s := Do(events, s, Arrive(0, 2, 0, Absent, {}));
    assert s == INIT.(requests := map[0 := Request(2, 0, Absent, {}, Entering)]);
    events, s := Do(events, s, Act(0, ReadEpoch(Ok)));
    assert s == INIT.(requests := map[0 := Request(2, 0, Absent, {}, Keyed(0))]);
    events, s := Do(events, s, Act(0, Condition(None)));
  }

  /** Process 2 sends version 0 with the ETag of epoch 0. */
  lemma SendCopy() returns (events: seq<Event>, s: State)
    ensures Reaches(events, s) && forall k :: 0 <= k < |events| ==> events[k].Arrive? || events[k].Act?
    ensures s == State(0, 0, [0], {2}, map[], map[], s.requests, map[], {Copy(Key(0, 0), 0)}) && 1 !in s.requests
  {
    hide Reaches;
    events, s := OpenRequest();
    events, s := Do(events, s, Act(0, Enter));
    assert s == INIT.(requests := map[0 := Request(2, 0, Absent, {}, Looking(0))]);
    events, s := Do(events, s, Act(0, FirstGet(true, Error)));
    assert s == INIT.(offline := {2}, requests := map[0 := Request(2, 0, Absent, {}, Computing(0, 0, false))]);
    events, s := Do(events, s, Act(0, Computed(0)));
  }

  /** Process 0 commits a write and fails to bump the epoch. */
  lemma FailToPublish() returns (events: seq<Event>, s: State)
    ensures Reaches(events, s)
    ensures |events| > 1 && events[|events| - 1] == Bump(0, Error) && 1 !in s.requests
    ensures s == State(1, 0, [0], {2, 0}, map[], map[], s.requests, map[0 := Writer(0, 1, Finished(false))],
            {Copy(Key(0, 0), 0)})
  {
    hide Reaches;
    events, s := SendCopy();
    events, s := Do(events, s, Commit(0, 0));
    events, s := Do(events, s, BeginBump(0));
    events, s := Do(events, s, Bump(0, Error));
  }

  lemma Do(events: seq<Event>, s: State, e: Event) returns (events': seq<Event>, t: State)
    requires Reaches(events, s) && Enabled(s, e)
    ensures Reaches(events', t) && events' == events + [e] && t == Apply(s, e)
  {
    events', t := events + [e], Apply(s, e);
    var states :| IsRun(states, events) && states[|events|] == s;
    assert IsRun(states + [t], events');
  }
}
