/** The ingest loop of one connector run.  What the connector, the cache and the database answer is given
    as a script, one reply per page and per item; a script that has run out is a cancelled run.  So a
    statement about all scripts is a statement about every moment of every run. */
module Ingest {
  import opened Common
  import opened ManualFields

  /** `key` is the stable dedupe key ("" when missing); `alias` the source URL that may also stand for a
      downloaded row, "" for connectors without that rule. */
  datatype Item = Item(key: string, alias: string)

  /** Rate limits behave as temporary errors; parse and missing-media errors as not-found. */
  datatype Kind = Temporary | NotFound | Permission | Other

  datatype StoreReply = Won | Lost | StoreError

  /** What happens around one item.  The reads and writes that fail are those of the cache; `hashKnown` is
      the answer of its content-hash lookup. */
  datatype Plan = Plan(
    cancelled: bool, readFails: bool, lookupFails: bool, refusal: Option<Kind>, recordFails: bool, backoffFails: bool,
    hashReadFails: bool, hashKnown: bool, inboxFails: bool, sourceFails: bool, store: StoreReply,
    markFails: bool, routingFails: bool, hashMarkFails: bool)

  predicate KeptRow(item: Item, downloaded: set<string>) {
    (item.key != "" && Trim(item.key) in downloaded) || (item.alias != "" && Trim(item.alias) in downloaded)
  }

  datatype PageReply =
    | NoPage
    | PageRefused(kind: Kind, recordFails: bool, backoffFails: bool)
    | Page(
        items: seq<Item>, plans: seq<Plan>, nextCursor: string, nextPage: int, hasNext: bool,
        bumpFails: bool, updateFails: bool, saveFails: bool)

  /** StableDedupeKey: no key without a provider and a value, else both around a colon. */
  function StableDedupeKey(provider: string, value: string): (key: string)
    ensures IsKey(key)
  {
    if provider == "" || value == "" then "" else provider + ":" + value
  }

  /** Of one provider different values have different keys, and only an item without a value has none. */
  lemma KeysTellItemsApart(provider: string, a: string, b: string)
    ensures StableDedupeKey(provider, a) == "" <==> provider == "" || a == ""
    ensures provider != "" && StableDedupeKey(provider, a) == StableDedupeKey(provider, b) ==> a == b
    ensures provider != "" && a != "" ==> StableDedupeKey(provider, a) == provider + ":" + a
  {
    var s, t := provider + ":" + a, provider + ":" + b;
    assert s[|provider| + 1..] == a && t[|provider| + 1..] == b;
  }

  predicate IsKey(key: string) { key == "" || ':' in key }

  lemma {:induction false} TrimKeepsColon(s: string)
    requires ':' in s
    ensures ':' in TrimLeft(s) && ':' in TrimRight(s)
    decreases |s|
  {
    var k :| 0 <= k < |s| && s[k] == ':';
    if IsSpace(s[0]) {
      assert s[1..][k - 1] == ':';
      TrimKeepsColon(s[1..]);
    }
    if IsSpace(s[|s| - 1]) {
      assert s[..|s| - 1][k] == ':';
      TrimKeepsColon(s[..|s| - 1]);
    }
  }

  /** So a key never names the row of the empty url. */
  lemma KeyIsNotBlank(key: string)
    requires IsKey(key) && key != ""
    ensures Trim(key) != ""
  {
    TrimKeepsColon(key);
    TrimKeepsColon(TrimLeft(key));
  }

  predicate WellFormed(script: seq<PageReply>) {
    forall k :: 0 <= k < |script| && script[k].Page? ==> PageOk(script[k])
  }

  predicate PageOk(reply: PageReply)
    requires reply.Page?
  {
    |reply.plans| == |reply.items| && forall i :: i in reply.items ==> IsKey(i.key)
  }

  predicate IsGone(reply: PageReply) { reply.PageRefused? && reply.kind.NotFound? && !reply.recordFails }

  /** A save of the durable cursor, and how many pages had been served completely by then. */
  datatype Save = Save(cursor: string, pages: nat)

  /** The position after the first `n` pages: the last non-empty next cursor, or the start. */
  function CursorAfter(start: string, script: seq<PageReply>, n: nat): string
    requires n <= |script|
  {
    if n == 0 then start
    else if script[n - 1].Page? && script[n - 1].nextCursor != "" then script[n - 1].nextCursor
    else CursorAfter(start, script, n - 1)
  }

  /** All items of the first `n` pages, in order. */
  function ItemsOf(script: seq<PageReply>, n: nat): seq<Item>
    requires n <= |script|
  {
    if n == 0 then [] else ItemsOf(script, n - 1) + if script[n - 1].Page? then script[n - 1].items else []
  }

  /** A save tells the truth: its cursor is the position after pages that had all been served. */
  ghost predicate TrueSave(start: string, script: seq<PageReply>, s: Save, completed: nat)
    requires completed <= |script|
  {
    s.pages <= completed && s.cursor == CursorAfter(start, script, s.pages)
  }

  /** The page that a reply names as the next one: its next page, or one more than the pages processed so far
      where it gives none. */
  function Named(reply: PageReply, processed: nat): int
    requires reply.Page?
  {
    if reply.nextPage == 0 then processed + 1 else reply.nextPage
  }

  /** The connector's next page always lies beyond the page that was requested. */
  predicate Advances(script: seq<PageReply>, requested: seq<int>) {
    forall k :: 0 <= k < |requested| && k < |script| && script[k].Page? && script[k].hasNext ==>
      Named(script[k], k + 1) > requested[k]
  }

  // ----- Run options -----

  predicate SortedInts(s: seq<int>) { forall i, j :: 0 <= i < j < |s| ==> s[i] <= s[j] }

  function InsertInt(x: int, s: seq<int>): seq<int> {
    if s == [] || x <= s[0] then [x] + s else [s[0]] + InsertInt(x, s[1..])
  }

  function SortInts(s: seq<int>): seq<int> {
    if s == [] then [] else InsertInt(s[0], SortInts(s[1..]))
  }

  lemma {:induction false} InsertIntPermutes(x: int, s: seq<int>)
    ensures multiset(InsertInt(x, s)) == multiset(s) + multiset{x}
  {
    if s != [] && x > s[0] {
      InsertIntPermutes(x, s[1..]);
      assert s == [s[0]] + s[1..];
    }
  }

  lemma {:induction false} InsertIntHolds(x: int, s: seq<int>)
    requires SortedInts(s)
    ensures SortedInts(InsertInt(x, s)) && forall y :: y in InsertInt(x, s) ==> y == x || y in s
  {
    if s != [] && x > s[0] {
      InsertIntHolds(x, s[1..]);
      var t := InsertInt(x, s[1..]);
      forall k | 0 <= k < |t| ensures s[0] <= t[k] { assert t[k] in t; }
    }
  }

  lemma {:induction false} SortIntsHolds(s: seq<int>)
    ensures SortedInts(SortInts(s)) && multiset(SortInts(s)) == multiset(s)
  {
    if s != [] {
      assert s == [s[0]] + s[1..];
      SortIntsHolds(s[1..]);
      InsertIntHolds(s[0], SortInts(s[1..]));
      InsertIntPermutes(s[0], SortInts(s[1..]));
    }
  }

  lemma SameElements(a: seq<int>, b: seq<int>)
    requires multiset(a) == multiset(b)
    ensures forall x :: x in a <==> x in b
  {
    forall x ensures x in a <==> x in b { assert x in multiset(a) <==> x in multiset(b); }
  }

  datatype Options = Options(startPage: int, allowed: seq<int>)

  /** normalizeRunOptions */
  function Normalize(o: Options): Options {
    var start := if o.startPage <= 0 then 1 else o.startPage;
    if o.allowed == [] then Options(start, [])
    else
      var pages := SortInts(o.allowed);
      Options(if start == 1 && pages != [] then pages[0] else start, pages)
  }

  predicate PageAllowed(o: Options, page: int) { o.allowed == [] || page in o.allowed }

  /** nextAllowedAfter: the first allowed page, in order, beyond `page`. */
  function NextAllowed(allowed: seq<int>, page: int): Option<int> {
    if allowed == [] then None
    else if allowed[0] > page then Some(allowed[0])
    else NextAllowed(allowed[1..], page)
  }

  lemma {:induction false} NextAllowedIsBeyond(allowed: seq<int>, page: int)
    ensures NextAllowed(allowed, page).None? <==> forall x :: x in allowed ==> x <= page
    ensures NextAllowed(allowed, page).Some? ==>
              NextAllowed(allowed, page).value in allowed && NextAllowed(allowed, page).value > page
  {
    assert allowed != [] ==> allowed[0] in allowed;
    if allowed != [] && allowed[0] <= page {
      NextAllowedIsBeyond(allowed[1..], page);
      assert forall x :: x in allowed <==> x == allowed[0] || x in allowed[1..];
    }
  }

  lemma {:induction false} NextAllowedIsLeast(allowed: seq<int>, page: int)
    requires SortedInts(allowed)
    ensures NextAllowed(allowed, page).None? <==> forall x :: x in allowed ==> x <= page
    ensures NextAllowed(allowed, page).Some? ==>
              var x := NextAllowed(allowed, page).value;
              x in allowed && x > page && forall y :: y in allowed && y > page ==> x <= y
  {
    assert allowed != [] ==> allowed[0] in allowed;
    if allowed != [] && allowed[0] <= page {
      NextAllowedIsLeast(allowed[1..], page);
      assert forall x :: x in allowed <==> x == allowed[0] || x in allowed[1..];
    }
  }

  predicate StrictlyIncreasing(s: seq<int>) { forall i, j :: 0 <= i < j < |s| ==> s[i] < s[j] }

  lemma {:induction false} IncreasingFits(s: seq<int>, allowed: set<int>)
    requires StrictlyIncreasing(s) && forall x :: x in s ==> x in allowed
    ensures |s| <= |allowed|
  {
    if s != [] {
      var last := s[|s| - 1];
      var front := s[..|s| - 1];
      forall x | x in front ensures x in allowed - {last} { }
      IncreasingFits(front, allowed - {last});
    }
  }

  /** Allowed pages were given, and the run starts on one of them. */
  predicate Paged(o: Options) { o.allowed != [] && SortedInts(o.allowed) && o.startPage in o.allowed }

  /** The run ended for lack of pages: request `n - 1` got no page, or one that nothing follows. */
  ghost predicate IsExhausted(o: Options, script: seq<PageReply>, n: nat) {
    && 0 < n <= |script|
    && (script[n - 1].NoPage? || (script[n - 1].Page? && NothingFollows(o, script[n - 1], n)))
  }

  /** Nothing failed with the last page: there was none, or it was served to its end and its position saved. */
  ghost predicate IsSettled(script: seq<PageReply>, n: nat, completed: nat) {
    0 < n <= |script| && (script[n - 1].Page? ==> completed == n && !script[n - 1].saveFails)
  }

  /** What is requested after the reply to request `k - 1`: the page it names with its cursor, or, if that page
      is not allowed, the least allowed page beyond it without a cursor. */
  ghost predicate Follows(o: Options, reply: PageReply, k: nat, page: int, cursor: string) {
    && reply.Page? && reply.hasNext
    && if o.allowed == [] || Named(reply, k) in o.allowed then page == Named(reply, k) && cursor == reply.nextCursor
       else
         && cursor == "" && page in o.allowed && page > Named(reply, k)
         && (SortedInts(o.allowed) ==> forall p :: p in o.allowed && p > Named(reply, k) ==> page <= p)
  }

  /** Nothing follows the reply to request `k - 1`: it has no next page, or all allowed pages lie before that. */
  ghost predicate NothingFollows(o: Options, reply: PageReply, k: nat)
    requires reply.Page?
  {
    reply.hasNext ==> o.allowed != [] && forall p :: p in o.allowed ==> p < Named(reply, k)
  }

  /** The requests of a run: the first is for the start page at the stored cursor, each later one follows the
      reply before it. */
  ghost predicate Asks(o: Options, start: string, script: seq<PageReply>, pages: seq<int>, cursors: seq<string>) {
    && |pages| == |cursors| <= |script| + 1
    && (pages != [] ==> pages[0] == o.startPage && cursors[0] == start)
    && forall k :: 0 < k < |pages| ==> Follows(o, script[k - 1], k, pages[k], cursors[k])
  }

  lemma AsksFirst(o: Options, start: string, script: seq<PageReply>)
    ensures Asks(o, start, script, [] + [o.startPage], [] + [start])
  {
  }

  lemma NotExhaustedAtFirst(o: Options, script: seq<PageReply>)
    ensures !IsExhausted(o, script, 0)
  {
  }

  lemma AsksBefore(
      o: Options, start: string, script: seq<PageReply>, pages: seq<int>, cursors: seq<string>, page: int,
      cursor: string)
    requires |pages| == |cursors| && Asks(o, start, script, pages + [page], cursors + [cursor])
    ensures Asks(o, start, script, pages, cursors)
  {
    hide Follows;
    ghost var more, all := pages + [page], cursors + [cursor];
    assert forall k :: 0 <= k < |pages| ==> more[k] == pages[k] && all[k] == cursors[k];
  }

  lemma AsksOn(
      o: Options, start: string, script: seq<PageReply>, pages: seq<int>, cursors: seq<string>, page: int,
      cursor: string)
    requires Asks(o, start, script, pages, cursors) && pages != [] && |pages| <= |script|
    requires Follows(o, script[|pages| - 1], |pages|, page, cursor)
    ensures Asks(o, start, script, pages + [page], cursors + [cursor])
  {
    hide Follows;
  }

  lemma FollowsOn(o: Options, reply: PageReply, k: nat, page: int, cursor: string)
    requires Follows(o, reply, k, page, cursor)
    ensures reply.Page? && reply.hasNext && page >= Named(reply, k) && (o.allowed != [] ==> page in o.allowed)
  {
  }

  lemma IncreasesOn(front: seq<int>, page: int)
    requires StrictlyIncreasing(front) && (front != [] ==> page > front[|front| - 1])
    ensures StrictlyIncreasing(front + [page])
  {
  }

  /** The requests of a run whose connector advances are for ever later pages, all of them allowed ones if the
      first is. */
  lemma {:induction false} AsksIncrease(
      o: Options, start: string, script: seq<PageReply>, pages: seq<int>, cursors: seq<string>)
    requires Asks(o, start, script, pages, cursors) && Advances(script, pages)
    ensures StrictlyIncreasing(pages)
    ensures Paged(o) ==> forall p :: p in pages ==> p in o.allowed
    decreases |pages|
  {
    hide Follows, Named;
    if pages != [] {
      var n := |pages| - 1;
      assert pages == pages[..n] + [pages[n]] && cursors == cursors[..n] + [cursors[n]];
      AsksBefore(o, start, script, pages[..n], cursors[..n], pages[n], cursors[n]);
      AsksIncrease(o, start, script, pages[..n], cursors[..n]);
      if n > 0 { FollowsOn(o, script[n - 1], n, pages[n], cursors[n]); }
      IncreasesOn(pages[..n], pages[n]);
    }
  }

  lemma AskedSoFar(o: Options, start: string, script: seq<PageReply>, pages: seq<int>, cursors: seq<string>)
    requires Asks(o, start, script, pages, cursors)
    ensures Advances(script, pages) ==>
              StrictlyIncreasing(pages) && (Paged(o) ==> forall p :: p in pages ==> p in o.allowed)
  {
    if Advances(script, pages) { AsksIncrease(o, start, script, pages, cursors); }
  }

  // ----- Saves of the cursor -----

  ghost predicate SavesAreTrue(start: string, script: seq<PageReply>, saves: seq<Save>, completed: nat)
    requires completed <= |script|
  {
    forall s :: s in saves ==> TrueSave(start, script, s, completed)
  }

  lemma NoSaves(start: string, script: seq<PageReply>)
    ensures SavesAreTrue(start, script, [], 0)
  {
  }

  lemma SaveIsTrue(start: string, script: seq<PageReply>, saves: seq<Save>, completed: nat)
    requires completed <= |script| && SavesAreTrue(start, script, saves, completed)
    ensures SavesAreTrue(start, script, saves + [Save(CursorAfter(start, script, completed), completed)], completed)
  {
  }

  lemma SavesStayTrue(start: string, script: seq<PageReply>, saves: seq<Save>, completed: nat)
    requires 0 < completed <= |script| && SavesAreTrue(start, script, saves, completed - 1)
    ensures SavesAreTrue(start, script, saves, completed)
  {
  }

  lemma NothingServed(start: string, script: seq<PageReply>)
    ensures CursorAfter(start, script, 0) == start && ItemsOf(script, 0) == []
  {
  }

  lemma PageServed(start: string, script: seq<PageReply>, n: nat)
    requires n < |script| && script[n].Page?
    ensures CursorAfter(start, script, n + 1) ==
              if script[n].nextCursor != "" then script[n].nextCursor else CursorAfter(start, script, n)
    ensures ItemsOf(script, n + 1) == ItemsOf(script, n) + script[n].items
  {
  }

  // ----- One round -----

  /** What a round reads and changes: the cache's flag and seen set; the urls with a downloaded row, and the
      dedupe keys recorded as duplicates; the rows that a failure record demoted, and the rows recorded since
      the last bump. */
  datatype Now = Now(
    offline: bool, seen: set<string>, downloaded: set<string>, duplicates: set<string>, demoted: set<string>,
    unpublished: set<string>)

  function Offline(n: Now, fails: bool): Now { n.(offline := n.offline || fails) }

  function Marked(n: Now, key: string, fails: bool): Now {
    n.(offline := n.offline || fails, seen := if n.offline || fails then n.seen else n.seen + {key})
  }

  /** RecordFailedDownload demotes the row of the url, whatever its status. */
  function Demoted(n: Now, url: string): Now {
    n.(downloaded := n.downloaded - {Trim(url)}, demoted := n.demoted + {Trim(url)} * n.downloaded)
  }

  function Recorded(n: Now, url: string): Now {
    n.(downloaded := n.downloaded + {Trim(url)},
       demoted := n.demoted - {Trim(url)},
       unpublished := n.unpublished + {Trim(url)})
  }

  /** What becomes of an item. */
  datatype Verdict = Download | Skip | Fail | Halt(error: bool)

  function Duplicate(n: Now, key: string, fails: bool): Now {
    Marked(n.(duplicates := n.duplicates + {key}), key, fails)
  }

  function MarkedRow(n: Now, key: string, fails: bool): Now { Marked(Recorded(n, key), key, fails) }

  /** The second half of a round: the item was resolved, and is checked, downloaded and recorded. */
  function ServedResolved(n: Now, item: Item, plan: Plan): (Now, Verdict) {
    var m := Offline(n, plan.hashReadFails);
    if plan.hashKnown && !m.offline then
      if plan.inboxFails then (m, Halt(true)) else (Duplicate(m, item.key, plan.markFails), Skip)
    else if plan.sourceFails then (m, Halt(true))
    else match plan.store
      case StoreError => (if plan.recordFails then m else Demoted(m, item.key), Fail)
      case Lost => (Duplicate(m, item.key, plan.markFails), Skip)
      case Won =>
        if plan.routingFails then (MarkedRow(m, item.key, plan.markFails), Halt(true))
        else (Offline(MarkedRow(m, item.key, plan.markFails), plan.hashMarkFails), Download)
  }

  /** One round of the item loop. */
  function ServedItem(n: Now, item: Item, plan: Plan): (Now, Verdict) {
    if plan.cancelled then (n, Halt(true))
    else if item.key == "" then (if plan.recordFails then n else Demoted(n, ""), Fail)
    else
      var m := Offline(n, plan.readFails);
      if !m.offline && item.key in m.seen then (m, Skip)
      else if plan.lookupFails then (m, Halt(true))
      else if KeptRow(item, m.downloaded) then (Marked(m, item.key, plan.markFails), Skip)
      else if plan.refusal.Some? then
        match plan.refusal.value
        case Permission => (m, Halt(false))
        case NotFound => if plan.recordFails then (m, Halt(true)) else (Demoted(m, item.key), Fail)
        case _ => (m, Halt(true))
      else ServedResolved(m, item, plan)
  }

  datatype Tally = Tally(added: nat, skipped: nat, failed: nat, halted: bool)

  /** Exactly one counter moves, or the run stops. */
  function Tallied(t: Tally, v: Verdict): Tally {
    match v
    case Download => t.(added := t.added + 1)
    case Skip => t.(skipped := t.skipped + 1)
    case Fail => t.(failed := t.failed + 1)
    case Halt(error) => t.(halted := t.halted || !error)
  }

  datatype End = Next | Stop(error: bool)

  function EndOf(v: Verdict): End { if v.Halt? then Stop(v.error) else Next }

  // ----- What a round does -----

  /** `known`: the seen set answers that it has the key; `kept`: a downloaded row stands under the key or the
      source URL; `hit`: the cache answers that the content is known. */
  function VerdictOf(item: Item, plan: Plan, known: bool, kept: bool, hit: bool): Verdict {
    if plan.cancelled then Halt(true)
    else if item.key == "" then Fail
    else if known then Skip
    else if plan.lookupFails then Halt(true)
    else if kept then Skip
    else if plan.refusal.Some? then
      match plan.refusal.value
      case Permission => Halt(false)
      case NotFound => if plan.recordFails then Halt(true) else Fail
      case _ => Halt(true)
    else if hit then (if plan.inboxFails then Halt(true) else Skip)
    else if plan.sourceFails then Halt(true)
    else match plan.store
      case StoreError => Fail
      case Lost => Skip
      case Won => if plan.routingFails then Halt(true) else Download
  }

  predicate IsKnown(n: Now, item: Item, plan: Plan) { !n.offline && !plan.readFails && item.key in n.seen }

  predicate IsHit(n: Now, plan: Plan) { !n.offline && !plan.readFails && !plan.hashReadFails && plan.hashKnown }

  /** A round ends as the verdict says. */
  lemma RoundFollowsVerdict(n: Now, item: Item, plan: Plan)
    ensures ServedItem(n, item, plan).1 ==
            VerdictOf(item, plan, IsKnown(n, item, plan), KeptRow(item, n.downloaded), IsHit(n, plan))
  {
    hide KeptRow, Trim, Marked, Demoted, Recorded;
  }

  /** Each counter moves for its own verdict, and only a permission that is refused halts the run. */
  lemma RoundMovesItsCounter(n: Now, item: Item, plan: Plan, t: Tally)
    ensures var v := VerdictOf(item, plan, IsKnown(n, item, plan), KeptRow(item, n.downloaded), IsHit(n, plan));
            Tallied(t, ServedItem(n, item, plan).1) ==
            Tally(t.added + (if v == Download then 1 else 0), t.skipped + (if v == Skip then 1 else 0),
                  t.failed + (if v == Fail then 1 else 0), t.halted || v == Halt(false))
  {
    hide ServedItem, VerdictOf, KeptRow, IsKnown, IsHit;
    RoundFollowsVerdict(n, item, plan);
  }

  /** What a round does with the cache.  It goes offline if and only if it was or a read or write it got to fails;
      an item that is downloaded, or skipped without being known, is marked if and only if it was marked already or
      the cache is there to be written to; and no other item is. */
  lemma RoundUsesTheCache(n: Now, item: Item, plan: Plan)
    ensures var (m, v) := ServedItem(n, item, plan);
            var kept := KeptRow(item, n.downloaded);
            var asked := n.offline || plan.readFails;
            var looked := asked || plan.hashReadFails;
            && (plan.cancelled || item.key == "" ==> m.offline == n.offline && m.seen == n.seen)
            && (v == Skip && IsKnown(n, item, plan) ==> m == n)
            && (v == Skip && !IsKnown(n, item, plan) ==>
                  && m.offline == ((if kept then asked else looked) || plan.markFails)
                  && m.seen == if m.offline then n.seen else n.seen + {item.key})
            && (v == Download ==>
                  && m.offline == (looked || plan.markFails || plan.hashMarkFails)
                  && m.seen == if looked || plan.markFails then n.seen else n.seen + {item.key})
            && (v == Fail && item.key != "" ==>
                  m.offline == (if plan.refusal.Some? then asked else looked) && m.seen == n.seen)
  {
    hide KeptRow, Trim;
  }

  /** What a verdict says of the books: a download is of a row that was not downloaded before, is now, and waits
      for a bump; a skipped item was seen, is kept, or is a recorded duplicate; a failed item is not marked;
      nothing but the item's key is ever marked; and without failures of the cache a downloaded item is. */
  ghost predicate BooksKept(n: Now, item: Item, plan: Plan, m: Now, v: Verdict) {
    && (v.Download? ==>
          && m.downloaded == n.downloaded + {Trim(item.key)} && m.unpublished == n.unpublished + {Trim(item.key)}
          && m.duplicates == n.duplicates
          && (!n.offline && !plan.readFails && !plan.hashReadFails && !plan.markFails ==> item.key in m.seen))
    && (v.Skip? ==>
          && m.downloaded == n.downloaded && m.unpublished == n.unpublished
          && (item.key in n.seen || KeptRow(item, m.downloaded) || item.key in m.duplicates))
    && (v.Fail? ==> m.seen == n.seen && m.duplicates == n.duplicates && m.unpublished == n.unpublished)
    && (m.seen == n.seen || m.seen == n.seen + {item.key})
  }

  lemma ResolvedKeepsBooks(n: Now, item: Item, plan: Plan)
    ensures var (m, v) := ServedResolved(n, item, plan); BooksKept(n, item, plan.(readFails := false), m, v)
  {
    hide KeptRow, Trim;
  }

  lemma RoundKeepsBooks(n: Now, item: Item, plan: Plan)
    ensures var (m, v) := ServedItem(n, item, plan);
            BooksKept(n, item, plan, m, v) && (v.Download? ==> !KeptRow(item, n.downloaded))
  {
    hide KeptRow, Trim, ServedResolved;
    ResolvedKeepsBooks(Offline(n, plan.readFails), item, plan);
  }

  // ----- Evidence for the seen set -----

  /** What may stand behind a seen item: the urls of downloaded rows and the recorded duplicates. */
  datatype Evident = Evident(downloaded: set<string>, duplicates: set<string>)

  /** The rows that can be an item's evidence: the one of its key and the one of its source URL. */
  function Rows(i: Item): set<string> {
    (if i.key != "" then {Trim(i.key)} else {}) + if i.alias != "" then {Trim(i.alias)} else {}
  }

  /** A downloaded row under the item's key or its source URL, or a recorded duplicate. */
  predicate IsEvident(e: Evident, i: Item) { i.key in e.duplicates || KeptRow(i, e.downloaded) }

  ghost predicate AllEvident(keys: set<string>, items: set<Item>, e: Evident) {
    forall k :: k in keys ==> exists i :: i in items && i.key == k && IsEvident(e, i)
  }

  /** Every key that was marked since `before` has its evidence. */
  ghost predicate IsSound(n: Now, presented: set<Item>, before: set<string>) {
    AllEvident(n.seen - before, presented, Evident(n.downloaded, n.duplicates))
  }

  /** Every such key has evidence when the demoted rows are counted in. */
  ghost predicate IsBacked(n: Now, presented: set<Item>, before: set<string>) {
    n.demoted !! n.downloaded && AllEvident(n.seen - before, presented, Evident(n.downloaded + n.demoted, n.duplicates))
  }

  /** More rows, more duplicates and more items only add evidence; a new key needs its own. */
  lemma EvidenceGrows(
      keys: set<string>, items: set<Item>, e: Evident, keys': set<string>, items': set<Item>, f: Evident)
    requires AllEvident(keys, items, e) && e.downloaded <= f.downloaded && e.duplicates <= f.duplicates &&
             items <= items'
    requires forall k :: k in keys' && k !in keys ==> exists i :: i in items' && i.key == k && IsEvident(f, i)
    ensures AllEvident(keys', items', f)
  {
    forall k | k in keys' ensures exists i :: i in items' && i.key == k && IsEvident(f, i) {
      if k in keys {
        var i :| i in items && i.key == k && IsEvident(e, i);
        assert IsEvident(f, i) && i in items';
      }
    }
  }

  /** Whatever is taken from the downloaded rows is among the demoted ones, rows and duplicates are only added,
      and an item that is marked has evidence. */
  ghost predicate OnlyAdds(n: Now, item: Item, m: Now) {
    && m.demoted !! m.downloaded && n.downloaded + n.demoted <= m.downloaded + m.demoted
    && n.duplicates <= m.duplicates && n.unpublished <= m.unpublished
    && (m.seen != n.seen ==> item.key in m.duplicates || KeptRow(item, m.downloaded))
  }

  lemma ResolvedOnlyAdds(n: Now, item: Item, plan: Plan)
    requires n.demoted !! n.downloaded && item.key != ""
    ensures OnlyAdds(n, item, ServedResolved(n, item, plan).0)
  {
    hide Trim;
  }

  lemma RoundOnlyAdds(n: Now, item: Item, plan: Plan)
    requires n.demoted !! n.downloaded
    ensures OnlyAdds(n, item, ServedItem(n, item, plan).0)
  {
    hide Trim, KeptRow, ServedResolved;
    if item.key != "" { ResolvedOnlyAdds(Offline(n, plan.readFails), item, plan); }
  }

  lemma RoundKeepsBacked(n: Now, item: Item, plan: Plan, presented: set<Item>, before: set<string>)
    requires IsBacked(n, presented, before) && item in presented
    ensures IsBacked(ServedItem(n, item, plan).0, presented, before)
  {
    hide ServedItem, Trim;
    var m := ServedItem(n, item, plan).0;
    RoundOnlyAdds(n, item, plan);
    RoundKeepsBooks(n, item, plan);
    EvidenceGrows(n.seen - before, presented, Evident(n.downloaded + n.demoted, n.duplicates),
                  m.seen - before, presented, Evident(m.downloaded + m.demoted, m.duplicates));
  }

  lemma PresentingKeepsBacked(n: Now, presented: set<Item>, more: set<Item>, before: set<string>)
    requires IsBacked(n, presented, before) && presented <= more
    ensures IsBacked(n, more, before)
  {
    var e := Evident(n.downloaded + n.demoted, n.duplicates);
    EvidenceGrows(n.seen - before, presented, e, n.seen - before, more, e);
  }

  /** A failure record for a url that no item has keeps what backs the marks. */
  lemma DemotingKeepsBacked(n: Now, url: string, presented: set<Item>, before: set<string>)
    requires IsBacked(n, presented, before)
    ensures IsBacked(Demoted(n, url), presented, before)
  {
    hide Trim;
    assert Demoted(n, url).downloaded + Demoted(n, url).demoted == n.downloaded + n.demoted;
  }

  lemma SameBacking(n: Now, m: Now, presented: set<Item>, before: set<string>)
    requires IsBacked(n, presented, before)
    requires m.seen == n.seen && m.downloaded == n.downloaded && m.demoted == n.demoted && m.duplicates == n.duplicates
    ensures IsBacked(m, presented, before)
  {}

  lemma BackedIsDisjoint(n: Now, presented: set<Item>, before: set<string>)
    requires IsBacked(n, presented, before)
    ensures n.demoted !! n.downloaded
  {}

  lemma NothingSeenYet(n: Now)
    requires n.demoted == {}
    ensures IsBacked(n, {}, n.seen)
  {}

  // ----- What failure records demote -----

  function DiscoveryKey(provider: string): string { provider + ":discovery-error" }

  /** What was demoted, from the rows downloaded at `first`: the row of the empty url, by an item without a
      key, and the discovery row, by a page that is gone. */
  ghost predicate IsDemotedBy(n: Now, provider: string, presented: set<Item>, first: set<string>, gone: bool) {
    && ("" in n.downloaded ==> "" in first)
    && n.demoted <= {""} * first + (if gone then {Trim(DiscoveryKey(provider))} else {})
    && ("" in n.demoted ==> exists i :: i in presented && i.key == "")
    && (gone ==> Trim(DiscoveryKey(provider)) !in n.downloaded)
  }

  /** Only a failure without a key demotes a downloaded row, and then the row of the empty url. */
  ghost predicate DemotesLittle(n: Now, item: Item, m: Now) {
    && m.demoted <= n.demoted + (if item.key == "" then {""} * n.downloaded else {})
    && ("" in m.downloaded ==> "" in n.downloaded)
  }

  lemma ResolvedDemotes(n: Now, item: Item, plan: Plan)
    requires Trim(item.key) != "" && Trim(item.key) !in n.downloaded && item.key != ""
    ensures DemotesLittle(n, item, ServedResolved(n, item, plan).0)
  {
    hide Trim;
  }

  lemma RoundDemotes(n: Now, item: Item, plan: Plan)
    requires IsKey(item.key)
    ensures DemotesLittle(n, item, ServedItem(n, item, plan).0)
  {
    hide Trim, IsKey, ServedResolved;
    TrimNothing();
    if item.key != "" {
      KeyIsNotBlank(item.key);
      if Trim(item.key) !in n.downloaded { ResolvedDemotes(Offline(n, plan.readFails), item, plan); }
    }
  }

  lemma RoundKeepsDemotedBy(n: Now, item: Item, plan: Plan, provider: string, presented: set<Item>, first: set<string>)
    requires IsDemotedBy(n, provider, presented, first, false) && IsKey(item.key) && item in presented
    ensures IsDemotedBy(ServedItem(n, item, plan).0, provider, presented, first, false)
  {
    hide ServedItem, Trim, IsKey;
    RoundDemotes(n, item, plan);
  }

  lemma PresentingKeepsDemoted(n: Now, provider: string, presented: set<Item>, more: set<Item>, first: set<string>)
    requires IsDemotedBy(n, provider, presented, first, false) && presented <= more
    ensures IsDemotedBy(n, provider, more, first, false)
  {
    if i :| i in presented && i.key == "" { assert i in more; }
  }

  /** The rows that the failure records of a run may demote. */
  function MadeUpRows(provider: string, keyless: bool, gone: bool): set<string> {
    (if keyless then {""} else {}) + if gone then {Trim(DiscoveryKey(provider))} else {}
  }

  /** A mark that a failure record has left without evidence: some item of the key has a row that was made up
      for a failure, and no item of the key has another row that is downloaded. */
  ghost predicate IsBereft(n: Now, key: string, presented: set<Item>, madeUp: set<string>) {
    && key !in n.duplicates
    && (exists i :: i in presented && i.key == key && Rows(i) * madeUp != {})
    && forall i :: i in presented && i.key == key ==> Rows(i) !! n.downloaded
  }

  /** Marks lose their evidence only to the failure records of items without a key and of a page that is gone. */
  lemma SoundExactlyWhen(
      n: Now, presented: set<Item>, before: set<string>, provider: string, first: set<string>, gone: bool)
    requires IsBacked(n, presented, before) && IsDemotedBy(n, provider, presented, first, gone)
    ensures var madeUp := MadeUpRows(provider, exists i :: i in presented && i.key == "", gone);
            IsSound(n, presented, before) <==> !exists k :: k in n.seen - before && IsBereft(n, k, presented, madeUp)
  {
    hide Trim;
    var madeUp := MadeUpRows(provider, exists i :: i in presented && i.key == "", gone);
    forall k | k in n.seen - before
      ensures IsBereft(n, k, presented, madeUp) <==>
              !exists i :: i in presented && i.key == k && IsEvident(Evident(n.downloaded, n.duplicates), i)
    {
      var i :| i in presented && i.key == k && IsEvident(Evident(n.downloaded + n.demoted, n.duplicates), i);
      OneKey(n, k, i, presented, madeUp);
    }
  }

  lemma OneKey(n: Now, key: string, i: Item, presented: set<Item>, madeUp: set<string>)
    requires i in presented && i.key == key && IsEvident(Evident(n.downloaded + n.demoted, n.duplicates), i) &&
             n.demoted <= madeUp
    ensures IsBereft(n, key, presented, madeUp) <==>
            !exists j :: j in presented && j.key == key && IsEvident(Evident(n.downloaded, n.duplicates), j)
  {
    hide Trim;
    var now := Evident(n.downloaded, n.duplicates);
    forall j: Item ensures key == j.key ==> (IsEvident(now, j) <==> key in n.duplicates || !(Rows(j) !! n.downloaded)) {
      RowsKeep(j, n.downloaded);
    }
    RowsKeep(i, n.downloaded + n.demoted);
    if key !in n.duplicates && Rows(i) !! n.downloaded {
      var r :| r in Rows(i) && r in n.downloaded + n.demoted;
      assert r in Rows(i) * madeUp;
    }
  }

  lemma RowsKeep(i: Item, downloaded: set<string>)
    ensures KeptRow(i, downloaded) <==> !(Rows(i) !! downloaded)
  {
    hide Trim;
    if KeptRow(i, downloaded) {
      var r := if i.key != "" && Trim(i.key) in downloaded then Trim(i.key) else Trim(i.alias);
      assert r in Rows(i) && r in downloaded;
    }
  }

  /** For a connector whose items have no second row: the marks are sound unless a page was gone and the row
      that its failure record names is a marked item's, which is not a recorded duplicate. */
  lemma SoundWithoutAliases(
      n: Now, presented: set<Item>, before: set<string>, provider: string, first: set<string>, gone: bool)
    requires IsBacked(n, presented, before) && IsDemotedBy(n, provider, presented, first, gone)
    requires forall i :: i in presented ==> i.alias == "" && IsKey(i.key)
    ensures IsSound(n, presented, before) <==>
            !(gone && exists k :: k in n.seen - before && k !in n.duplicates && Trim(k) == Trim(DiscoveryKey(provider)))
  {
    var madeUp := MadeUpRows(provider, exists i :: i in presented && i.key == "", gone);
    SoundExactlyWhen(n, presented, before, provider, first, gone);
    forall k | k in n.seen - before
      ensures IsBereft(n, k, presented, madeUp) <==>
              gone && k !in n.duplicates && Trim(k) == Trim(DiscoveryKey(provider))
    {
      var i :| i in presented && i.key == k && IsEvident(Evident(n.downloaded + n.demoted, n.duplicates), i);
      if k != "" { KeyIsNotBlank(k); }
      OnlyRow(n, k, i, presented, madeUp, provider, first, gone);
    }
  }

  lemma OnlyRow(
      n: Now, k: string, i: Item, presented: set<Item>, madeUp: set<string>, provider: string, first: set<string>,
        gone: bool)
    requires IsDemotedBy(n, provider, presented, first, gone)
    requires madeUp == MadeUpRows(provider, exists i :: i in presented && i.key == "", gone)
    requires i in presented && i.key == k && IsEvident(Evident(n.downloaded + n.demoted, n.duplicates), i)
    requires forall i :: i in presented ==> i.alias == ""
    requires k != "" ==> Trim(k) != ""
    ensures IsBereft(n, k, presented, madeUp) <==> gone && k !in n.duplicates && Trim(k) == Trim(DiscoveryKey(provider))
  {
    hide Trim;
    assert forall j :: j in presented && j.key == k ==> Rows(j) == if k != "" then {Trim(k)} else {};
    RowsKeep(i, n.downloaded + n.demoted);
    if k !in n.duplicates {
      assert k != "" && Rows(i) == {Trim(k)};
      if gone && Trim(k) == Trim(DiscoveryKey(provider)) { assert Trim(k) in Rows(i) * madeUp; }
    }
  }

  function PresentedBy(script: seq<PageReply>): set<Item> {
    set n, i | 0 <= n < |script| && script[n].Page? && i in script[n].items :: i
  }

  // ----- Runs that nothing hinders -----

  /** Nothing fails around the item, and its content is new. */
  predicate IsSmooth(plan: Plan) {
    && !plan.cancelled && !plan.readFails && !plan.lookupFails && plan.refusal.None? && !plan.hashReadFails &&
       !plan.hashKnown
    && !plan.sourceFails && plan.store.Won? && !plan.markFails && !plan.routingFails && !plan.hashMarkFails
  }

  predicate IsSmoothPage(reply: PageReply) {
    && reply.Page? && reply.hasNext && !reply.bumpFails && !reply.updateFails && !reply.saveFails
    && (forall p :: p in reply.plans ==> IsSmooth(p)) && forall i :: i in reply.items ==> i.key != ""
  }

  predicate IsSmoothUpTo(script: seq<PageReply>, n: nat)
    requires n <= |script|
  {
    forall k :: 0 <= k < n ==> IsSmoothPage(script[k])
  }

  function KeysOf(items: seq<Item>): set<string> { set i | i in items :: i.key }

  /** The cache is still in use, exactly these keys were marked, and nothing was filed as a duplicate. */
  ghost predicate IsUnhindered(n: Now, first: Now, keys: set<string>) {
    !n.offline && n.seen == first.seen + keys && n.duplicates == first.duplicates
  }

  lemma MoreKeys(items: seq<Item>, k: nat)
    requires k < |items|
    ensures KeysOf(items[..k + 1]) == KeysOf(items[..k]) + {items[k].key}
  {
    assert items[..k + 1] == items[..k] + [items[k]];
  }

  lemma KeysOfBoth(a: seq<Item>, b: seq<Item>)
    ensures KeysOf(a + b) == KeysOf(a) + KeysOf(b)
  {
    forall k ensures k in KeysOf(a + b) <==> k in KeysOf(a) + KeysOf(b) {
      if k in KeysOf(a) { var i :| i in a && i.key == k; assert i in a + b; }
      if k in KeysOf(b) { var i :| i in b && i.key == k; assert i in a + b; }
    }
  }

  lemma SmoothRound(n: Now, item: Item, plan: Plan)
    requires IsSmooth(plan) && item.key != "" && !n.offline
    ensures var (m, v) := ServedItem(n, item, plan); !v.Halt? && IsUnhindered(m, n, {item.key})
  {
    hide KeptRow, Trim;
  }

  // ----- The run -----

  datatype Round = Ended(error: bool) | Again(page: int, cursor: string)

  class Ingestor {
    const provider: string
    /** The cache: once offline its seen set is neither read nor written. */
    var offline: bool
    var seen: set<string>
    /** The catalog: urls with a downloaded row, and the dedupe keys recorded as duplicates. */
    var downloaded: set<string>
    var duplicates: set<string>
    /** The result. */
    var pagesProcessed: nat
    var photosFound: nat
    var photosDownloaded: nat
    var photosSkipped: nat
    var photosFailed: nat
    var halted: bool
    var cursor: string
    /** Every item a page of this run presented, and every save of the connector state. */
    ghost var presented: set<Item>
    ghost var saves: seq<Save>
    ghost var requested: seq<int>
    ghost var cursors: seq<string>
    /** Rows that a failure record demoted, and rows recorded since the epoch was last bumped. */
    ghost var demoted: set<string>
    ghost var unpublished: set<string>
    ghost var bumps: nat

    constructor (provider: string, offline: bool, seen: set<string>, downloaded: set<string>, duplicates: set<string>)
      ensures this.provider == provider && this.seen == seen && this.downloaded == downloaded &&
              this.duplicates == duplicates
      ensures this.offline == offline && IsFresh()
    {
      this.provider, this.offline, this.seen, this.downloaded, this.duplicates := provider, offline, seen, downloaded,
        duplicates;
      pagesProcessed, photosFound, photosDownloaded, photosSkipped, photosFailed := 0, 0, 0, 0, 0;
      halted, cursor := false, "";
      presented, saves, requested, cursors, demoted, unpublished, bumps := {}, [], [], [], {}, {}, 0;
    }

    /** A run that has not begun. */
    ghost predicate IsFresh()
      reads this
    {
      && pagesProcessed == 0 && photosFound == 0 && Served() == 0 && !halted
      && saves == [] && presented == {} && requested == [] && cursors == [] && demoted == {} && unpublished == {}
      && bumps == 0
    }

    function Served(): nat
      reads `photosDownloaded, `photosSkipped, `photosFailed
    {
      photosDownloaded + photosSkipped + photosFailed
    }

    ghost function Model(): Now
      reads `offline, `seen, `downloaded, `duplicates, `demoted, `unpublished
    {
      Now(offline, seen, downloaded, duplicates, demoted, unpublished)
    }

    ghost function Counts(): Tally
      reads `photosDownloaded, `photosSkipped, `photosFailed, `halted
    {
      Tally(photosDownloaded, photosSkipped, photosFailed, halted)
    }

    /** A read that fails takes the cache offline and answers no. */
    method Seen(key: string, fails: bool) returns (known: bool)
      modifies this`offline
      ensures offline == (old(offline) || fails) && (known <==> !offline && key in seen)
    {
      if offline { return false; }
      if fails {
        offline := true;
        return false;
      }
      known := key in seen;
    }

    method MarkSeen(key: string, fails: bool)
      modifies this`seen, this`offline
      ensures Model() == Marked(old(Model()), key, fails)
      ensures seen == (if old(offline) || fails then old(seen) else old(seen) + {key}) &&
              offline == (old(offline) || fails)
    {
      if offline { return; }
      if fails {
        offline := true;
        return;
      }
      seen := seen + {key};
    }

    /** RecordFailedDownload demotes the row of the url, whatever its status. */
    method RecordFailedDownload(url: string)
      modifies this`downloaded, this`demoted
      ensures Model() == Demoted(old(Model()), url)
      ensures downloaded == old(downloaded) - {Trim(url)} && demoted == old(demoted) + {Trim(url)} * old(downloaded)
    {
      demoted := demoted + {Trim(url)} * downloaded;
      downloaded := downloaded - {Trim(url)};
    }

    method IsMediaAlreadyKept(item: Item) returns (kept: bool)
      ensures kept <==> KeptRow(item, downloaded)
    {
      if item.key != "" && Trim(item.key) in downloaded { return true; }
      kept := item.alias != "" && Trim(item.alias) in downloaded;
    }

    /** handleProviderError: None when the caller goes on to its own handling of the error. */
    method HandleProviderError(key: string, kind: Kind, recordFails: bool, backoffFails: bool)
      returns (stop: Option<End>)
      modifies this`downloaded, this`demoted, this`photosFailed, this`halted
      ensures kind.Permission? ==> stop == Some(Stop(false)) && halted
      ensures !kind.Permission? ==> halted == old(halted) && (stop.Some? ==> stop.value == Stop(true))
      ensures var url := if key == "" then DiscoveryKey(provider) else key;
              Model() == if kind.NotFound? && !recordFails then Demoted(old(Model()), url) else old(Model())
      ensures kind.NotFound? ==> (stop.Some? <==> recordFails)
      ensures photosFailed == old(photosFailed) + if kind.NotFound? && !recordFails then 1 else 0
      ensures kind.Temporary? ==> (stop.Some? <==> backoffFails)
      ensures kind.Other? ==> stop == Some(Stop(true))
    {
      match kind
      case Temporary =>
        if backoffFails { return Some(Stop(true)); }
        return None;
      case NotFound =>
        var url := if key == "" then DiscoveryKey(provider) else key;
        if recordFails { return Some(Stop(true)); }
        RecordFailedDownload(url);
        photosFailed := photosFailed + 1;
        return None;
      case Permission =>
        halted := true;
        return Some(Stop(false));
      case Other =>
        return Some(Stop(true));
    }

    /** A duplicate was filed in the inbox. */
    method MarkDuplicate(key: string, fails: bool)
      modifies this`duplicates, this`seen, this`offline
      ensures Model() == Duplicate(old(Model()), key, fails)
    {
      duplicates := duplicates + {key};
      MarkSeen(key, fails);
    }

    /** A download was recorded. */
    method MarkRow(key: string, fails: bool)
      modifies this`downloaded, this`demoted, this`unpublished, this`seen, this`offline
      ensures Model() == MarkedRow(old(Model()), key, fails)
    {
      downloaded, demoted := downloaded + {Trim(key)}, demoted - {Trim(key)};
      unpublished := unpublished + {Trim(key)};
      MarkSeen(key, fails);
    }

    /** The second half of a round. */
    method ServeResolved(item: Item, plan: Plan) returns (end: End)
      requires item.key != ""
      modifies this`offline, this`seen, this`downloaded, this`duplicates, this`demoted, this`unpublished,
               this`photosDownloaded, this`photosSkipped, this`photosFailed
      ensures var (m, v) := ServedResolved(old(Model()), item, plan);
              Model() == m && Counts() == Tallied(old(Counts()), v) && end == EndOf(v)
    {
      hide Trim, Marked, Demoted, Duplicate, MarkedRow;
      if plan.hashReadFails { offline := true; }
      if plan.hashKnown && !offline {
        if plan.inboxFails { return Stop(true); }
        MarkDuplicate(item.key, plan.markFails);
        photosSkipped := photosSkipped + 1;
        return Next;
      }
      if plan.sourceFails { return Stop(true); }
      match plan.store {
        case StoreError =>
          if !plan.recordFails { RecordFailedDownload(item.key); }
          photosFailed := photosFailed + 1;
          return Next;
        case Lost =>
          MarkDuplicate(item.key, plan.markFails);
          photosSkipped := photosSkipped + 1;
          return Next;
        case Won =>
          MarkRow(item.key, plan.markFails);
          if plan.routingFails { return Stop(true); }
          if plan.hashMarkFails { offline := true; }
          photosDownloaded := photosDownloaded + 1;
          return Next;
      }
    }

    /** One round of the item loop. */
    method ServeItem(item: Item, plan: Plan) returns (end: End)
      modifies this`offline, this`seen, this`downloaded, this`duplicates, this`demoted, this`unpublished,
               this`photosDownloaded, this`photosSkipped, this`photosFailed, this`halted
      ensures var (m, v) := ServedItem(old(Model()), item, plan);
              Model() == m && Counts() == Tallied(old(Counts()), v) && end == EndOf(v)
    {
      hide Trim, KeptRow, ServedResolved, Marked, Demoted;
      if plan.cancelled { return Stop(true); }
      if item.key == "" {
        if !plan.recordFails { RecordFailedDownload(""); }
        photosFailed := photosFailed + 1;
        return Next;
      }
      var known := Seen(item.key, plan.readFails);
      if known {
        photosSkipped := photosSkipped + 1;
        return Next;
      }
      if plan.lookupFails { return Stop(true); }
      var kept := IsMediaAlreadyKept(item);
      if kept {
        MarkSeen(item.key, plan.markFails);
        photosSkipped := photosSkipped + 1;
        return Next;
      }
      if plan.refusal.Some? {
        var stop := HandleProviderError(item.key, plan.refusal.value, plan.recordFails, plan.backoffFails);
        if stop.Some? { return stop.value; }
        if plan.refusal.value.Temporary? { return Stop(true); }
        return Next;
      }
      end := ServeResolved(item, plan);
    }

    /** The marks are backed, and only items without a key, and a page that is `gone`, have demoted a row. */
    ghost predicate Accounted(script: seq<PageReply>, before: set<string>, first: set<string>, gone: bool)
      reads `presented, `offline, `seen, `downloaded, `duplicates, `demoted, `unpublished
    {
      && IsBacked(Model(), presented, before) && presented <= PresentedBy(script)
      && IsDemotedBy(Model(), provider, presented, first, gone)
    }

    /** The round within a page of the script. */
    method ServeNext(
        item: Item, plan: Plan, ghost script: seq<PageReply>, ghost before: set<string>, ghost first: set<string>)
      returns (end: End)
      requires item in presented && IsKey(item.key) && !halted && Accounted(script, before, first, false)
      modifies this`offline, this`seen, this`downloaded, this`duplicates, this`demoted, this`unpublished,
               this`photosDownloaded, this`photosSkipped, this`photosFailed, this`halted
      ensures Accounted(script, before, first, false)
      ensures end.Next? ==> Served() == old(Served()) + 1 && !halted
      ensures end.Stop? ==> Served() == old(Served()) && end.error == !halted
      ensures photosDownloaded >= old(photosDownloaded) && (end.Stop? ==> photosDownloaded == old(photosDownloaded))
      ensures photosDownloaded > old(photosDownloaded) || old(unpublished) != {} ==> unpublished != {}
      ensures end.Next? && photosDownloaded == old(photosDownloaded) ==> unpublished == old(unpublished)
      ensures IsSmooth(plan) && item.key != "" && !old(offline) ==>
              end == Next && IsUnhindered(Model(), old(Model()), {item.key})
    {
      hide IsBacked, IsDemotedBy, PresentedBy, KeptRow, IsKey, ServedItem, IsSmooth, Trim;
      ghost var n := Model();
      assert n.demoted !! n.downloaded by { BackedIsDisjoint(n, presented, before); }
      RoundKeepsBooks(n, item, plan);
      RoundOnlyAdds(n, item, plan);
      RoundKeepsBacked(n, item, plan, presented, before);
      RoundKeepsDemotedBy(n, item, plan, provider, presented, first);
      if IsSmooth(plan) && item.key != "" && !offline { SmoothRound(n, item, plan); }
      end := ServeItem(item, plan);
    }

    /** A page was listed. */
    method Present(items: seq<Item>, ghost script: seq<PageReply>, ghost before: set<string>, ghost first: set<string>)
      requires Accounted(script, before, first, false) && (set i | i in items) <= PresentedBy(script)
      modifies this`presented, this`photosFound
      ensures Accounted(script, before, first, false)
      ensures presented == old(presented) + (set i | i in items) && photosFound == old(photosFound) + |items|
    {
      hide IsBacked, IsDemotedBy, PresentedBy;
      photosFound := photosFound + |items|;
      PresentingKeepsBacked(Model(), presented, presented + (set i | i in items), before);
      PresentingKeepsDemoted(Model(), provider, presented, presented + (set i | i in items), first);
      presented := presented + (set i | i in items);
    }

    /** The epoch is bumped after the items of a page. */
    method BumpEpoch(fails: bool, ghost script: seq<PageReply>, ghost before: set<string>, ghost first: set<string>)
      requires Accounted(script, before, first, false)
      modifies this`offline, this`unpublished, this`bumps
      ensures offline == (old(offline) || fails) && unpublished == {} && Accounted(script, before, first, false)
      ensures bumps == old(bumps) + 1
    {
      hide PresentedBy;
      unpublished, bumps := {}, bumps + 1;
      if offline { return; }
      if fails { offline := true; }
    }

    /** The item loop of one page, up to the end of the page or the first item that stops the run. */
    method ServePage(
        items: seq<Item>, plans: seq<Plan>, ghost script: seq<PageReply>, ghost before: set<string>,
        ghost first: set<string>)
      returns (end: End, ghost done: seq<Item>)
      requires |plans| == |items| && (forall i :: i in items ==> IsKey(i.key)) && !halted
      requires Accounted(script, before, first, false) && (set i | i in items) <= PresentedBy(script)
      modifies this`offline, this`seen, this`downloaded, this`duplicates, this`demoted, this`unpublished,
               this`presented,
               this`photosFound, this`photosDownloaded, this`photosSkipped, this`photosFailed, this`halted
      ensures Accounted(script, before, first, false)
      ensures done <= items && Served() == old(Served()) + |done| && photosFound == old(photosFound) + |items|
      ensures presented == old(presented) + (set i | i in items)
      ensures end.Next? ==> done == items && !halted
      ensures end.Stop? ==> end.error == !halted && |done| < |items|
      ensures photosDownloaded >= old(photosDownloaded) &&
              (photosDownloaded > old(photosDownloaded) ==> unpublished != {})
      ensures end.Next? && photosDownloaded == old(photosDownloaded) ==> unpublished == old(unpublished)
      ensures (forall p :: p in plans ==> IsSmooth(p)) && (forall i :: i in items ==> i.key != "") && !old(offline) ==>
                end == Next && IsUnhindered(Model(), old(Model()), KeysOf(items))
    {
      hide Ingestor.Accounted, PresentedBy, IsSmooth, IsKey;
      Present(items, script, before, first);
      done := [];
      for k := 0 to |items|
        invariant done == items[..k] && Served() == old(Served()) + |done| && !halted &&
                  Accounted(script, before, first, false)
        invariant presented == old(presented) + (set i | i in items) && photosFound == old(photosFound) + |items|
        invariant photosDownloaded >= old(photosDownloaded) &&
                  (photosDownloaded > old(photosDownloaded) ==> unpublished != {})
        invariant photosDownloaded == old(photosDownloaded) ==> unpublished == old(unpublished)
        invariant (forall p :: p in plans ==> IsSmooth(p)) && (forall i :: i in items ==> i.key != "") &&
                  !old(offline) ==>
                    IsUnhindered(Model(), old(Model()), KeysOf(items[..k]))
      {
        end := ServeNext(items[k], plans[k], script, before, first);
        if end.Stop? { return; }
        MoreKeys(items, k);
        done := done + [items[k]];
      }
      assert items[..|items|] == items;
      end := Next;
    }

    /** A page that could not be listed ends the run; only a page that is gone counts as a failure. */
    method RefusePage(
        reply: PageReply, ghost script: seq<PageReply>, ghost before: set<string>, ghost first: set<string>)
      requires reply.PageRefused? && !halted && Accounted(script, before, first, false)
      modifies this`downloaded, this`demoted, this`photosFailed, this`halted
      ensures Accounted(script, before, first, IsGone(reply)) && (halted <==> reply.kind.Permission?)
      ensures Served() == old(Served()) + if IsGone(reply) then 1 else 0
    {
      hide PresentedBy, Trim, IsBacked;
      KeyIsNotBlank(DiscoveryKey(provider));
      ghost var n := Model();
      if IsGone(reply) { DemotingKeepsBacked(n, DiscoveryKey(provider), presented, before); }
      var stop := HandleProviderError("", reply.kind, reply.recordFails, reply.backoffFails);
      ghost var m := if IsGone(reply) then Demoted(n, DiscoveryKey(provider)) else n;
      SameBacking(m, Model(), presented, before);
    }

  /** Moves the cursor past a page that was served, and saves it unless that fails. */
    method SavePosition(reply: PageReply, ghost start: string, ghost script: seq<PageReply>, ghost n: nat)
      requires n < |script| && reply.Page? && reply == script[n]
      requires cursor == CursorAfter(start, script, n) && SavesAreTrue(start, script, saves, n)
      modifies this`cursor, this`saves
      ensures cursor == CursorAfter(start, script, n + 1) && SavesAreTrue(start, script, saves, n + 1)
      ensures saves == old(saves) + if reply.saveFails then [] else [Save(cursor, n + 1)]
      ensures ItemsOf(script, n + 1) == ItemsOf(script, n) + reply.items
    {
      hide SavesAreTrue;
      PageServed(start, script, n);
      SavesStayTrue(start, script, saves, n + 1);
      if reply.nextCursor != "" { cursor := reply.nextCursor; }
      if reply.saveFails { return; }
      SaveIsTrue(start, script, saves, n + 1);
      saves := saves + [Save(cursor, n + 1)];
    }

    /** The page to request after `reply`, and the cursor to request it with; None ends the run. */
    method ChoosePage(opts: Options, reply: PageReply) returns (next: Option<int>, with: string)
      requires reply.Page?
      ensures next.None? <==> NothingFollows(opts, reply, pagesProcessed)
      ensures next.Some? ==> Follows(opts, reply, pagesProcessed, next.value, with)
    {
      if !reply.hasNext { return None, ""; }
      with := reply.nextCursor;
      var chosen := reply.nextPage;
      if chosen == 0 { chosen := pagesProcessed + 1; }
      if !PageAllowed(opts, chosen) {
        next := NextAllowed(opts.allowed, chosen);
        NextAllowedIsBeyond(opts.allowed, chosen);
        if next.None? { return; }
        if SortedInts(opts.allowed) { NextAllowedIsLeast(opts.allowed, chosen); }
        return next, "";
      }
      return Some(chosen), with;
    }

    /** What holds at every moment of a run: the cursor, of the result and of every save on the way, is the
        position after pages that were served to their last item; what was marked seen is backed. */
    ghost predicate Durable(start: string, script: seq<PageReply>, completed: nat)
      reads `cursor, `saves
    {
      && completed <= |script| && cursor == CursorAfter(start, script, completed)
      && SavesAreTrue(start, script, saves, completed) && forall k :: 0 <= k < completed ==> script[k].Page?
    }

    /** The items of a page, and then the epoch. */
    method ServeAndPublish(
        reply: PageReply, ghost script: seq<PageReply>, ghost before: set<string>, ghost first: set<string>)
      returns (end: End, ghost served: seq<Item>)
      requires reply.Page? && PageOk(reply) && !halted && unpublished == {}
      requires Accounted(script, before, first, false) && (set i | i in reply.items) <= PresentedBy(script)
      modifies this`offline, this`seen, this`downloaded, this`duplicates, this`demoted, this`unpublished, this`bumps,
               this`presented,
               this`photosFound, this`photosDownloaded, this`photosSkipped, this`photosFailed, this`halted
      ensures Accounted(script, before, first, false)
      ensures served <= reply.items && Served() == old(Served()) + |served| &&
              photosFound == old(photosFound) + |reply.items|
      ensures end.Next? ==> served == reply.items && !halted && unpublished == {}
      // the epoch is bumped once for a page that was served to its end and brought something, and never else
      ensures bumps == old(bumps) + if end.Next? && photosDownloaded > old(photosDownloaded) then 1 else 0
      ensures end.Stop? ==> end.error == !halted && |served| < |reply.items|
      ensures end.Stop? && photosDownloaded > old(photosDownloaded) ==> unpublished != {}
      ensures IsSmoothPage(reply) && !old(offline) ==>
              end == Next && IsUnhindered(Model(), old(Model()), KeysOf(reply.items))
    {
      hide PresentedBy, Ingestor.Accounted, IsSmooth, KeysOf, IsKey;
      var added := photosDownloaded;
      end, served := ServePage(reply.items, reply.plans, script, before, first);
      if end.Stop? { return; }
      if photosDownloaded > added { BumpEpoch(reply.bumpFails, script, before, first); }
    }

    /** One round of the page loop; `served` are the items served in it. */
    method OnePage(
        opts: Options, page: int, from: string, reply: PageReply, ghost start: string,
        ghost script: seq<PageReply>, ghost before: set<string>, ghost first: set<string>)
      returns (round: Round, ghost served: seq<Item>, ghost completed: nat)
      requires pagesProcessed == |requested| < |script| && reply == script[pagesProcessed] && WellFormed(script)
      requires Durable(start, script, pagesProcessed) && !halted
      requires |cursors| == |requested| && Asks(opts, start, script, requested + [page], cursors + [from])
      requires Accounted(script, before, first, false) && unpublished == {}
      modifies this
      ensures requested == old(requested) + [page] && cursors == old(cursors) + [from]
      ensures Durable(start, script, completed)
      ensures Accounted(script, before, first, IsGone(reply))
      ensures IsGone(reply) ==> round.Ended? && completed == old(pagesProcessed)
      ensures completed == old(pagesProcessed) ||
              (completed == old(pagesProcessed) + 1 && reply.Page? && served == reply.items)
      ensures round.Again? ==>
                && completed == pagesProcessed == |requested| && !halted
                && Asks(opts, start, script, requested + [round.page], cursors + [round.cursor])
                && Accounted(script, before, first, false)
      ensures round == Ended(false) && !halted ==> IsExhausted(opts, script, |requested|)
      ensures round == Ended(true) ==>
                !(IsExhausted(opts, script, |requested|) && IsSettled(script, |requested|, completed))
      ensures round.Again? ==> !IsExhausted(opts, script, |requested|)
      // the downloads of the page are followed by a bump if and only if its item loop reached the end
      ensures reply.Page? && served == reply.items ==> unpublished == {}
      ensures bumps == old(bumps) +
                       if reply.Page? && served == reply.items && photosDownloaded > old(photosDownloaded) then 1 else 0
      ensures reply.Page? && served != reply.items && photosDownloaded > old(photosDownloaded) ==> unpublished != {}
      ensures |served| <= Served() - old(Served()) <= |served| + 1
      ensures halted ==> round == Ended(false)
      ensures round != Ended(true) && !halted ==>
                photosFound - old(photosFound) == |served| == Served() - old(Served()) &&
                  (reply.Page? ==> served == reply.items)
      ensures IsSmoothPage(reply) && opts.allowed == [] && !old(offline) ==>
                round.Again? && completed == old(pagesProcessed) + 1 &&
                  IsUnhindered(Model(), old(Model()), KeysOf(reply.items))
      ensures reply.PageRefused? ==>
                completed == old(pagesProcessed) && round.Ended? && seen == old(seen) && duplicates == old(duplicates)
    {
      hide CursorAfter, ItemsOf, SavesAreTrue, Asks, Follows, PageOk, WellFormed, PresentedBy, Trim, Ingestor.Accounted,
           IsSmooth, KeysOf;
      PagesOk(script, pagesProcessed);
      requested, cursors, served, completed := requested + [page], cursors + [from], [], pagesProcessed;
      if reply.NoPage? { return Ended(false), served, completed; }
      if reply.PageRefused? {
        RefusePage(reply, script, before, first);
        return Ended(!halted), served, completed;
      }
      ComesFromScript(script, pagesProcessed);
      pagesProcessed := pagesProcessed + 1;
      var end;
      end, served := ServeAndPublish(reply, script, before, first);
      if end.Stop? { return Ended(end.error), served, completed; }
      if reply.updateFails { return Ended(true), served, completed; }
      SavePosition(reply, start, script, completed);
      completed := completed + 1;
      if reply.saveFails { return Ended(true), served, completed; }
      var next, with := ChoosePage(opts, reply);
      if next.None? { return Ended(false), served, completed; }
      AsksOn(opts, start, script, requested, cursors, next.value, with);
      round := Again(next.value, with);
    }

    lemma BeginAccounts(script: seq<PageReply>)
      requires presented == {} && demoted == {}
      ensures Accounted(script, seen, downloaded, false)
    {
      NothingSeenYet(Model());
    }

    /** The last page that was asked for is gone. */
    ghost predicate IsLastGone(script: seq<PageReply>)
      reads `requested
    {
      0 < |requested| <= |script| && IsGone(script[|requested| - 1])
    }

    /** ingestPages.  `completed` pages were served to the last item; `handled` are the items served. */
    method IngestPages(opts: Options, startCursor: string, script: seq<PageReply>)
      returns (error: bool, ghost completed: nat, ghost handled: seq<Item>)
      requires WellFormed(script) && IsFresh()
      modifies this
      ensures Durable(startCursor, script, completed) && ItemsOf(script, completed) <= handled
      ensures Accounted(script, old(seen), old(downloaded), IsLastGone(script))
      // conservation
      ensures |handled| <= Served() <= |handled| + 1 && (!error && !halted ==> photosFound == Served() == |handled|)
      ensures halted ==> !error
      // downloads wait for a bump only when the last page was not served to its end
      ensures unpublished != {} ==> |requested| == completed + 1
      // paging
      ensures |requested| <= |script| && Asks(opts, startCursor, script, requested, cursors)
      ensures Advances(script, requested) ==>
                StrictlyIncreasing(requested) && (Paged(opts) ==> forall p :: p in requested ==> p in opts.allowed)
      ensures !error && !halted ==> IsExhausted(opts, script, |requested|)
      ensures error ==> !(IsExhausted(opts, script, |requested|) && IsSettled(script, |requested|, completed))
      // nothing is left out: when nothing hinders the first pages and the next one is refused, their items are marked
      ensures IsServedUpToRefusal(opts, script, old(Model()), Model(), completed, |requested|)
    {
      hide Ingestor.Accounted, CursorAfter, ItemsOf, SavesAreTrue, Asks, Advances, StrictlyIncreasing, Paged;
      hide IsExhausted, IsSettled, IsSmoothPage, KeysOf, IsGone, WellFormed, IsRefusedAt, IsSmoothUpTo, IsUnhindered,
           IsServedUpToRefusal;
      cursor := startCursor;
      var page, from := opts.startPage, startCursor;
      completed, handled := 0, [];
      ghost var before, first, start := seen, downloaded, Model();
      BeginAccounts(script);
      BeginUnhindered(script, start);
      AsksFirst(opts, startCursor, script);
      NotExhaustedAtFirst(opts, script);
      NoSaves(startCursor, script);
      NothingServed(startCursor, script);
      while pagesProcessed < |script|
        invariant completed == pagesProcessed == |requested| <= |script|
        invariant Durable(startCursor, script, completed) && handled == ItemsOf(script, completed)
        invariant photosFound == Served() == |handled| && !halted && Accounted(script, before, first, false)
        invariant |cursors| == |requested| && Asks(opts, startCursor, script, requested + [page], cursors + [from])
        invariant unpublished == {} && !IsLastGone(script) && !IsExhausted(opts, script, |requested|)
        invariant IsSmoothUpTo(script, completed) && opts.allowed == [] && !start.offline ==>
                    IsUnhindered(Model(), start, KeysOf(ItemsOf(script, completed)))
      {
        ghost var was := Model();
        var reply := script[pagesProcessed];
        if reply.Page? { PageServed(startCursor, script, completed); }
        var round;
        ghost var served;
        round, served, completed := OnePage(opts, page, from, reply, startCursor, script, before, first);
        handled := handled + served;
        if round.Ended? {
          AskedSoFar(opts, startCursor, script, requested, cursors);
          EndsAtRefusal(opts, script, |requested| - 1, start, was, Model(), completed);
          return round.error, completed, handled;
        }
        StaysUnhindered(opts, script, completed - 1, start, was, Model());
        page, from := round.page, round.cursor;
      }
      AsksBefore(opts, startCursor, script, requested, cursors, page, from);
      AskedSoFar(opts, startCursor, script, requested, cursors);
      NothingRefused(opts, script, start, Model());
      return true, completed, handled;
    }

    /** RunConnectorWithOptions from the loaded state on: the final save carries the result's cursor, however
        the run ended, unless that save fails. */
    method RunConnector(
        options: Options, startCursor: string, script: seq<PageReply>, finishFails: bool, lastSaveFails: bool)
      returns (error: bool, ghost completed: nat, ghost handled: seq<Item>)
      requires WellFormed(script) && IsFresh()
      modifies this
      ensures completed <= |script| && ItemsOf(script, completed) <= handled
      ensures SavesAreTrue(startCursor, script, saves, completed)
      ensures !lastSaveFails ==>
              saves != [] && saves[|saves| - 1] == Save(CursorAfter(startCursor, script, completed), completed)
      ensures finishFails || lastSaveFails ==> error
      ensures presented <= PresentedBy(script)
      // the marks of the run are sound unless a failure record without an item's key has demoted what a mark rests on
      ensures var madeUp := MadeUpRows(provider, exists i :: i in presented && i.key == "", IsLastGone(script));
              IsSound(Model(), presented, old(seen)) <==>
                !exists k :: k in seen - old(seen) && IsBereft(Model(), k, presented, madeUp)
      // without aliases: unless the last page was gone and the row that its failure record names is a marked item's
      ensures (forall i :: i in presented ==> i.alias == "") ==>
                (IsSound(Model(), presented, old(seen)) <==>
                  !(IsLastGone(script) &&
                    exists k :: k in seen - old(seen) && k !in duplicates && Trim(k) == Trim(DiscoveryKey(provider))))
      ensures |handled| <= Served() <= |handled| + 1 && (!error && !halted ==> photosFound == Served() == |handled|)
      // the requests, what ends them, and how many there can be
      ensures |requested| <= |script| && Asks(Normalize(options), startCursor, script, requested, cursors)
      ensures !error && !halted ==> IsExhausted(Normalize(options), script, |requested|)
      ensures error ==>
                finishFails || lastSaveFails ||
                  !(IsExhausted(Normalize(options), script, |requested|) && IsSettled(script, |requested|, completed))
      ensures Advances(script, requested) ==> StrictlyIncreasing(requested)
      ensures options.allowed != [] && options.startPage <= 1 && Advances(script, requested) ==>
                |requested| <= |set p | p in options.allowed|
      ensures unpublished != {} ==> |requested| == completed + 1
      ensures IsServedUpToRefusal(Normalize(options), script, old(Model()), Model(), completed, |requested|)
    {
      hide Ingestor.Accounted, IsServedUpToRefusal, CursorAfter, ItemsOf, IsBereft, IsSound, IsGone, WellFormed;
      hide Normalize, Paged, Advances, StrictlyIncreasing, SavesAreTrue, MadeUpRows, PresentedBy, Trim, Asks,
           IsExhausted, IsSettled;
      var opts := Normalize(options);
      AllowedStay(options);
      error, completed, handled := IngestPages(opts, startCursor, script);
      if options.allowed != [] && options.startPage <= 1 && Advances(script, requested) {
        IncreasingFits(requested, set p | p in options.allowed);
      }
      Soundness(script, old(seen), old(downloaded), IsLastGone(script));
      if finishFails { error := true; }
      if lastSaveFails { return true, completed, handled; }
      SaveIsTrue(startCursor, script, saves, completed);
      saves := saves + [Save(cursor, completed)];
    }

    lemma Soundness(script: seq<PageReply>, before: set<string>, first: set<string>, gone: bool)
      requires Accounted(script, before, first, gone) && WellFormed(script)
      ensures var madeUp := MadeUpRows(provider, exists i :: i in presented && i.key == "", gone);
              IsSound(Model(), presented, before) <==>
                !exists k :: k in seen - before && IsBereft(Model(), k, presented, madeUp)
      ensures (forall i :: i in presented ==> i.alias == "") ==>
                (IsSound(Model(), presented, before) <==>
                  !(gone &&
                    exists k :: k in seen - before && k !in duplicates && Trim(k) == Trim(DiscoveryKey(provider))))
      ensures presented <= PresentedBy(script)
    {
      hide IsBereft, IsSound, IsBacked, IsDemotedBy, Trim, IsKey;
      SoundExactlyWhen(Model(), presented, before, provider, first, gone);
      if forall i :: i in presented ==> i.alias == "" {
        forall i | i in presented ensures IsKey(i.key) { assert i in PresentedBy(script); }
        SoundWithoutAliases(Model(), presented, before, provider, first, gone);
      }
    }
  }

  /** Normalizing keeps which pages are allowed, and a run that does not say where to start begins with one. */
  lemma AllowedStay(o: Options)
    ensures var n := Normalize(o);
            && (n.allowed == [] <==> o.allowed == []) && SortedInts(n.allowed)
            && (forall p :: p in n.allowed <==> p in o.allowed)
            && (o.allowed != [] && o.startPage <= 1 ==>
                  Paged(n) && forall p :: p in o.allowed ==> n.startPage <= p)
            && (o.allowed == [] || o.startPage > 1 ==> n.startPage == if o.startPage <= 0 then 1 else o.startPage)
  {
    if o.allowed != [] {
      SortIntsHolds(o.allowed);
      SameElements(o.allowed, SortInts(o.allowed));
      assert o.allowed[0] in SortInts(o.allowed);
    }
  }

  /** A run on which soundness fails: an item whose value is the name of discovery errors is downloaded and
      marked, then a page is gone, and the failure record for it demotes the item's row. */
  method GonePageLosesItsMark(provider: string) returns (run: Ingestor)
    requires provider != ""
    ensures run.provider == provider && run.seen == {provider + ":discovery-error"} && run.duplicates == {}
    ensures !IsSound(run.Model(), run.presented, {})
  {
    var item := Item(StableDedupeKey(provider, "discovery-error"), "");
    var plan := Plan(false, false, false, None, false, false, false, false, false, false, StoreReply.Won, false, false,
      false);
    var page := Page([item], [plan], "", 2, true, false, false, false);
    var script := [page, PageRefused(NotFound, false, false)];
    assert item.key == DiscoveryKey(provider);
    OneItemPage(script, item);
    run := new Ingestor(provider, false, {}, {}, {});
    hide Ingestor.Accounted, IsSound, IsBereft, Trim, WellFormed, KeysOf, ItemsOf, CursorAfter;
    assert forall i :: i in PresentedBy(script) ==> i.alias == "";
    var error;
    ghost var completed, handled;
    error, completed, handled := run.RunConnector(Options(1, []), "", script, false, false);
    assert item.key in run.seen - {};
  }

  lemma OneItemPage(script: seq<PageReply>, item: Item)
    requires |script| == 2 && script[0].Page? && script[0].items == [item] && IsSmoothPage(script[0]) &&
             script[1].PageRefused?
    requires IsKey(item.key) && |script[0].plans| == 1
    ensures WellFormed(script) && IsRefusedAt(Normalize(Options(1, [])), script, 1)
    ensures KeysOf(ItemsOf(script, 1)) == {item.key} && PresentedBy(script) == {item}
  {
    assert ItemsOf(script, 0) == [];
    assert ItemsOf(script, 1) == [item];
  }

  lemma PagesOk(script: seq<PageReply>, n: nat)
    requires WellFormed(script) && n < |script|
    ensures script[n].Page? ==>
              PageOk(script[n]) && |script[n].plans| == |script[n].items| && forall i :: i in script[n].items ==>
                IsKey(i.key)
  {}

  lemma ComesFromScript(script: seq<PageReply>, n: nat)
    requires n < |script| && script[n].Page?
    ensures (set i | i in script[n].items) <= PresentedBy(script)
  {
  }

  lemma BeginUnhindered(script: seq<PageReply>, start: Now)
    ensures !start.offline ==> IsUnhindered(start, start, KeysOf(ItemsOf(script, 0)))
  {}

  /** One more smooth page. */
  lemma StaysUnhindered(opts: Options, script: seq<PageReply>, m: nat, start: Now, was: Now, now: Now)
    requires m < |script| && script[m].Page?
    requires IsSmoothUpTo(script, m) && opts.allowed == [] && !start.offline ==>
             IsUnhindered(was, start, KeysOf(ItemsOf(script, m)))
    requires IsSmoothPage(script[m]) && opts.allowed == [] && !was.offline ==>
             IsUnhindered(now, was, KeysOf(script[m].items))
    ensures IsSmoothUpTo(script, m + 1) && opts.allowed == [] && !start.offline ==>
              IsUnhindered(now, start, KeysOf(ItemsOf(script, m + 1)))
  {
    hide KeysOf, IsSmoothPage;
    KeysOfBoth(ItemsOf(script, m), script[m].items);
  }

  /** If nothing hinders the first pages and the next one is refused, all of their items are served and marked. */
  ghost predicate IsServedUpToRefusal(
      opts: Options, script: seq<PageReply>, start: Now, now: Now, completed: nat, asked: nat) {
    forall n: nat :: IsRefusedAt(opts, script, n) && !start.offline ==>
      completed == n && asked == n + 1 && now.seen == start.seen + KeysOf(ItemsOf(script, n)) &&
        now.duplicates == start.duplicates
  }

  lemma EndsAtRefusal(opts: Options, script: seq<PageReply>, m: nat, start: Now, was: Now, now: Now, completed: nat)
    requires m < |script| && forall k :: 0 <= k < m ==> script[k].Page?
    requires IsSmoothUpTo(script, m) && opts.allowed == [] && !start.offline ==>
             IsUnhindered(was, start, KeysOf(ItemsOf(script, m)))
    requires !(IsSmoothPage(script[m]) && opts.allowed == [] && !was.offline)
    requires script[m].PageRefused? ==> completed == m && now.seen == was.seen && now.duplicates == was.duplicates
    ensures IsServedUpToRefusal(opts, script, start, now, completed, m + 1)
  {
    hide KeysOf, ItemsOf, IsSmoothPage;
    forall n: nat | IsRefusedAt(opts, script, n) && !start.offline ensures n == m {
      assert m <= n;
      assert IsSmoothUpTo(script, m);
    }
  }

  lemma NothingRefused(opts: Options, script: seq<PageReply>, start: Now, now: Now)
    requires forall k :: 0 <= k < |script| ==> script[k].Page?
    ensures IsServedUpToRefusal(opts, script, start, now, |script|, |script|)
  {}

  /** Nothing hinders the first `n` pages, and the page after them is refused. */
  predicate IsRefusedAt(opts: Options, script: seq<PageReply>, n: nat) {
    n < |script| && IsSmoothUpTo(script, n) && script[n].PageRefused? && opts.allowed == []
  }

  lemma TrimNothing()
    ensures Trim("") == ""
  {
  }
}
