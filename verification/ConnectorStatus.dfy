/** How the status page folds source counts, connector states and extraction runs into one card per
    connector family. */
module ConnectorStatus {
  import opened Common
  import opened ManualFields

  /** Zero is the zero time, the earliest of all. */
  type Time = nat

  datatype Counts = Counts(total: int, downloaded: int, failed: int, pending: int)

  /** A row of the source statistics, with its provider and source ids resolved. */
  datatype Stat = Stat(provider: string, source: string, status: string, count: int, activity: Option<Time>)

  datatype Source = Source(id: string, provider: string, counts: Counts, lastSync: Option<Time>)

  datatype Card = Card(counts: Counts, sources: seq<Source>)

  type Cards = map<string, Card>

  const NO_COUNTS := Counts(0, 0, 0, 0)

  // ----- Families -----

  function UpToColon(s: string): string {
    if s == "" || s[0] == ':' then "" else [s[0]] + UpToColon(s[1..])
  }

  /** connectorFamilyID */
  function Family(provider: string): string {
    var p := Trim(provider);
    if p == "" then "webgallery" else if UpToColon(p) != "" then UpToColon(p) else p
  }

  lemma {:induction false} UpToColonCuts(scope: string, rest: string)
    requires ':' !in scope
    ensures UpToColon(scope + ":" + rest) == scope && UpToColon(scope) == scope
  {
    if scope == "" {
      assert (scope + ":" + rest)[0] == ':';
    } else {
      UpToColonCuts(scope[1..], rest);
      assert (scope + ":" + rest)[1..] == scope[1..] + ":" + rest;
    }
  }

  /** A provider belongs to the family before its first colon; without a colon, or with nothing in front of it,
      it is its own family, and a blank one belongs to the web gallery. */
  lemma FamilyMeans(p: string, scope: string, rest: string)
    requires ':' !in scope
    ensures Trim(p) == "" ==> Family(p) == "webgallery"
    ensures Trim(p) == scope + ":" + rest ==> Family(p) == if scope == "" then Trim(p) else scope
    ensures Trim(p) == scope != "" ==> Family(p) == scope
  {
    hide Trim;
    UpToColonCuts(scope, rest);
  }

  // ----- Counting -----

  function Apply(c: Counts, status: string, count: int): Counts {
    Counts(c.total + count,
           if status == "downloaded" then c.downloaded + count else c.downloaded,
           if status == "failed" then c.failed + count else c.failed,
           if status == "pending" then c.pending + count else c.pending)
  }

  function Add(a: Counts, b: Counts): Counts {
    Counts(a.total + b.total, a.downloaded + b.downloaded, a.failed + b.failed, a.pending + b.pending)
  }

  function Later(current: Option<Time>, candidate: Option<Time>): Option<Time> {
    if candidate.None? || candidate.value == 0 then current
    else if current.None? || candidate.value > current.value then candidate
    else current
  }

  function Counted(source: Source, s: Stat): Source {
    source.(counts := Apply(source.counts, s.status, s.count), lastSync := Later(source.lastSync, s.activity))
  }

  /** What the statistics say about one family, about one source, and altogether. */
  function FamilyCounts(stats: seq<Stat>, family: string): Counts {
    if stats == [] then NO_COUNTS
    else
      var s, before := stats[|stats| - 1], FamilyCounts(stats[..|stats| - 1], family);
      if Family(s.provider) == family then Apply(before, s.status, s.count) else before
  }

  function SourceOf(stats: seq<Stat>, provider: string, id: string): Source {
    if stats == [] then Source(id, provider, NO_COUNTS, None)
    else
      var s, before := stats[|stats| - 1], SourceOf(stats[..|stats| - 1], provider, id);
      if s.provider == provider && s.source == id then Counted(before, s) else before
  }

  function AllCounts(stats: seq<Stat>): Counts {
    if stats == [] then NO_COUNTS
    else Apply(AllCounts(stats[..|stats| - 1]), stats[|stats| - 1].status, stats[|stats| - 1].count)
  }

  /** The counts of some of the rows added up, those with `status` or all of them. */
  ghost function Tally(stats: seq<Stat>, of: Stat -> bool, status: Option<string>): int {
    if stats == [] then 0
    else
      var s := stats[|stats| - 1];
      Tally(stats[..|stats| - 1], of, status)
      + if of(s) && (status == None || status == Some(s.status)) then s.count else 0
  }

  ghost predicate IsTally(c: Counts, stats: seq<Stat>, of: Stat -> bool) {
    && c.total == Tally(stats, of, None) && c.downloaded == Tally(stats, of, Some("downloaded"))
    && c.failed == Tally(stats, of, Some("failed")) && c.pending == Tally(stats, of, Some("pending"))
  }

  /** The four numbers of a card, and those of a source, are the sums of the counts of its rows: all of them, the
      downloaded, the failed and the pending ones. */
  lemma {:induction false} CountsAreSums(stats: seq<Stat>, family: string, provider: string, id: string)
    ensures IsTally(AllCounts(stats), stats, s => true)
    ensures IsTally(FamilyCounts(stats, family), stats, (s: Stat) => Family(s.provider) == family)
    ensures IsTally(SourceOf(stats, provider, id).counts, stats, (s: Stat) => s.provider == provider && s.source == id)
  {
    hide Family, Later;
    if stats != [] { CountsAreSums(stats[..|stats| - 1], family, provider, id); }
  }

  /** A row of a source that says when something happened there; the zero time says nothing. */
  predicate IsActivity(s: Stat, provider: string, id: string) {
    s.provider == provider && s.source == id && s.activity.Some? && s.activity.value > 0
  }

  /** A source was last synced when its latest row says so. */
  lemma {:induction false} LastSyncIsLatest(stats: seq<Stat>, provider: string, id: string)
    ensures var sync := SourceOf(stats, provider, id).lastSync;
            && (sync.None? <==> forall s :: s in stats ==> !IsActivity(s, provider, id))
            && (sync.Some? ==>
                  && (exists s :: s in stats && IsActivity(s, provider, id) && s.activity == sync)
                  && forall s :: s in stats && IsActivity(s, provider, id) ==> s.activity.value <= sync.value)
  {
    hide Apply;
    if stats != [] {
      var front, last := stats[..|stats| - 1], stats[|stats| - 1];
      LastSyncIsLatest(front, provider, id);
      assert stats == front + [last];
      assert forall s :: s in stats <==> s in front || s == last;
      assert IsActivity(last, provider, id) ==> SourceOf(stats, provider, id).lastSync.Some?;
    }
  }

  function SumSources(sources: seq<Source>): Counts {
    if sources == [] then NO_COUNTS else Add(SumSources(sources[..|sources| - 1]), sources[|sources| - 1].counts)
  }

  function SumCards(cards: Cards, listing: seq<string>): Counts
    requires forall f :: f in listing ==> f in cards
  {
    if listing == [] then NO_COUNTS
    else Add(SumCards(cards, listing[..|listing| - 1]), cards[listing[|listing| - 1]].counts)
  }

  // ----- The fold over the statistics -----

  type Refs = map<(string, string), nat>

  ghost predicate CardOk(c: Card, family: string, stats: seq<Stat>) {
    c.counts == FamilyCounts(stats, family) == SumSources(c.sources)
  }

  ghost predicate SourceOk(s: Source, j: nat, family: string, refs: Refs, stats: seq<Stat>) {
    && Family(s.provider) == family && (s.provider, s.id) in refs && refs[(s.provider, s.id)] == j
    && s == SourceOf(stats, s.provider, s.id)
  }

  ghost predicate SourcesOk(sources: seq<Source>, family: string, refs: Refs, stats: seq<Stat>) {
    forall j :: 0 <= j < |sources| ==> SourceOk(sources[j], j, family, refs, stats)
  }

  ghost predicate RefOk(cards: Cards, k: (string, string), j: nat) {
    var f := Family(k.0);
    f in cards && j < |cards[f].sources| && cards[f].sources[j].provider == k.0 && cards[f].sources[j].id == k.1
  }

  /** The page after `stats`: every card has its family's counts, every source its own, each provider and
      source of the statistics has exactly one source, and the card counts what its sources count. */
  ghost predicate Folded(cards: Cards, refs: Refs, stats: seq<Stat>) {
    && (forall f :: f in cards ==> CardOk(cards[f], f, stats))
    && (forall f :: f in cards ==> SourcesOk(cards[f].sources, f, refs, stats))
    && (forall k :: k in refs ==> RefOk(cards, k, refs[k]))
    && (forall s :: s in stats ==> (s.provider, s.source) in refs)
  }

  lemma FamilyCountsMore(stats: seq<Stat>, s: Stat, family: string)
    ensures FamilyCounts(stats + [s], family) ==
              if Family(s.provider) == family then Apply(FamilyCounts(stats, family), s.status, s.count)
                else FamilyCounts(stats, family)
  {
    assert (stats + [s])[..|stats|] == stats;
  }

  lemma SourceOfMore(stats: seq<Stat>, s: Stat, provider: string, id: string)
    ensures SourceOf(stats + [s], provider, id) ==
              if s.provider == provider &&
                s.source == id then Counted(SourceOf(stats, provider, id), s) else SourceOf(stats, provider, id)
  {
    assert (stats + [s])[..|stats|] == stats;
  }

  lemma {:induction false} SumSourcesUpdate(sources: seq<Source>, j: nat, status: string, count: int, now: Source)
    requires j < |sources| && now.counts == Apply(sources[j].counts, status, count)
    ensures SumSources(sources[j := now]) == Apply(SumSources(sources), status, count)
  {
    var last := |sources| - 1;
    if j == last {
      assert sources[j := now][..last] == sources[..last];
    } else {
      SumSourcesUpdate(sources[..last], j, status, count, now);
      assert sources[j := now][..last] == sources[..last][j := now];
    }
  }

  lemma {:induction false} NothingCounted(stats: seq<Stat>, provider: string, id: string)
    requires forall s :: s in stats ==> !(s.provider == provider && s.source == id)
    ensures SourceOf(stats, provider, id) == Source(id, provider, NO_COUNTS, None)
  {
    if stats != [] { NothingCounted(stats[..|stats| - 1], provider, id); }
  }

  lemma {:induction false} NoFamily(stats: seq<Stat>, family: string)
    requires forall s :: s in stats ==> Family(s.provider) != family
    ensures FamilyCounts(stats, family) == NO_COUNTS
  {
    if stats != [] { NoFamily(stats[..|stats| - 1], family); }
  }

  function Ensure(cards: Cards, family: string): Cards {
    if family in cards then cards else cards[family := Card(NO_COUNTS, [])]
  }

  lemma EnsureKeepsFolded(cards: Cards, refs: Refs, stats: seq<Stat>, family: string)
    requires Folded(cards, refs, stats)
    ensures Folded(Ensure(cards, family), refs, stats)
  {
    var more := Ensure(cards, family);
    if family !in cards {
      forall s | s in stats ensures Family(s.provider) != family { assert RefOk(cards, (s.provider, s.source),
        refs[(s.provider, s.source)]); }
      NoFamily(stats, family);
    }
    forall k | k in refs ensures RefOk(more, k, refs[k]) { assert RefOk(cards, k, refs[k]); }
  }

  function Appended(cards: Cards, provider: string, id: string): (r: Cards)
    requires Family(provider) in cards
    ensures r.Keys == cards.Keys
  {
    var f := Family(provider);
    cards[f := cards[f].(sources := cards[f].sources + [Source(id, provider, NO_COUNTS, None)])]
  }

  lemma AppendedSourcesOk(
      sources: seq<Source>, family: string, refs: Refs, stats: seq<Stat>, provider: string, id: string)
    requires SourcesOk(sources, family, refs, stats) && Family(provider) == family
    requires forall s :: s in stats ==> !(s.provider == provider && s.source == id)
    requires (provider, id) !in refs
    ensures SourcesOk(sources + [Source(id, provider, NO_COUNTS, None)], family, refs[(provider, id) := |sources|],
            stats)
  {
    NothingCounted(stats, provider, id);
    var more, all := refs[(provider, id) := |sources|], sources + [Source(id, provider, NO_COUNTS, None)];
    hide Family, SourceOf;
    forall j | 0 <= j < |all| ensures SourceOk(all[j], j, family, more, stats) {
      if j < |sources| { assert SourceOk(sources[j], j, family, refs, stats); }
    }
  }

  lemma OtherSourcesOk(sources: seq<Source>, family: string, refs: Refs, stats: seq<Stat>, k: (string, string), n: nat)
    requires SourcesOk(sources, family, refs, stats) && k !in refs
    ensures SourcesOk(sources, family, refs[k := n], stats)
  {
    forall j | 0 <= j < |sources| ensures SourceOk(sources[j], j, family, refs[k := n], stats) {
      assert SourceOk(sources[j], j, family, refs, stats);
    }
  }

  lemma AppendedCardOk(c: Card, family: string, stats: seq<Stat>, s: Source)
    requires CardOk(c, family, stats) && s.counts == NO_COUNTS
    ensures CardOk(c.(sources := c.sources + [s]), family, stats)
  {
    hide FamilyCounts;
    var sources := c.sources + [s];
    assert sources[..|sources| - 1] == c.sources;
  }

  /** A source that is new starts with nothing. */
  lemma AppendKeepsFolded(cards: Cards, refs: Refs, stats: seq<Stat>, provider: string, id: string)
    requires Folded(cards, refs, stats) && Family(provider) in cards && (provider, id) !in refs
    ensures Folded(Appended(cards, provider, id), refs[(provider, id) := |cards[Family(provider)].sources|], stats)
  {
    hide Family, FamilyCounts, SourceOf, SumSources, SourceOk;
    var f := Family(provider);
    var now, more := Appended(cards, provider, id), refs[(provider, id) := |cards[f].sources|];
    AppendedSourcesOk(cards[f].sources, f, refs, stats, provider, id);
    forall g | g in cards ensures SourcesOk(cards[g].sources, g, more, stats) {
      OtherSourcesOk(cards[g].sources, g, refs, stats, (provider, id), |cards[f].sources|);
    }
    AppendedCardOk(cards[f], f, stats, Source(id, provider, NO_COUNTS, None));
    forall k | k in more ensures RefOk(now, k, more[k]) {
      if k in refs { assert RefOk(cards, k, refs[k]); }
    }
    assert forall g :: g in now && g != f ==> now[g] == cards[g];
  }

  function Tallied(cards: Cards, refs: Refs, s: Stat): (r: Cards)
    requires (s.provider, s.source) in refs && RefOk(cards, (s.provider, s.source), refs[(s.provider, s.source)])
    ensures r.Keys == cards.Keys
  {
    var f, j := Family(s.provider), refs[(s.provider, s.source)];
    cards[f := Card(Apply(cards[f].counts, s.status, s.count), cards[f].sources[j := Counted(cards[f].sources[j], s)])]
  }

  lemma TallyKeepsFolded(cards: Cards, refs: Refs, stats: seq<Stat>, s: Stat)
    requires Folded(cards, refs, stats) && (s.provider, s.source) in refs
    ensures RefOk(cards, (s.provider, s.source), refs[(s.provider, s.source)])
    ensures Folded(Tallied(cards, refs, s), refs, stats + [s])
  {
    hide Family, FamilyCounts, SourceOf, SumSources, Apply, Later;
    var f, j := Family(s.provider), refs[(s.provider, s.source)];
    assert RefOk(cards, (s.provider, s.source), j);
    var now, all := Tallied(cards, refs, s), stats + [s];
    SumSourcesUpdate(cards[f].sources, j, s.status, s.count, now[f].sources[j]);
    forall g | g in now ensures CardOk(now[g], g, all) && SourcesOk(now[g].sources, g, refs, all) {
      FamilyCountsMore(stats, s, g);
      assert CardOk(cards[g], g, stats) && SourcesOk(cards[g].sources, g, refs, stats);
      forall i | 0 <= i < |now[g].sources| ensures SourceOk(now[g].sources[i], i, g, refs, all) {
        var was := cards[g].sources[i];
        assert SourceOk(was, i, g, refs, stats);
        SourceOfMore(stats, s, was.provider, was.id);
      }
    }
    forall k | k in refs ensures RefOk(now, k, refs[k]) { assert RefOk(cards, k, refs[k]); }
  }

  lemma FoldStarts()
    ensures Folded(map["webgallery" := Card(NO_COUNTS, []), "telegram" := Card(NO_COUNTS, [])], map[], [])
  {
    hide Family;
  }

  method CountStats(stats: seq<Stat>) returns (cards: Cards, ghost refs: Refs)
    ensures Folded(cards, refs, stats) && "webgallery" in cards && "telegram" in cards
  {
    cards := map["webgallery" := Card(NO_COUNTS, []), "telegram" := Card(NO_COUNTS, [])];
    var index: Refs := map[];
    hide Folded, Family, Appended, Tallied, RefOk, Trim;
    FoldStarts();
    for i := 0 to |stats|
      invariant Folded(cards, index, stats[..i]) && "webgallery" in cards && "telegram" in cards
    {
      var s := stats[i];
      var f := Family(s.provider);
      EnsureKeepsFolded(cards, index, stats[..i], f);
      assert f in Ensure(cards, f);
      cards := Ensure(cards, f);
      if (s.provider, s.source) !in index {
        AppendKeepsFolded(cards, index, stats[..i], s.provider, s.source);
        var n := |cards[f].sources|;
        cards := Appended(cards, s.provider, s.source);
        index := index[(s.provider, s.source) := n];
      }
      TallyKeepsFolded(cards, index, stats[..i], s);
      cards := Tallied(cards, index, s);
      assert stats[..i + 1] == stats[..i] + [s];
    }
    assert stats[..|stats|] == stats;
    refs := index;
  }

  // ----- All cards together -----

  function SumFamilies(stats: seq<Stat>, listing: seq<string>): Counts {
    if listing == [] then NO_COUNTS
    else Add(SumFamilies(stats, listing[..|listing| - 1]), FamilyCounts(stats, listing[|listing| - 1]))
  }

  lemma {:induction false} SumFamiliesMore(stats: seq<Stat>, s: Stat, listing: seq<string>)
    requires Distinct(listing)
    ensures SumFamilies(stats + [s], listing) ==
              if Family(s.provider) in listing then Apply(SumFamilies(stats, listing), s.status, s.count)
                else SumFamilies(stats, listing)
  {
    hide Family, FamilyCounts;
    if listing != [] {
      var front, last := listing[..|listing| - 1], listing[|listing| - 1];
      SumFamiliesMore(stats, s, front);
      FamilyCountsMore(stats, s, last);
      assert listing == front + [last];
      assert last !in front;
    }
  }

  lemma {:induction false} SumFamiliesNone(listing: seq<string>)
    ensures SumFamilies([], listing) == NO_COUNTS
  {
    if listing != [] { SumFamiliesNone(listing[..|listing| - 1]); }
  }

  lemma {:induction false} FamiliesCoverAll(stats: seq<Stat>, listing: seq<string>)
    requires Distinct(listing) && forall s :: s in stats ==> Family(s.provider) in listing
    ensures SumFamilies(stats, listing) == AllCounts(stats)
  {
    hide Family, FamilyCounts;
    if stats == [] {
      SumFamiliesNone(listing);
    } else {
      var front, last := stats[..|stats| - 1], stats[|stats| - 1];
      FamiliesCoverAll(front, listing);
      SumFamiliesMore(front, last, listing);
      assert stats == front + [last];
    }
  }

  lemma {:induction false} SumCardsIsSumFamilies(cards: Cards, refs: Refs, stats: seq<Stat>, listing: seq<string>)
    requires Folded(cards, refs, stats) && forall f :: f in listing ==> f in cards
    ensures SumCards(cards, listing) == SumFamilies(stats, listing)
  {
    hide FamilyCounts, SourcesOk, RefOk;
    if listing != [] {
      var last := listing[|listing| - 1];
      SumCardsIsSumFamilies(cards, refs, stats, listing[..|listing| - 1]);
      assert CardOk(cards[last], last, stats);
    }
  }

  /** In whatever order the cards are listed, they sum to the input: nothing is lost or counted twice. */
  lemma CardsSumToInput(cards: Cards, refs: Refs, stats: seq<Stat>, listing: seq<string>)
    requires Folded(cards, refs, stats) && Distinct(listing) && forall f :: f in listing <==> f in cards
    ensures SumCards(cards, listing) == AllCounts(stats)
  {
    hide Family;
    forall s | s in stats ensures Family(s.provider) in listing {
      assert RefOk(cards, (s.provider, s.source), refs[(s.provider, s.source)]);
    }
    SumCardsIsSumFamilies(cards, refs, stats, listing);
    FamiliesCoverAll(stats, listing);
  }

  // ----- The state that drives a card -----

  datatype ConnState = ConnState(provider: string, status: string, at: Option<Time>)

  predicate Timed(s: ConnState) { s.at.Some? && s.at.value > 0 }

  predicate IsScoped(s: ConnState) { ':' in s.provider }

  /** connectorStateIsNewer */
  predicate StateIsNewer(s: ConnState, current: Option<ConnState>) {
    if current.None? then true
    else if !Timed(s) then false
    else if current.value.at.None? then true
    else if s.at.value > current.value.at.value then true
    else s.at == current.value.at && IsScoped(s) && !IsScoped(current.value)
  }

  /** The state left driving after the rows in order. */
  function Driver(states: seq<ConnState>): Option<ConnState> {
    if states == [] then None
    else
      var before, s := Driver(states[..|states| - 1]), states[|states| - 1];
      if StateIsNewer(s, before) then Some(s) else before
  }

  /** Later, or at the same time and source-scoped where the other is not. */
  predicate Outranks(a: ConnState, b: ConnState)
    requires Timed(a) && Timed(b)
  {
    a.at.value > b.at.value || (a.at == b.at && IsScoped(a) && !IsScoped(b))
  }

  /** Once some row has a time, the driving state has one and no row with a time outranks it. */
  lemma {:induction false} DriverIsGreatest(states: seq<ConnState>)
    ensures states != [] ==> Driver(states).Some? && Driver(states).value in states
    ensures (exists s :: s in states && Timed(s)) ==>
              Timed(Driver(states).value) && forall s :: s in states && Timed(s) ==> !Outranks(s, Driver(states).value)
    ensures states != [] && (forall s :: s in states ==> !Timed(s)) ==> Driver(states) == Some(states[0])
  {
    if states != [] {
      var front, last := states[..|states| - 1], states[|states| - 1];
      DriverIsGreatest(front);
      assert states == front + [last];
    }
  }

  /** In plain terms: the driving row is as late as any row with a time, the zero time being none, and of rows
      that are equally late it is a source's if there is one. */
  lemma LatestRowDrives(states: seq<ConnState>, s: ConnState)
    requires s in states && s.at.Some? && s.at.value > 0
    ensures Driver(states).Some? && Driver(states).value in states
    ensures var d := Driver(states).value;
            && d.at.Some? && d.at.value >= s.at.value
            && (d.at.value == s.at.value && ':' in s.provider ==> ':' in d.provider)
  {
    DriverIsGreatest(states);
    assert Timed(s) && !Outranks(s, Driver(states).value);
  }

  /** So it does not matter in which order the rows arrive: the time and the scope of the driving state are
      the same, and so is the row when no two rows tie. */
  lemma DriverIgnoresOrder(a: seq<ConnState>, b: seq<ConnState>)
    requires (forall s :: s in a <==> s in b) && exists s :: s in a && Timed(s)
    ensures Driver(a).Some? && Driver(b).Some?
    ensures Driver(a).value.at == Driver(b).value.at && IsScoped(Driver(a).value) == IsScoped(Driver(b).value)
    ensures (forall s, t :: s in a && t in a && s.at == t.at && IsScoped(s) == IsScoped(t) ==> s == t) ==>
            Driver(a) == Driver(b)
  {
    DriverIsGreatest(a);
    DriverIsGreatest(b);
    assert Driver(a).value in b && Driver(b).value in a;
  }

  /** The driving row shows the same time and scope in both orders. */
  predicate DriveAlike(a: seq<ConnState>, b: seq<ConnState>) {
    && Driver(a).Some? && Driver(b).Some?
    && Driver(a).value.at == Driver(b).value.at && IsScoped(Driver(a).value) == IsScoped(Driver(b).value)
  }

  /** Exactly then: the time and the scope on a card are the same for every order of its rows if and only if
      some row has a time, or all rows agree on time and scope.  Otherwise the first row drives. */
  lemma DriverIgnoresOrderIff(states: seq<ConnState>)
    requires states != []
    ensures (forall other :: multiset(other) == multiset(states) ==> DriveAlike(states, other))
            <==> (exists s :: s in states && Timed(s))
                 || forall s, t :: s in states && t in states ==> s.at == t.at && IsScoped(s) == IsScoped(t)
  {
    hide Driver, Timed, IsScoped;
    if exists s :: s in states && Timed(s) {
      forall other | multiset(other) == multiset(states) ensures DriveAlike(states, other) {
        SameRows(states, other);
        DriverIgnoresOrder(states, other);
      }
    } else if s, t :| s in states && t in states && !(s.at == t.at && IsScoped(s) == IsScoped(t)) {
      FirstRowDrives(states, s);
      FirstRowDrives(states, t);
      assert !(DriveAlike(states, MovedFirst(states, s)) && DriveAlike(states, MovedFirst(states, t)));
    } else {
      forall other | multiset(other) == multiset(states) ensures DriveAlike(states, other) {
        SameRows(states, other);
        DriverIsGreatest(states);
        DriverIsGreatest(other);
      }
    }
  }

  lemma SameRows(a: seq<ConnState>, b: seq<ConnState>)
    requires multiset(a) == multiset(b)
    ensures forall s :: s in a <==> s in b
    ensures a != [] ==> b != []
  {
    forall s ensures s in a <==> s in b { assert s in multiset(a) <==> s in multiset(b); }
    if a != [] { assert a[0] in b; }
  }

  ghost function MovedFirst(states: seq<ConnState>, s: ConnState): (moved: seq<ConnState>)
    requires s in states
    ensures multiset(moved) == multiset(states) && moved[0] == s
  {
    var i :| 0 <= i < |states| && states[i] == s;
    assert states == states[..i] + [s] + states[i + 1..];
    [s] + (states[..i] + states[i + 1..])
  }

  lemma FirstRowDrives(states: seq<ConnState>, s: ConnState)
    requires s in states && forall t :: t in states ==> !Timed(t)
    ensures Driver(MovedFirst(states, s)) == Some(s)
  {
    hide Timed;
    var moved := MovedFirst(states, s);
    SameRows(states, moved);
    DriverIsGreatest(moved);
  }

  function OfFamily(states: seq<ConnState>, family: string): seq<ConnState> {
    if states == [] then []
    else
      OfFamily(states[..|states| - 1], family)
      + if Family(states[|states| - 1].provider) == family then [states[|states| - 1]] else []
  }

  function DriverIn(drivers: map<string, ConnState>, family: string): Option<ConnState> {
    if family in drivers then Some(drivers[family]) else None
  }

  ghost predicate DrivesAll(drivers: map<string, ConnState>, states: seq<ConnState>) {
    forall f :: Driver(OfFamily(states, f)) == DriverIn(drivers, f)
  }

  lemma DriveStep(drivers: map<string, ConnState>, states: seq<ConnState>, s: ConnState)
    requires DrivesAll(drivers, states)
    ensures var family := Family(s.provider);
            DrivesAll(if StateIsNewer(s, DriverIn(drivers, family)) then drivers[family := s]
              else drivers, states + [s])
  {
    hide Family, StateIsNewer;
    forall f { OfFamilyMore(states, s, f); }
  }

  lemma NothingDrives()
    ensures DrivesAll(map[], [])
  {}

  method FoldStates(states: seq<ConnState>) returns (drivers: map<string, ConnState>)
    ensures DrivesAll(drivers, states)
  {
    hide DrivesAll, Driver, OfFamily, Family, StateIsNewer;
    drivers := map[];
    NothingDrives();
    assert states[..0] == [];
    for i := 0 to |states|
      invariant DrivesAll(drivers, states[..i])
    {
      var s := states[i];
      var family := Family(s.provider);
      DriveStep(drivers, states[..i], s);
      assert states[..i + 1] == states[..i] + [s];
      if StateIsNewer(s, DriverIn(drivers, family)) { drivers := drivers[family := s]; }
    }
    assert states[..|states|] == states;
  }

  lemma OfFamilyMore(states: seq<ConnState>, s: ConnState, family: string)
    ensures Driver(OfFamily(states + [s], family)) ==
              if Family(s.provider) == family && StateIsNewer(s, Driver(OfFamily(states, family))) then Some(s)
              else Driver(OfFamily(states, family))
  {
    hide Family, StateIsNewer;
    var before := OfFamily(states, family);
    assert (states + [s])[..|states|] == states;
    assert (before + [s])[..|before|] == before;
    assert before + [] == before;
  }

  // ----- The latest run of a provider -----

  datatype Run = Run(id: nat, provider: string, start: Option<Time>)

  /** extractionRunIsNewer */
  predicate RunIsNewer(a: Run, b: Run) {
    if a.start.Some? && b.start.Some? then
      if a.start != b.start then a.start.value > b.start.value else a.id > b.id
    else if a.start.Some? then true
    else if b.start.Some? then false
    else a.id > b.id
  }

  /** A strict total order on runs with distinct ids. */
  lemma RunOrder(a: Run, b: Run, c: Run)
    ensures !RunIsNewer(a, a) && !(RunIsNewer(a, b) && RunIsNewer(b, a))
    ensures a.id != b.id ==> RunIsNewer(a, b) || RunIsNewer(b, a)
    ensures RunIsNewer(a, b) && RunIsNewer(b, c) ==> RunIsNewer(a, c)
  {
  }

  function RunProvider(r: Run): string { if r.provider == "" then "webgallery" else r.provider }

  predicate DistinctIds(runs: seq<Run>) { forall i, j :: 0 <= i < j < |runs| ==> runs[i].id != runs[j].id }

  /** `r` is the run of its provider that is newer than every other one. */
  predicate IsLatest(r: Run, runs: seq<Run>) {
    r in runs && forall o :: o in runs && RunProvider(o) == RunProvider(r) && o != r ==> RunIsNewer(r, o)
  }

  /** Runs without a provider are the web gallery's. */
  lemma RunsShareProviderIff(a: Run, b: Run)
    ensures RunProvider(a) == RunProvider(b) <==>
              a.provider == b.provider || (a.provider in {"", "webgallery"} && b.provider in {"", "webgallery"})
    ensures RunProvider(a) in {a.provider, "webgallery"} && RunProvider(a) != ""
  {
  }

  /** The latest run started last, and has the greatest id among those that started then; if none of its
      provider has started, it has the greatest id. */
  lemma LatestStartedLast(r: Run, runs: seq<Run>, o: Run)
    requires IsLatest(r, runs) && o in runs && RunProvider(o) == RunProvider(r) && o != r
    ensures o.start.Some? ==> r.start.Some? && r.start.value >= o.start.value
    ensures r.start == o.start ==> r.id > o.id
  {
  }

  /** latestConnectorRunsByProvider */
  method LatestRuns(runs: seq<Run>) returns (latest: map<string, Run>)
    requires DistinctIds(runs)
    ensures forall p :: p in latest <==> exists r :: r in runs && RunProvider(r) == p
    ensures forall p :: p in latest ==> RunProvider(latest[p]) == p && IsLatest(latest[p], runs)
  {
    latest := map[];
    for i := 0 to |runs|
      invariant forall p :: p in latest <==> exists r :: r in runs[..i] && RunProvider(r) == p
      invariant forall p :: p in latest ==> RunProvider(latest[p]) == p && IsLatest(latest[p], runs[..i])
    {
      var run := runs[i];
      var p := RunProvider(run);
      assert runs[..i + 1] == runs[..i] + [run];
      if p !in latest || RunIsNewer(run, latest[p]) {
        LatestReplaced(runs[..i], run, latest);
        latest := latest[p := run];
      } else {
        LatestKept(runs[..i], run, latest);
      }
    }
    assert runs[..|runs|] == runs;
  }

  lemma LatestReplaced(before: seq<Run>, run: Run, latest: map<string, Run>)
    requires forall p :: p in latest <==> exists r :: r in before && RunProvider(r) == p
    requires forall p :: p in latest ==> RunProvider(latest[p]) == p && IsLatest(latest[p], before)
    requires RunProvider(run) !in latest || RunIsNewer(run, latest[RunProvider(run)])
    ensures IsLatest(run, before + [run])
    ensures forall p :: p in latest && p != RunProvider(run) ==> IsLatest(latest[p], before + [run])
  {
  }

  lemma LatestKept(before: seq<Run>, run: Run, latest: map<string, Run>)
    requires forall p :: p in latest ==> RunProvider(latest[p]) == p && IsLatest(latest[p], before)
    requires RunProvider(run) in latest && !RunIsNewer(run, latest[RunProvider(run)])
    requires forall r :: r in before ==> r.id != run.id
    ensures forall p :: p in latest ==> IsLatest(latest[p], before + [run])
  {
  }

  /** The latest run is unique, whatever the order in which the runs are given. */
  lemma LatestIgnoresOrder(a: seq<Run>, b: seq<Run>, r: Run, s: Run)
    requires forall x :: x in a <==> x in b
    requires IsLatest(r, a) && IsLatest(s, b) && RunProvider(r) == RunProvider(s)
    ensures r == s
  {
    if r != s { RunOrder(r, s, r); }
  }
}
