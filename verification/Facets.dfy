/** The gallery's facet counts against the catalog that the filters select. */
module Facets {
  import opened Common
  import opened ManualFields

  /** A NULL in the table is None; the queries treat a NULL category as an empty one, and so does the model. */
  datatype Row = Row(
    visible: bool, sourcePage: Option<string>, category: string, artist: Option<string>, favorite: bool, text: string)

  type Rows = map<nat, Row>

  datatype Filters = Filters(
    provider: string, source: string, category: string, artist: string, artistSet: bool, favorite: Option<bool>,
      query: string)

  const MEDIUMS := ["painting", "photography", "drawing", "print", "sculpture"]

  /** What the provider filter accepts in front of a provider. */
  const LEADS := ["https://", "http://", "https://www.", "http://www."]

  // ----- Categories -----

  /** NormalizeMediumCategory: the medium whose id, or display name, the category is. */
  function Medium(category: string): Option<string> {
    var c := Lower(Trim(category));
    if c in MEDIUMS then Some(c) else None
  }

  /** The category as the queries see it. */
  function Shown(r: Row): (c: string)
    ensures c != ""
  {
    if r.category == "" then "unknown" else r.category
  }

  /** normalizedCategoryFacet */
  function FacetId(category: string): string { if Medium(category).Some? then Medium(category).value else category }

  /** Five categories are mediums, under any letter case and with any blanks around them; every other one is its own
      facet, and a row without a category counts as unknown. */
  lemma FacetIdMeans(category: string, r: Row)
    ensures var c := Lower(Trim(category));
            if c == "painting" || c == "photography" || c == "drawing" || c == "print" || c == "sculpture"
            then FacetId(category) == c else FacetId(category) == category
    ensures r.category == "" ==> Shown(r) == "unknown"
    ensures r.category != "" ==> Shown(r) == r.category
  {
  }

  // ----- Filters -----

  predicate StartsWith(s: string, prefix: string) { |prefix| <= |s| && s[..|prefix|] == prefix }

  predicate MatchesProvider(r: Row, provider: string) {
    if provider == "unknown" then r.sourcePage == Some("") || r.sourcePage == None
    else
      r.sourcePage.Some?
      && (r.sourcePage.value == provider
          || exists lead :: lead in LEADS && StartsWith(r.sourcePage.value, lead + provider + "/"))
  }

  predicate MatchesCategory(r: Row, category: string) {
    var c := Trim(category);
    match Medium(c)
    case Some(id) => Lower(Shown(r)) == id
    case None => Shown(r) == c
  }

  /** applyGalleryCatalogFilters on visible rows; `finds` is the free-text search. */
  predicate Selects(f: Filters, finds: (string, Row) -> bool, r: Row) {
    && r.visible
    && (f.provider != "" ==> MatchesProvider(r, f.provider))
    && (f.source != "" ==> r.sourcePage == Some(f.source))
    && (f.category != "" ==> MatchesCategory(r, f.category))
    && (f.artistSet || f.artist != "" ==> r.artist == Some(f.artist))
    && (f.favorite.Some? ==> r.favorite == f.favorite.value)
    && (f.query != "" ==> finds(f.query, r))
  }

  function Catalog(rows: Rows, f: Filters, finds: (string, Row) -> bool): (ids: set<nat>)
    ensures ids <= rows.Keys
  {
    set id | id in rows && Selects(f, finds, rows[id])
  }

  /** A page without a provider, or one that is the provider or starts with its address. */
  ghost predicate IsPageOf(page: Option<string>, provider: string) {
    if provider == "unknown" then page == None || page == Some("")
    else
      page.Some? &&
      (page.value == provider
       || exists lead, rest ::
            page.value == lead + provider + "/" + rest &&
            (lead == "https://" || lead == "http://" || lead == "https://www." || lead == "http://www."))
  }

  lemma ProviderMeans(r: Row, provider: string)
    ensures MatchesProvider(r, provider) <==> IsPageOf(r.sourcePage, provider)
  {
    if provider != "unknown" && r.sourcePage.Some? {
      var page := r.sourcePage.value;
      if lead :| lead in LEADS && StartsWith(page, lead + provider + "/") {
        var rest := page[|lead + provider + "/"|..];
        assert page == lead + provider + "/" + rest;
      }
      forall lead, rest | lead in LEADS && page == lead + provider + "/" + rest ensures MatchesProvider(r, provider) {
        assert page[..|lead + provider + "/"|] == lead + provider + "/";
      }
      assert LEADS[0] == "https://" && LEADS[1] == "http://" && LEADS[2] == "https://www." && LEADS[3] == "http://www.";
    }
  }

  /** A category filter selects its medium in any letter case, or else exactly its trimmed text. */
  lemma CategoryMeans(r: Row, category: string)
    ensures var c, shown := Trim(category), if r.category == "" then "unknown" else r.category;
            MatchesCategory(r, category) <==> if Medium(c).Some? then Lower(shown) == Lower(Trim(c)) else shown == c
  {
  }

  /** Without filters the catalog is the visible rows, and each filter that is added keeps the rows it is about. */
  lemma FiltersNarrow(rows: Rows, f: Filters, finds: (string, Row) -> bool, id: nat, v: string, liked: bool)
    requires id in rows && v != ""
    ensures f == Filters("", "", "", "", false, None, "") ==> (id in Catalog(rows, f, finds) <==> rows[id].visible)
    ensures f.provider == "" ==> (id in Catalog(rows, f.(provider := v), finds) <==>
              id in Catalog(rows, f, finds) && IsPageOf(rows[id].sourcePage, v))
    ensures f.source == "" ==> (id in Catalog(rows, f.(source := v), finds) <==>
              id in Catalog(rows, f, finds) && rows[id].sourcePage == Some(v))
    ensures f.category == "" ==> (id in Catalog(rows, f.(category := v), finds) <==>
              id in Catalog(rows, f, finds) && MatchesCategory(rows[id], v))
    ensures f.artist == "" && !f.artistSet ==>
              && (id in Catalog(rows, f.(artist := v), finds) <==>
                    id in Catalog(rows, f, finds) && rows[id].artist == Some(v))
              && (id in Catalog(rows, f.(artistSet := true), finds) <==>
                    id in Catalog(rows, f, finds) && rows[id].artist == Some(""))
    ensures f.favorite == None ==> (id in Catalog(rows, f.(favorite := Some(liked)), finds) <==>
              id in Catalog(rows, f, finds) && rows[id].favorite == liked)
    ensures f.query == "" ==> (id in Catalog(rows, f.(query := v), finds) <==>
              id in Catalog(rows, f, finds) && finds(v, rows[id]))
  {
    ProviderMeans(rows[id], v);
    hide MatchesProvider, MatchesCategory, IsPageOf;
  }

  // ----- GROUP BY -----

  datatype Stat<K> = Stat(id: K, count: nat)

  ghost function Class<K>(ids: set<nat>, key: map<nat, K>, k: K): set<nat>
    requires ids <= key.Keys
  {
    set id | id in ids && key[id] == k
  }

  /** The rows of a GROUP BY: one for each key that occurs, with the number of its ids. */
  ghost predicate IsGroupBy<K>(stats: seq<Stat<K>>, ids: set<nat>, key: map<nat, K>)
    requires ids <= key.Keys
  {
    && (forall i, j :: 0 <= i < j < |stats| ==> stats[i].id != stats[j].id)
    && (forall i :: 0 <= i < |stats| ==> stats[i].count == |Class(ids, key, stats[i].id)| > 0)
    && (forall id :: id in ids ==> exists i :: 0 <= i < |stats| && stats[i].id == key[id])
  }

  predicate Any<K>(k: K) { true }

  /** The counts of the groups whose key is in `keys`. */
  function SumIn<K>(stats: seq<Stat<K>>, keys: K -> bool): nat {
    if stats == [] then 0
    else SumIn(stats[..|stats| - 1], keys) + if keys(stats[|stats| - 1].id) then stats[|stats| - 1].count else 0
  }

  function ClassIn<K>(ids: set<nat>, key: map<nat, K>, keys: K -> bool): set<nat>
    requires ids <= key.Keys
  {
    set id | id in ids && keys(key[id])
  }

  /** Groups partition the ids: the groups with a key in `keys` count the ids with a key in `keys`. */
  lemma {:induction false} GroupsCount<K>(stats: seq<Stat<K>>, ids: set<nat>, key: map<nat, K>, keys: K -> bool)
    requires ids <= key.Keys && IsGroupBy(stats, ids, key)
    ensures SumIn(stats, keys) == |ClassIn(ids, key, keys)|
  {
    if stats == [] {
      assert ids == {};
      assert ClassIn(ids, key, keys) == {};
    } else {
      var front, last := stats[..|stats| - 1], stats[|stats| - 1];
      var rest := ids - Class(ids, key, last.id);
      FrontIsGroupBy(stats, ids, key);
      assert last.count == |Class(ids, key, last.id)|;
      hide IsGroupBy, Class, ClassIn;
      GroupsCount(front, rest, key, keys);
      SplitClass(ids, key, last.id, keys);
    }
  }

  lemma SplitClass<K>(ids: set<nat>, key: map<nat, K>, k: K, keys: K -> bool)
    requires ids <= key.Keys
    ensures |ClassIn(ids, key, keys)| ==
            |ClassIn(ids - Class(ids, key, k), key, keys)| + if keys(k) then |Class(ids, key, k)| else 0
  {
    var own := Class(ids, key, k);
    var all, less := ClassIn(ids, key, keys), ClassIn(ids - own, key, keys);
    if keys(k) {
      assert all == less + own && less !! own;
    } else {
      assert all == less;
    }
  }

  lemma FrontIsGroupBy<K>(stats: seq<Stat<K>>, ids: set<nat>, key: map<nat, K>)
    requires ids <= key.Keys && IsGroupBy(stats, ids, key) && stats != []
    ensures IsGroupBy(stats[..|stats| - 1], ids - Class(ids, key, stats[|stats| - 1].id), key)
  {
    var front, last := stats[..|stats| - 1], stats[|stats| - 1];
    var rest := ids - Class(ids, key, last.id);
    forall i | 0 <= i < |front| ensures front[i].count == |Class(rest, key, front[i].id)| {
      assert Class(rest, key, front[i].id) == Class(ids, key, front[i].id);
    }
    forall id | id in rest ensures exists i :: 0 <= i < |front| && front[i].id == key[id] {
      var i :| 0 <= i < |stats| && stats[i].id == key[id];
      assert i < |front| && front[i] == stats[i];
    }
  }

  /** Source, artist, category and provider statistics each sum to the catalog total, for every filter set. */
  lemma StatsSumToTotal<K>(rows: Rows, f: Filters, finds: (string, Row) -> bool, stats: seq<Stat<K>>, key: map<nat, K>)
    requires Catalog(rows, f, finds) <= key.Keys && IsGroupBy(stats, Catalog(rows, f, finds), key)
    ensures SumIn(stats, Any) == |Catalog(rows, f, finds)|
  {
    GroupsCount(stats, Catalog(rows, f, finds), key, Any);
    assert ClassIn(Catalog(rows, f, finds), key, Any) == Catalog(rows, f, finds);
  }

  // ----- Merging into facets -----

  /** The keys that a merge by `name` puts under `id`. */
  function Under<K>(name: K -> string, id: string): K -> bool { (k: K) => name(k) == id }

  /** Facets built from statistics by adding up what has the same name, with mediums that may be empty. */
  ghost predicate IsMerged<K>(facets: map<string, nat>, stats: seq<Stat<K>>, name: K -> string, always: seq<string>) {
    && (forall c :: c in facets <==> c in always || exists s :: s in stats && name(s.id) == c)
    && (forall c :: c in facets ==> facets[c] == SumIn(stats, Under(name, c)))
  }

  lemma {:induction false} SumOfNone<K>(stats: seq<Stat<K>>, keys: K -> bool)
    requires forall s :: s in stats ==> !keys(s.id)
    ensures SumIn(stats, keys) == 0
  {
    if stats != [] { SumOfNone(stats[..|stats| - 1], keys); }
  }

  lemma SumMore<K>(stats: seq<Stat<K>>, s: Stat<K>, keys: K -> bool)
    ensures SumIn(stats + [s], keys) == SumIn(stats, keys) + if keys(s.id) then s.count else 0
  {
    assert (stats + [s])[..|stats|] == stats;
  }

  lemma MergeNothing<K>(name: K -> string)
    ensures IsMerged(map[], [], name, [])
  {}

  lemma MergeStep<K>(facets: map<string, nat>, stats: seq<Stat<K>>, s: Stat<K>, name: K -> string)
    requires IsMerged(facets, stats, name, [])
    ensures var c := name(s.id);
            IsMerged(facets[c := (if c in facets then facets[c] else 0) + s.count], stats + [s], name, [])
  {
    var c := name(s.id);
    var now, all := facets[c := (if c in facets then facets[c] else 0) + s.count], stats + [s];
    if c !in facets { SumOfNone(stats, Under(name, c)); }
    hide SumIn;
    forall d | d in now ensures now[d] == SumIn(all, Under(name, d)) { SumMore(stats, s, Under(name, d)); }
    forall d ensures d in now <==> exists x :: x in all && name(x.id) == d {
      if x :| x in all && name(x.id) == d { assert x in stats || x == s; }
      if d in now {
        if d == c { assert s in all; } else {
          var x :| x in stats && name(x.id) == d;
          assert x in all;
        }
      }
    }
  }

  lemma AlwaysStep<K>(facets: map<string, nat>, stats: seq<Stat<K>>, name: K -> string, always: seq<string>, c: string)
    requires IsMerged(facets, stats, name, always)
    ensures IsMerged(if c in facets then facets else facets[c := 0], stats, name, always + [c])
  {
    if c !in facets { SumOfNone(stats, Under(name, c)); }
  }

  /** galleryCategoryFacets, up to its sorting. */
  method CategoryFacets(stats: seq<Stat<string>>) returns (facets: map<string, nat>)
    ensures IsMerged(facets, stats, FacetId, MEDIUMS)
  {
    hide IsMerged, FacetId, Medium, SumIn;
    facets := map[];
    MergeNothing(FacetId);
    assert stats[..0] == [];
    for i := 0 to |stats|
      invariant IsMerged(facets, stats[..i], FacetId, [])
    {
      var c := FacetId(stats[i].id);
      MergeStep(facets, stats[..i], stats[i], FacetId);
      assert stats[..i + 1] == stats[..i] + [stats[i]];
      facets := facets[c := (if c in facets then facets[c] else 0) + stats[i].count];
    }
    assert stats[..|stats|] == stats;
    for m := 0 to |MEDIUMS|
      invariant IsMerged(facets, stats, FacetId, MEDIUMS[..m])
    {
      AlwaysStep(facets, stats, FacetId, MEDIUMS[..m], MEDIUMS[m]);
      assert MEDIUMS[..m + 1] == MEDIUMS[..m] + [MEDIUMS[m]];
      if MEDIUMS[m] !in facets { facets := facets[MEDIUMS[m] := 0]; }
    }
    assert MEDIUMS[..|MEDIUMS|] == MEDIUMS;
  }

  /** What statistics under a listing of names add up to. */
  function SumUnder<K>(stats: seq<Stat<K>>, name: K -> string, listing: seq<string>): nat {
    if listing == [] then 0
    else SumUnder(stats, name, listing[..|listing| - 1]) + SumIn(stats, Under(name, listing[|listing| - 1]))
  }

  lemma {:induction false} SumUnderMore<K>(stats: seq<Stat<K>>, s: Stat<K>, name: K -> string, listing: seq<string>)
    requires Distinct(listing)
    ensures SumUnder(stats + [s], name, listing) ==
            SumUnder(stats, name, listing) + if name(s.id) in listing then s.count else 0
  {
    if listing != [] {
      var front, last := listing[..|listing| - 1], listing[|listing| - 1];
      SumUnderMore(stats, s, name, front);
      SumMore(stats, s, Under(name, last));
      assert listing == front + [last] && last !in front;
    }
  }

  lemma {:induction false} SumUnderNone<K>(name: K -> string, listing: seq<string>)
    ensures SumUnder([], name, listing) == 0
  {
    if listing != [] { SumUnderNone(name, listing[..|listing| - 1]); }
  }

  /** In whatever order the facets are listed, their counts add up to the statistics. */
  lemma {:induction false} MergeKeepsSum<K>(stats: seq<Stat<K>>, name: K -> string, listing: seq<string>)
    requires Distinct(listing) && forall s :: s in stats ==> name(s.id) in listing
    ensures SumUnder(stats, name, listing) == SumIn(stats, Any)
  {
    if stats == [] {
      SumUnderNone(name, listing);
    } else {
      var front, last := stats[..|stats| - 1], stats[|stats| - 1];
      MergeKeepsSum(front, name, listing);
      SumUnderMore(front, last, name, listing);
      SumMore(front, last, Any);
      assert stats == front + [last];
    }
  }

  /** Facets merged from the statistics of some ids sum to those ids, and each counts the ids it stands for. */
  lemma MergedCount<K>(
      facets: map<string, nat>, stats: seq<Stat<K>>, ids: set<nat>, key: map<nat, K>, name: K -> string,
        always: seq<string>,
      listing: seq<string>)
    requires ids <= key.Keys && IsGroupBy(stats, ids, key) && IsMerged(facets, stats, name, always)
    requires Distinct(listing) && forall c :: c in listing <==> c in facets
    ensures SumUnder(stats, name, listing) == |ids|
    ensures forall c :: c in facets ==> facets[c] == |ClassIn(ids, key, Under(name, c))|
  {
    GroupsCount(stats, ids, key, Any);
    assert ClassIn(ids, key, Any) == ids;
    MergeKeepsSum(stats, name, listing);
    forall c | c in facets ensures facets[c] == |ClassIn(ids, key, Under(name, c))| {
      GroupsCount(stats, ids, key, Under(name, c));
    }
  }

  // ----- Category facets and the category filter -----

  /** The stored categories of a catalog, as the queries see them. */
  function Categories(rows: Rows, ids: set<nat>): map<nat, string>
    requires ids <= rows.Keys
  {
    map id | id in ids :: Shown(rows[id])
  }

  /** The category facets of a filter set, built from the category statistics. */
  ghost predicate AreCategoryFacets(
    facets: map<string, nat>, rows: Rows, f: Filters, finds: (string, Row) -> bool, stats: seq<Stat<string>>)
  {
    var ids := Catalog(rows, f, finds);
    IsGroupBy(stats, ids, Categories(rows, ids)) && IsMerged(facets, stats, FacetId, MEDIUMS)
  }

  /** The rows a category facet counts. */
  function Counted(rows: Rows, f: Filters, finds: (string, Row) -> bool, c: string): set<nat> {
    set id | id in Catalog(rows, f, finds) && FacetId(Shown(rows[id])) == c
  }

  /** The rows that the filter behind a category facet shows: a request's values are trimmed first. */
  function CategoryShows(rows: Rows, f: Filters, finds: (string, Row) -> bool, c: string): set<nat> {
    Catalog(rows, f.(category := Trim(c)), finds)
  }

  /** For every filter set the category facets sum to the catalog total, and each counts the rows whose
      category, alias or not, it stands for. */
  lemma CategoryFacetsCount(
      facets: map<string, nat>, rows: Rows, f: Filters, finds: (string, Row) -> bool, stats: seq<Stat<string>>,
        listing: seq<string>)
    requires AreCategoryFacets(facets, rows, f, finds, stats)
    requires Distinct(listing) && forall c :: c in listing <==> c in facets
    ensures SumUnder(stats, FacetId, listing) == |Catalog(rows, f, finds)|
    ensures forall c :: c in facets ==> facets[c] == |Counted(rows, f, finds, c)|
  {
    hide FacetId, Selects, IsGroupBy, IsMerged;
    var ids := Catalog(rows, f, finds);
    var key := Categories(rows, ids);
    MergedCount(facets, stats, ids, key, FacetId, MEDIUMS, listing);
    forall c | c in facets ensures facets[c] == |Counted(rows, f, finds, c)| {
      assert ClassIn(ids, key, Under(FacetId, c)) == Counted(rows, f, finds, c);
    }
  }

  lemma {:induction false} TrimLeftHolds(s: string)
    ensures |TrimLeft(s)| <= |s| && (|TrimLeft(s)| == |s| ==> TrimLeft(s) == s)
    ensures TrimLeft(s) != "" ==> !IsSpace(TrimLeft(s)[0])
  {
    if s != "" && IsSpace(s[0]) { TrimLeftHolds(s[1..]); }
  }

  lemma {:induction false} TrimRightHolds(s: string)
    ensures |TrimRight(s)| <= |s| && (|TrimRight(s)| == |s| ==> TrimRight(s) == s)
    ensures TrimRight(s) != "" ==> !IsSpace(TrimRight(s)[|TrimRight(s)| - 1]) && TrimRight(s)[0] == s[0]
    ensures s != "" && !IsSpace(s[0]) ==> TrimRight(s) != ""
  {
    if s != "" && IsSpace(s[|s| - 1]) { TrimRightHolds(s[..|s| - 1]); }
  }

  lemma TrimHolds(s: string)
    ensures Trim(Trim(s)) == Trim(s) && (Trim(s) != s ==> |Trim(s)| < |s|)
    ensures s != "" && Trim(s) == "" ==> IsSpace(s[0])
  {
    TrimLeftHolds(s);
    TrimRightHolds(TrimLeft(s));
  }

  lemma MediumHolds(c: string)
    ensures Medium(Trim(c)) == Medium(c)
    ensures c in MEDIUMS ==> Trim(c) == c && Medium(c) == Some(c)
  {
    TrimHolds(c);
    if c in MEDIUMS { CategoryWords(); }
  }

  lemma CategoryWords()
    ensures forall c :: c in MEDIUMS ==> Trim(c) == c && Lower(c) == c
  {
    assert Trim("painting") == "painting" && Lower("painting") == "painting";
    assert Trim("photography") == "photography" && Lower("photography") == "photography";
    assert Trim("drawing") == "drawing" && Lower("drawing") == "drawing";
    assert Trim("print") == "print" && Lower("print") == "print";
    assert Trim("sculpture") == "sculpture" && Lower("sculpture") == "sculpture";
  }

  predicate IsPadded(r: Row) { Trim(Shown(r)) != Shown(r) }

  predicate IsBlank(s: string) { s != "" && Trim(s) == "" }

  /** A row without padding is counted by a facet exactly when the facet's filter selects it. */
  lemma TrimmedRowAgrees(r: Row, c: string)
    requires !IsPadded(r) && (c in MEDIUMS || (Trim(c) == c && Medium(c).None?))
    ensures FacetId(Shown(r)) == c <==> MatchesCategory(r, c)
  {
    MediumHolds(c);
    MediumHolds(FacetId(Shown(r)));
  }

  /** A padded row is counted by its facet but not selected by it. */
  lemma PaddedRowIsLost(r: Row)
    requires IsPadded(r)
    ensures !MatchesCategory(r, Trim(FacetId(Shown(r))))
  {
    var x := Shown(r);
    TrimHolds(x);
    TrimHolds(FacetId(x));
    MediumHolds(x);
    MediumHolds(FacetId(x));
    hide Trim;
    assert |Lower(x)| == |x| && |Lower(Trim(x))| == |Trim(x)|;
  }

  /** A row with a blank category is selected by no medium and has a facet of its own. */
  lemma BlankRow(r: Row)
    requires IsBlank(Shown(r))
    ensures FacetId(Shown(r)) == Shown(r) == r.category
    ensures forall c :: c in MEDIUMS ==> !MatchesCategory(r, c) && Shown(r) != c
  {
    var x := Shown(r);
    TrimHolds(x);
    assert Lower("") == "" && Trim("unknown") == "unknown";
    hide Trim;
    assert Lower(x)[0] == x[0];
    forall c | c in MEDIUMS ensures !MatchesCategory(r, c) && x != c { MediumHolds(c); }
  }

  /** All selected rows have one and the same category, and it is blank. */
  ghost predicate AllBlank(rows: Rows, ids: set<nat>)
    requires ids <= rows.Keys
  {
    exists b :: IsBlank(b) && forall id :: id in ids ==> Shown(rows[id]) == b
  }

  /** With no category filter active, every category facet counts exactly the rows that its own filter
      shows if and only if no selected row has a stored category with surrounding spaces, or else the
      filter for that category is no filter and every selected row has it. */
  lemma FacetsShowWhatTheyCountIff(
      facets: map<string, nat>, rows: Rows, f: Filters, finds: (string, Row) -> bool, stats: seq<Stat<string>>)
    requires AreCategoryFacets(facets, rows, f, finds, stats) && f.category == ""
    ensures (forall c :: c in facets ==> Counted(rows, f, finds, c) == CategoryShows(rows, f, finds, c))
            <==> var ids := Catalog(rows, f, finds);
                 (forall id :: id in ids ==> !IsPadded(rows[id])) || AllBlank(rows, ids)
  {
    hide IsPadded, Catalog, Counted, AreCategoryFacets, CategoryShows, AllBlank;
    var ids := Catalog(rows, f, finds);
    if AllBlank(rows, ids) {
      forall c | c in facets ensures Counted(rows, f, finds, c) == CategoryShows(rows, f, finds, c) {
        BlankFacet(facets, rows, f, finds, stats, c);
      }
    } else if id :| id in ids && IsPadded(rows[id]) {
      PaddedFacet(facets, rows, f, finds, stats, id);
    } else {
      forall c | c in facets ensures Counted(rows, f, finds, c) == CategoryShows(rows, f, finds, c) {
        TrimmedFacet(facets, rows, f, finds, stats, c);
      }
    }
  }

  lemma BlankFacet(
      facets: map<string, nat>, rows: Rows, f: Filters, finds: (string, Row) -> bool, stats: seq<Stat<string>>,
      c: string)
    requires AreCategoryFacets(facets, rows, f, finds, stats) && f.category == "" && c in facets
    requires AllBlank(rows, Catalog(rows, f, finds))
    ensures Counted(rows, f, finds, c) == CategoryShows(rows, f, finds, c)
  {
    hide FacetId, MatchesCategory, MatchesProvider, Shown, Medium, Trim;
    var ids := Catalog(rows, f, finds);
    var b :| IsBlank(b) && forall id :: id in ids ==> Shown(rows[id]) == b;
    FacetIsMediumOrBlank(facets, rows, f, finds, stats, b, c);
    MediumHolds(c);
    forall id | id in ids
      ensures id in Counted(rows, f, finds, c) <==> c == b
      ensures c in MEDIUMS ==> !MatchesCategory(rows[id], c) && c != b
    {
      BlankRow(rows[id]);
    }
    assert c == b ==> f.(category := Trim(c)) == f;
  }

  lemma FacetIsMediumOrBlank(
      facets: map<string, nat>, rows: Rows, f: Filters, finds: (string, Row) -> bool, stats: seq<Stat<string>>,
        b: string, c: string)
    requires AreCategoryFacets(facets, rows, f, finds, stats) && c in facets && IsBlank(b)
    requires forall id :: id in Catalog(rows, f, finds) ==> Shown(rows[id]) == b
    ensures c in MEDIUMS || c == b
  {
    hide FacetId, MatchesCategory, MatchesProvider, Shown, Medium, Trim, Selects;
    var ids := Catalog(rows, f, finds);
    if c !in MEDIUMS {
      var s :| s in stats && FacetId(s.id) == c;
      assert |Class(ids, Categories(rows, ids), s.id)| > 0;
      var id :| id in Class(ids, Categories(rows, ids), s.id);
      BlankRow(rows[id]);
    }
  }

  lemma PaddedFacet(
      facets: map<string, nat>, rows: Rows, f: Filters, finds: (string, Row) -> bool, stats: seq<Stat<string>>, id: nat)
    requires AreCategoryFacets(facets, rows, f, finds, stats) && f.category == ""
    requires id in Catalog(rows, f, finds) && IsPadded(rows[id]) && !AllBlank(rows, Catalog(rows, f, finds))
    ensures var c := FacetId(Shown(rows[id]));
            c in facets && Counted(rows, f, finds, c) != CategoryShows(rows, f, finds, c)
  {
    hide FacetId, MatchesCategory, MatchesProvider, Shown, IsPadded, Trim, Medium;
    var ids, x := Catalog(rows, f, finds), Shown(rows[id]);
    var c := FacetId(x);
    assert c in facets by {
      assert Categories(rows, ids)[id] == x;
      var i :| 0 <= i < |stats| && stats[i].id == x;
      assert stats[i] in stats;
    }
    assert id in Counted(rows, f, finds, c);
    PaddedRowIsLost(rows[id]);
    if Trim(c) == "" {
      BlankFacetIsOwn(x);
      assert IsBlank(x);
      var other :| other in ids && Shown(rows[other]) != x;
      BlankFacetIsOwn(Shown(rows[other]));
      FacetOfOther(Shown(rows[other]), x);
      assert f.(category := "") == f;
      assert other in CategoryShows(rows, f, finds, c);
    }
  }

  /** Only a blank category has a blank facet. */
  lemma BlankFacetIsOwn(x: string)
    ensures Trim(FacetId(x)) == "" ==> FacetId(x) == x
  {
    CategoryWords();
    hide Trim, Lower;
  }

  lemma FacetOfOther(y: string, x: string)
    requires Trim(FacetId(x)) == "" && y != x
    ensures FacetId(y) != FacetId(x)
  {
    BlankFacetIsOwn(x);
    if FacetId(y) == x { BlankFacetIsOwn(y); }
  }

  lemma TrimmedFacet(
      facets: map<string, nat>, rows: Rows, f: Filters, finds: (string, Row) -> bool, stats: seq<Stat<string>>,
      c: string)
    requires AreCategoryFacets(facets, rows, f, finds, stats) && f.category == "" && c in facets
    requires forall id :: id in Catalog(rows, f, finds) ==> !IsPadded(rows[id])
    ensures Counted(rows, f, finds, c) == CategoryShows(rows, f, finds, c)
  {
    hide FacetId, MatchesCategory, MatchesProvider, Shown, IsPadded, Medium, Trim;
    FacetOfTrimmed(facets, rows, f, finds, stats, c);
    MediumHolds(c);
    forall id ensures id in Counted(rows, f, finds, c) <==> id in CategoryShows(rows, f, finds, c) {
      if id in Catalog(rows, f, finds) { TrimmedRowAgrees(rows[id], c); }
    }
  }

  lemma FacetOfTrimmed(
      facets: map<string, nat>, rows: Rows, f: Filters, finds: (string, Row) -> bool, stats: seq<Stat<string>>,
      c: string)
    requires AreCategoryFacets(facets, rows, f, finds, stats) && c in facets
    requires forall id :: id in Catalog(rows, f, finds) ==> !IsPadded(rows[id])
    ensures c != "" && (c in MEDIUMS || (Trim(c) == c && Medium(c).None?))
  {
    var ids := Catalog(rows, f, finds);
    var key := Categories(rows, ids);
    hide Trim, Lower, MatchesCategory, MatchesProvider, Selects;
    if c !in MEDIUMS {
      var s :| s in stats && FacetId(s.id) == c;
      assert |Class(ids, key, s.id)| > 0;
      var id :| id in Class(ids, key, s.id);
      assert !IsPadded(rows[id]) && Shown(rows[id]) == s.id;
    }
  }

  // ----- Artist and source facets and their filters -----

  /** What a NULL is scanned as. */
  function Text(column: Option<string>): string { if column.Some? then column.value else "" }

  /** The rows that an artist statistic counts and the rows that the filter for its name shows are the same if
      and only if the name is stored, as empty or as trimmed text; the two are disjoint otherwise. */
  lemma ArtistFacetShowsWhatItCountsIff(
      rows: Rows, f: Filters, finds: (string, Row) -> bool, key: map<nat, Option<string>>,
        stats: seq<Stat<Option<string>>>, i: nat)
    requires f.artist == "" && !f.artistSet && i < |stats|
    requires var ids := Catalog(rows, f, finds);
             key == (map id | id in ids :: rows[id].artist) && IsGroupBy(stats, ids, key)
    ensures var counted := Class(Catalog(rows, f, finds), key, stats[i].id);
            var shown := Catalog(rows, f.(artist := Trim(Text(stats[i].id)), artistSet := true), finds);
            && stats[i].count == |counted|
            && (counted == shown <==> stats[i].id == Some(Trim(Text(stats[i].id))))
            && (counted != shown ==> counted !! shown)
  {
    hide MatchesProvider, MatchesCategory, Trim;
    var k := stats[i].id;
    var counted := Class(Catalog(rows, f, finds), key, k);
    var shown := Catalog(rows, f.(artist := Trim(Text(k)), artistSet := true), finds);
    assert forall id :: id in shown <==> id in Catalog(rows, f, finds) && rows[id].artist == Some(Trim(Text(k)));
    assert |counted| > 0;
    if k != Some(Trim(Text(k))) {
      var id :| id in counted;
      assert id !in shown;
    }
  }

  /** The rows that a source statistic counts and the rows that the filter for its page shows are the same if
      and only if the page is trimmed text, or is blank, when the filter is no filter, and every selected row has it. */
  lemma SourceFacetShowsWhatItCountsIff(
      rows: Rows, f: Filters, finds: (string, Row) -> bool, key: map<nat, Option<string>>,
        stats: seq<Stat<Option<string>>>, i: nat)
    requires f.source == "" && i < |stats|
    requires var ids := Catalog(rows, f, finds);
             key == (map id | id in ids :: rows[id].sourcePage) && IsGroupBy(stats, ids, key)
    ensures var ids, page := Catalog(rows, f, finds), Trim(Text(stats[i].id));
            var counted := Class(ids, key, stats[i].id);
            && stats[i].count == |counted|
            && (counted == Catalog(rows, f.(source := page), finds)
                <==> if page != "" then stats[i].id == Some(page) else forall id :: id in ids ==>
                  rows[id].sourcePage == stats[i].id)
  {
    hide MatchesProvider, MatchesCategory, Trim;
    var ids, k := Catalog(rows, f, finds), stats[i].id;
    var page := Trim(Text(k));
    var counted := Class(ids, key, k);
    var shown := Catalog(rows, f.(source := page), finds);
    assert |counted| > 0;
    if page == "" {
      assert f.(source := page) == f;
    } else {
      assert forall id :: id in shown <==> id in ids && rows[id].sourcePage == Some(page);
      if k != Some(page) {
        var id :| id in counted;
        assert id !in shown;
      }
    }
  }

  lemma FavoriteNarrows(rows: Rows, f: Filters, finds: (string, Row) -> bool, liked: bool)
    requires f.favorite.None?
    ensures Catalog(rows, f.(favorite := Some(liked)), finds) ==
              set id | id in Catalog(rows, f, finds) && rows[id].favorite == liked
  {
    hide MatchesProvider, MatchesCategory;
  }

  /** GetGalleryFavoriteStatsForFilters: the second count is taken as the rest of the total. */
  method FavoriteStats(rows: Rows, f: Filters, finds: (string, Row) -> bool) returns (favorites: nat, others: nat)
    ensures favorites + others == |Catalog(rows, f, finds)|
    ensures favorites == |set id | id in Catalog(rows, f, finds) && rows[id].favorite|
    ensures f.favorite.None? ==> favorites == |Catalog(rows, f.(favorite := Some(true)), finds)|
    ensures f.favorite.None? ==> others == |Catalog(rows, f.(favorite := Some(false)), finds)|
  {
    hide Selects, Catalog;
    var ids := Catalog(rows, f, finds);
    var liked := set id | id in ids && rows[id].favorite;
    var rest := ids - liked;
    assert ids == liked + rest && liked !! rest;
    assert liked == set id | id in Catalog(rows, f, finds) && rows[id].favorite;
    favorites, others := |liked|, |ids| - |liked|;
    if f.favorite.None? {
      FavoriteNarrows(rows, f, finds, true);
      FavoriteNarrows(rows, f, finds, false);
      assert liked == set id | id in ids && rows[id].favorite == true;
      assert rest == set id | id in ids && rows[id].favorite == false;
    }
  }
}
