/** The gallery's provider facets, named after hostnames, against the provider filter, which reads the page's text. */
module ProviderFacets {
  import opened Common
  import opened ManualFields
  import opened Facets

  // ----- The facets -----

  function StripWww(host: string): string { if StartsWith(host, "www.") then host[4..] else host }

  /** providerIDFromSourcePage: `host` is the hostname that the URL parser finds in a page, "" for none. */
  function Label(page: Option<string>, host: string -> string): (name: string)
    ensures Text(page) == "" ==> name == "unknown"
  {
    if Text(page) == "" then "unknown"
    else if host(Text(page)) == "" then Text(page)
    else StripWww(host(Text(page)))
  }

  /** A page is labelled with the hostname found in it, without a leading www. */
  lemma LabelMeans(page: string, host: string -> string, name: string)
    requires page != ""
    ensures host(page) == "www." + name ==> Label(Some(page), host) == name
    ensures host(page) == name != "" && !("www." <= name) ==> Label(Some(page), host) == name
    ensures host(page) == "" ==> Label(Some(page), host) == page
  {
    assert ("www." + name)[..4] == "www." && ("www." + name)[4..] == name;
  }

  function Labels(host: string -> string): Option<string> -> string { (page: Option<string>) => Label(page, host) }

  /** galleryProviderFacets, up to its sorting and the sources listed under each provider. */
  method MergeProviders(stats: seq<Stat<Option<string>>>, host: string -> string) returns (facets: map<string, nat>)
    ensures IsMerged(facets, stats, Labels(host), [])
  {
    hide IsMerged, Label, SumIn;
    facets := map[];
    MergeNothing(Labels(host));
    assert stats[..0] == [];
    for i := 0 to |stats|
      invariant IsMerged(facets, stats[..i], Labels(host), [])
    {
      var p := Label(stats[i].id, host);
      MergeStep(facets, stats[..i], stats[i], Labels(host));
      assert stats[..i + 1] == stats[..i] + [stats[i]];
      facets := facets[p := (if p in facets then facets[p] else 0) + stats[i].count];
    }
    assert stats[..|stats|] == stats;
  }

  function Pages(rows: Rows, ids: set<nat>): map<nat, Option<string>>
    requires ids <= rows.Keys
  {
    map id | id in ids :: rows[id].sourcePage
  }

  /** The provider facets of a filter set, built from the source statistics. */
  ghost predicate AreProviderFacets(
    facets: map<string, nat>, rows: Rows, f: Filters, finds: (string, Row) -> bool, host: string -> string,
    stats: seq<Stat<Option<string>>>)
  {
    var ids := Catalog(rows, f, finds);
    IsGroupBy(stats, ids, Pages(rows, ids)) && IsMerged(facets, stats, Labels(host), [])
  }

  /** The rows a provider facet counts, and those that the filter behind it shows: the values of a request are
      trimmed first. */
  function ProviderCounts(
      rows: Rows, f: Filters, finds: (string, Row) -> bool, host: string -> string, p: string): set<nat> {
    set id | id in Catalog(rows, f, finds) && Label(rows[id].sourcePage, host) == p
  }

  function ProviderShows(rows: Rows, f: Filters, finds: (string, Row) -> bool, p: string): set<nat> {
    Catalog(rows, f.(provider := Trim(p)), finds)
  }

  /** For every filter set the provider facets sum to the catalog total, and each counts the rows of its label. */
  lemma ProviderFacetsCount(
      facets: map<string, nat>, rows: Rows, f: Filters, finds: (string, Row) -> bool, host: string -> string,
      stats: seq<Stat<Option<string>>>, listing: seq<string>)
    requires AreProviderFacets(facets, rows, f, finds, host, stats)
    requires Distinct(listing) && forall p :: p in listing <==> p in facets
    ensures SumUnder(stats, Labels(host), listing) == |Catalog(rows, f, finds)|
    ensures forall p :: p in facets ==> facets[p] == |ProviderCounts(rows, f, finds, host, p)| > 0
  {
    hide Label, Selects, IsGroupBy, IsMerged;
    var ids := Catalog(rows, f, finds);
    var key := Pages(rows, ids);
    MergedCount(facets, stats, ids, key, Labels(host), [], listing);
    forall p | p in facets ensures facets[p] == |ProviderCounts(rows, f, finds, host, p)| > 0 {
      assert ClassIn(ids, key, Under(Labels(host), p)) == ProviderCounts(rows, f, finds, host, p);
      var id := RowOfFacet(facets, rows, f, finds, host, stats, p);
      assert id in ProviderCounts(rows, f, finds, host, p);
    }
  }

  lemma RowOfFacet(
      facets: map<string, nat>, rows: Rows, f: Filters, finds: (string, Row) -> bool, host: string -> string,
      stats: seq<Stat<Option<string>>>, p: string) returns (id: nat)
    requires AreProviderFacets(facets, rows, f, finds, host, stats) && p in facets
    ensures id in Catalog(rows, f, finds) && Label(rows[id].sourcePage, host) == p
  {
    hide Label, Selects;
    var ids := Catalog(rows, f, finds);
    var s :| s in stats && Labels(host)(s.id) == p;
    assert |Class(ids, Pages(rows, ids), s.id)| > 0;
    id :| id in Class(ids, Pages(rows, ids), s.id);
  }

  lemma FacetOfRow(
      facets: map<string, nat>, rows: Rows, f: Filters, finds: (string, Row) -> bool, host: string -> string,
      stats: seq<Stat<Option<string>>>, id: nat)
    requires AreProviderFacets(facets, rows, f, finds, host, stats) && id in Catalog(rows, f, finds)
    ensures Label(rows[id].sourcePage, host) in facets
  {
    hide Label, Selects;
    var key := Pages(rows, Catalog(rows, f, finds));
    var i :| 0 <= i < |stats| && stats[i].id == key[id];
    assert stats[i] in stats;
    assert Labels(host)(stats[i].id) == Label(rows[id].sourcePage, host);
  }

  // ----- What a page spells -----

  /** Every name between a lead and a later slash of the page, and the page itself.  No page spells
      "unknown", which stands for no page; every page spells "", for which there is no filter. */
  function Spelled(page: Option<string>): set<string> {
    var t := Text(page);
    {""} + if t == "" then {"unknown"} else ({t} + Cut(t)) - {"unknown"}
  }

  function Cut(t: string): set<string> {
    CutAfter(t, LEADS[0]) + CutAfter(t, LEADS[1]) + CutAfter(t, LEADS[2]) + CutAfter(t, LEADS[3])
  }

  function CutAfter(t: string, lead: string): set<string> {
    if StartsWith(t, lead) then set i | |lead| <= i < |t| && t[i] == '/' :: t[|lead|..i] else {}
  }

  lemma NameAfterLead(t: string, lead: string, q: string)
    ensures StartsWith(t, lead + q + "/")
            <==> && StartsWith(t, lead) && |lead| + |q| < |t|
                 && t[|lead| + |q|] == '/' && t[|lead|..|lead| + |q|] == q
  {
    var i, whole := |lead| + |q|, lead + q + "/";
    if StartsWith(t, whole) {
      assert t[..|lead|] == whole[..|lead|] == lead && t[|lead|..i] == whole[|lead|..i] == q && t[i] == whole[i] == '/';
    }
    if StartsWith(t, lead) && i < |t| && t[i] == '/' && t[|lead|..i] == q {
      assert t[..i + 1] == t[..|lead|] + t[|lead|..i] + [t[i]];
    }
  }

  lemma CutAfterHolds(t: string, lead: string, q: string)
    ensures q in CutAfter(t, lead) <==> StartsWith(t, lead + q + "/")
  {
    NameAfterLead(t, lead, q);
    hide StartsWith;
    if StartsWith(t, lead + q + "/") { assert t[|lead|..|lead| + |q|] == q; }
  }

  lemma CutHolds(t: string, q: string)
    ensures q in Cut(t) <==> exists lead :: lead in LEADS && StartsWith(t, lead + q + "/")
  {
    hide StartsWith, CutAfter;
    forall lead ensures q in CutAfter(t, lead) <==> StartsWith(t, lead + q + "/") { CutAfterHolds(t, lead, q); }
    assert forall i :: 0 <= i < 4 ==> LEADS[i] in LEADS;
  }

  /** The provider filter accepts exactly the names that the page spells. */
  lemma FilterReadsSpelling(r: Row, f: Filters)
    ensures f.provider == "" || MatchesProvider(r, f.provider) <==> f.provider in Spelled(r.sourcePage)
  {
    hide StartsWith, Cut;
    CutHolds(Text(r.sourcePage), f.provider);
    if r.sourcePage == Some("") || r.sourcePage == None { EmptySpells(f.provider); }
  }

  lemma EmptySpells(q: string)
    ensures forall lead :: lead in LEADS ==> !StartsWith("", lead + q + "/")
  {}

  /** Of all facets the page spells only the one it is counted under. */
  ghost predicate SpellsOnlyItsLabel(page: Option<string>, facets: map<string, nat>, host: string -> string) {
    && Trim(Label(page, host)) in Spelled(page)
    && forall p :: p in facets && Trim(p) in Spelled(page) ==> p == Label(page, host)
  }

  /** With no provider filter active, every provider facet counts exactly the rows that its own filter shows
      if and only if every selected page spells its own label and no other facet. */
  lemma ProviderFacetsShowWhatTheyCountIff(
      facets: map<string, nat>, rows: Rows, f: Filters, finds: (string, Row) -> bool, host: string -> string,
      stats: seq<Stat<Option<string>>>)
    requires AreProviderFacets(facets, rows, f, finds, host, stats) && f.provider == ""
    ensures (forall p :: p in facets ==> ProviderCounts(rows, f, finds, host, p) == ProviderShows(rows, f, finds, p))
            <==> forall id :: id in Catalog(rows, f, finds) ==> SpellsOnlyItsLabel(rows[id].sourcePage, facets, host)
  {
    hide AreProviderFacets, Label, Spelled, Trim, Catalog;
    var ids := Catalog(rows, f, finds);
    forall id, p | id in ids ensures id in ProviderShows(rows, f, finds, p) <==>
      Trim(p) in Spelled(rows[id].sourcePage) {
      ShownIffSpelled(rows, f, finds, p, id);
    }
    forall id | id in ids ensures Label(rows[id].sourcePage, host) in facets {
      FacetOfRow(facets, rows, f, finds, host, stats, id);
    }
    forall p ensures ProviderShows(rows, f, finds, p) <= ids { ShowsLess(rows, f, finds, p); }
    if forall p :: p in facets ==> ProviderCounts(rows, f, finds, host, p) == ProviderShows(rows, f, finds, p) {
      forall id | id in ids ensures SpellsOnlyItsLabel(rows[id].sourcePage, facets, host) {
        assert id in ProviderCounts(rows, f, finds, host, Label(rows[id].sourcePage, host));
        forall p | p in facets &&
          Trim(p) in Spelled(rows[id].sourcePage) ensures p == Label(rows[id].sourcePage, host) {
          assert id in ProviderCounts(rows, f, finds, host, p);
        }
      }
    }
  }

  lemma ShownIffSpelled(rows: Rows, f: Filters, finds: (string, Row) -> bool, p: string, id: nat)
    requires id in Catalog(rows, f, finds) && f.provider == ""
    ensures id in ProviderShows(rows, f, finds, p) <==> Trim(p) in Spelled(rows[id].sourcePage)
  {
    hide MatchesProvider, MatchesCategory, Spelled, Trim;
    FilterReadsSpelling(rows[id], f.(provider := Trim(p)));
  }

  lemma ShowsLess(rows: Rows, f: Filters, finds: (string, Row) -> bool, p: string)
    requires f.provider == ""
    ensures ProviderShows(rows, f, finds, p) <= Catalog(rows, f, finds)
  {
    hide MatchesProvider, MatchesCategory, Trim;
  }

  // ----- Which pages do -----

  predicate IsHostName(h: string) { h != "" && h != "unknown" && Trim(h) == h && '/' !in h && !StartsWith(h, "www.") }

  /** No page, or a web page whose text goes on with its hostname and a slash after one of the leads. */
  predicate IsPlain(page: Option<string>, host: string -> string) {
    Text(page) == ""
    || (var h := Label(page, host);
        IsHostName(h) && exists lead :: lead in LEADS && StartsWith(Text(page), lead + h + "/"))
  }

  /** Over plain pages the provider facets and the provider filter agree. */
  lemma PlainPagesAgree(
      facets: map<string, nat>, rows: Rows, f: Filters, finds: (string, Row) -> bool, host: string -> string,
      stats: seq<Stat<Option<string>>>, p: string)
    requires AreProviderFacets(facets, rows, f, finds, host, stats) && f.provider == ""
    requires forall id :: id in Catalog(rows, f, finds) ==> IsPlain(rows[id].sourcePage, host)
    requires p in facets
    ensures ProviderCounts(rows, f, finds, host, p) == ProviderShows(rows, f, finds, p)
  {
    hide AreProviderFacets, Label, Spelled, Trim, Catalog, IsPlain;
    var ids := Catalog(rows, f, finds);
    forall id | id in ids ensures SpellsOnlyItsLabel(rows[id].sourcePage, facets, host) {
      forall q | q in facets ensures IsPlainLabel(q) {
        var other := RowOfFacet(facets, rows, f, finds, host, stats, q);
        PlainHasPlainLabel(rows[other].sourcePage, host);
      }
      PlainSpellsItsLabel(rows[id].sourcePage, host);
    }
    ProviderFacetsShowWhatTheyCountIff(facets, rows, f, finds, host, stats);
  }

  predicate IsPlainLabel(q: string) { q == "unknown" || IsHostName(q) }

  lemma PlainHasPlainLabel(page: Option<string>, host: string -> string)
    requires IsPlain(page, host)
    ensures IsPlainLabel(Label(page, host))
  {
    hide Trim, StartsWith;
  }

  lemma PlainSpellsItsLabel(page: Option<string>, host: string -> string)
    requires IsPlain(page, host)
    ensures Trim(Label(page, host)) in Spelled(page)
    ensures forall q :: IsPlainLabel(q) && Trim(q) in Spelled(page) ==> q == Label(page, host)
  {
    hide Trim, StartsWith, Label;
    var t, h := Text(page), Label(page, host);
    UnknownIsTrimmed();
    if t != "" {
      var lead :| lead in LEADS && StartsWith(t, lead + h + "/");
      WebPageSpells(t, lead, h, h);
      forall q | IsHostName(q) && q in Spelled(page) ensures q == h { WebPageSpells(t, lead, h, q); }
    }
  }

  lemma UnknownIsTrimmed()
    ensures Trim("unknown") == "unknown"
  {}

  lemma WebPageSpells(t: string, lead: string, h: string, q: string)
    requires lead in LEADS && IsHostName(h) && IsHostName(q) && StartsWith(t, lead + h + "/")
    ensures q in Cut(t) + {t} <==> q == h
  {
    hide Trim, Cut;
    NameAfterLead(t, lead, h);
    CutHolds(t, q);
    assert t[|lead| + |h|] == '/';
    if other :| other in LEADS && StartsWith(t, other + q + "/") {
      SameName(t, lead, h, other, q);
    }
  }

  /** Two hostnames that a page spells are the same: both end at the same slash, and a longer lead takes
      away a "www.", with which neither begins. */
  lemma SameName(t: string, a: string, h: string, b: string, q: string)
    requires a in LEADS && b in LEADS && IsHostName(h) && IsHostName(q)
    requires StartsWith(t, a + h + "/") && StartsWith(t, b + q + "/")
    ensures h == q
  {
    hide Trim;
    NameAfterLead(t, a, h);
    NameAfterLead(t, b, q);
    if |a| == |b| {
      EndsAtSlash(t[|a|..], h, q);
    } else if |a| < |b| {
      LongerLead(t, a, h, b);
    } else {
      LongerLead(t, b, q, a);
    }
  }

  lemma EndsAtSlash(rest: string, h: string, q: string)
    requires '/' !in h && '/' !in q
    requires |h| < |rest| && rest[|h|] == '/' && rest[..|h|] == h
    requires |q| < |rest| && rest[|q|] == '/' && rest[..|q|] == q
    ensures h == q
  {
    assert forall i :: 0 <= i < |h| ==> rest[i] == h[i];
    assert forall i :: 0 <= i < |q| ==> rest[i] == q[i];
  }

  lemma LongerLead(t: string, a: string, h: string, b: string)
    requires a in LEADS && b in LEADS && |a| < |b| && StartsWith(t, a) && StartsWith(t, b)
    requires |a| + |h| < |t| && t[|a| + |h|] == '/' && t[|a|..|a| + |h|] == h
    ensures StartsWith(h, "www.")
  {
    LeadsNest(t, a, b);
    NoSlashInWww(t, |a|, |h|);
    assert h[..4] == t[|a|..|a| + 4];
  }

  lemma LeadsNest(t: string, a: string, b: string)
    requires a in LEADS && b in LEADS && |a| < |b| && StartsWith(t, a) && StartsWith(t, b)
    ensures |a| + 4 <= |t| && t[|a|..|a| + 4] == "www."
  {
    assert a[4] == t[4] == b[4];
    assert b == a + "www.";
    assert t[..|b|][|a|..] == t[|a|..|b|];
  }

  lemma NoSlashInWww(t: string, from: nat, n: nat)
    requires from + 4 <= |t| && t[from..from + 4] == "www." && from + n < |t| && t[from + n] == '/'
    ensures 4 <= n
  {
    assert forall k :: 0 <= k < 4 ==> t[from + k] == "www."[k];
  }

  lemma {:induction false} TrimKeeps(s: string)
    ensures forall c :: c in TrimLeft(s) ==> c in s
    ensures forall c :: c in TrimRight(s) ==> c in s
  {
    if s != "" {
      TrimKeeps(s[1..]);
      TrimKeeps(s[..|s| - 1]);
    }
  }

  /** A page that ends with its hostname is counted under it, but the filter does not show it. */
  lemma BarePageIsLost(
      h: string, lead: string, rows: Rows, f: Filters, finds: (string, Row) -> bool, host: string -> string, id: nat)
    requires id in Catalog(rows, f, finds) && f.provider == "" && rows[id].sourcePage == Some(lead + h)
    requires lead in ["https://", "http://"] && h != "" && '/' !in h && host(lead + h) == h && Trim(StripWww(h)) != ""
    ensures var p := Label(rows[id].sourcePage, host);
            p == StripWww(h) && id in ProviderCounts(rows, f, finds, host, p) && id !in ProviderShows(rows, f, finds, p)
  {
    hide Catalog, Trim, Spelled, Selects;
    ShownIffSpelled(rows, f, finds, StripWww(h), id);
    BareSpellsNothing(lead, h, StripWww(h));
  }

  lemma BareSpellsNothing(lead: string, h: string, name: string)
    requires lead in ["https://", "http://"] && '/' !in h && '/' !in name && Trim(name) != ""
    ensures Trim(name) !in Spelled(Some(lead + h))
  {
    TrimKeeps(name);
    TrimKeeps(TrimLeft(name));
    hide TrimLeft, TrimRight;
    var t, q := lead + h, Trim(name);
    assert '/' !in q && t[|lead| - 1] == '/';
    NothingToCut(lead, h);
  }

  lemma NothingToCut(lead: string, h: string)
    requires lead in ["https://", "http://"] && '/' !in h
    ensures Cut(lead + h) == {}
  {
    hide CutAfter;
    forall other | other in LEADS ensures CutAfter(lead + h, other) == {} { NothingAfter(lead, h, other); }
  }

  lemma NothingAfter(lead: string, h: string, other: string)
    requires lead in ["https://", "http://"] && '/' !in h && other in LEADS
    ensures CutAfter(lead + h, other) == {}
  {
    var t := lead + h;
    assert t[4] == lead[4];
    if StartsWith(t, other) {
      assert forall i :: |lead| <= i < |t| ==> t[i] == h[i - |lead|];
    }
  }
}
