/** Manual-field locks: which metadata fields of a photo an editor has taken over, in normal form. */
module ManualFields {

  // ----- Text -----

  predicate IsSpace(c: char) { c == ' ' || '\t' <= c <= '\r' }

  function TrimLeft(s: string): string {
    if s != [] && IsSpace(s[0]) then TrimLeft(s[1..]) else s
  }

  function TrimRight(s: string): string {
    if s != [] && IsSpace(s[|s| - 1]) then TrimRight(s[..|s| - 1]) else s
  }

  function Trim(s: string): string { TrimRight(TrimLeft(s)) }

  function Lower(s: string): string {
    seq(|s|, i requires 0 <= i < |s| => if 'A' <= s[i] <= 'Z' then (s[i] as int + 32) as char else s[i])
  }

  // ----- Normal form -----

  /** The fields that can be locked, in the order `sort.Strings` gives them. */
  const ORDER: seq<string> := ["artist", "date", "keywords", "note", "title"]

  function Clean(field: string): string { Lower(Trim(field)) }

  function Named(raw: seq<string>): set<string> { set f | f in raw :: Clean(f) }

  function Select(order: seq<string>, names: set<string>): seq<string> {
    if order == [] then []
    else (if order[0] in names then [order[0]] else []) + Select(order[1..], names)
  }

  /** The lockable fields that `raw` names, each once, in order. */
  function Normal(raw: seq<string>): seq<string> { Select(ORDER, Named(raw)) }

  predicate IsNormal(fields: seq<string>) { Normal(fields) == fields }

  /** hasField: the lock test of the Go code, which cleans every candidate. */
  predicate HasField(fields: seq<string>, field: string) {
    exists c :: c in fields && Clean(c) == Clean(field)
  }

  lemma CleanKeepsOrder()
    ensures forall f :: f in ORDER ==> Clean(f) == f
  {
    assert Clean("artist") == "artist" && Clean("date") == "date" && Clean("keywords") == "keywords";
    assert Clean("note") == "note" && Clean("title") == "title";
  }

  lemma {:induction false} SelectHolds(order: seq<string>, names: set<string>)
    ensures forall f :: f in Select(order, names) <==> f in order && f in names
  {
    if order != [] { SelectHolds(order[1..], names); }
  }

  lemma NormalHolds(raw: seq<string>)
    ensures forall f :: f in Normal(raw) <==> f in ORDER && f in Named(raw)
  {
    SelectHolds(ORDER, Named(raw));
  }

  lemma {:induction false} SelectDependsOnOrder(order: seq<string>, a: set<string>, b: set<string>)
    requires forall f :: f in order ==> (f in a <==> f in b)
    ensures Select(order, a) == Select(order, b)
  {
    if order != [] { SelectDependsOnOrder(order[1..], a, b); }
  }

  /** Normalizing twice is normalizing once. */
  lemma NormalIsNormal(raw: seq<string>)
    ensures IsNormal(Normal(raw))
  {
    NormalHolds(raw);
    CleanKeepsOrder();
    hide Clean;
    var n := Normal(raw);
    forall f | f in ORDER ensures f in Named(n) <==> f in Named(raw) {
      if f in Named(raw) { assert f in n && Clean(f) == f; }
    }
    SelectDependsOnOrder(ORDER, Named(n), Named(raw));
  }

  /** mergeManualFields never drops a lock and adds exactly the lockable names it is given. */
  lemma MergeGrows(existing: seq<string>, added: seq<string>)
    requires IsNormal(existing)
    ensures IsNormal(Normal(existing + added))
    ensures forall f :: f in Normal(existing + added) <==> f in existing || (f in ORDER && f in Named(added))
  {
    NormalIsNormal(existing + added);
    NormalHolds(existing + added);
    NormalHolds(existing);
    assert Named(existing + added) == Named(existing) + Named(added);
    hide Normal, Named;
  }

  /** On normal forms the Go lock test and the exact containment test of the SQL upsert agree. */
  lemma LockTestsAgree(fields: seq<string>, field: string)
    requires IsNormal(fields) && field in ORDER
    ensures HasField(fields, field) <==> field in fields
  {
    NormalHolds(fields);
    CleanKeepsOrder();
    hide Clean;
    if field in fields { assert Clean(field) == field; }
    if c :| c in fields && Clean(c) == Clean(field) { assert c in ORDER; }
  }

  // ----- The normaliser's loop -----

  function Rank(field: string): nat {
    if field == "artist" then 0 else if field == "date" then 1 else if field == "keywords" then 2
    else if field == "note" then 3 else 4
  }

  predicate Increasing(s: seq<string>) { forall i, j :: 0 <= i < j < |s| ==> Rank(s[i]) < Rank(s[j]) }

  /** Puts a new field in its place, as sorting the extended slice does. */
  function InsertInOrder(s: seq<string>, field: string): seq<string> {
    if s == [] || Rank(field) < Rank(s[0]) then [field] + s else [s[0]] + InsertInOrder(s[1..], field)
  }

  function Sorted(s: seq<string>): seq<string> {
    if s == [] then [] else InsertInOrder(Sorted(s[..|s| - 1]), s[|s| - 1])
  }

  lemma RankInjective(f: string, g: string)
    requires f in ORDER && g in ORDER && Rank(f) == Rank(g)
    ensures f == g
  {
  }

  lemma OrderIncreases()
    ensures Increasing(ORDER)
  {
  }

  lemma {:induction false} InsertInOrderHolds(s: seq<string>, field: string)
    requires Increasing(s) && forall f :: f in s ==> Rank(f) != Rank(field)
    ensures Increasing(InsertInOrder(s, field))
    ensures forall f :: f in InsertInOrder(s, field) <==> f in s || f == field
  {
    hide Rank;
    if s != [] && Rank(field) >= Rank(s[0]) {
      assert s[0] in s;
      InsertInOrderHolds(s[1..], field);
      var t := InsertInOrder(s[1..], field);
      assert forall f :: f in t ==> Rank(s[0]) < Rank(f);
    }
  }

  lemma {:induction false} SelectIncreases(order: seq<string>, names: set<string>)
    requires Increasing(order)
    ensures Increasing(Select(order, names))
  {
    if order != [] {
      SelectIncreases(order[1..], names);
      SelectHolds(order[1..], names);
      var t := Select(order[1..], names);
      assert forall f :: f in t ==> Rank(order[0]) < Rank(f);
    }
  }

  /** Two increasing sequences of the same fields are the same sequence. */
  lemma {:induction false} IncreasingIsUnique(a: seq<string>, b: seq<string>)
    requires Increasing(a) && Increasing(b) && forall f :: f in a <==> f in b
    ensures a == b
  {
    assert |b| > 0 ==> b[0] in b;
    if a != [] {
      assert a[0] in a && a[0] in b;
      assert b[0] in a;
      assert Rank(a[0]) <= Rank(b[0]) && Rank(b[0]) <= Rank(a[0]);
      assert a[0] == b[0];
      forall f ensures f in a[1..] <==> f in b[1..] {
        if f in a[1..] { assert f in a && Rank(a[0]) < Rank(f); }
        if f in b[1..] { assert f in b && Rank(b[0]) < Rank(f); }
      }
      IncreasingIsUnique(a[1..], b[1..]);
    }
  }

  method NormalizeManualFields(raw: seq<string>) returns (fields: seq<string>)
    ensures fields == Normal(raw)
  {
    var seen: set<string> := {};
    var found: seq<string> := [];
    for i := 0 to |raw|
      invariant seen == set f | f in raw[..i] && Clean(f) in ORDER :: Clean(f)
      invariant (forall f :: f in found <==> f in seen) && forall f :: f in found ==> f in ORDER
      invariant Increasing(Sorted(found)) && forall f :: f in Sorted(found) <==> f in found
    {
      hide Clean, Rank;
      var field := Clean(raw[i]);
      assert raw[..i + 1] == raw[..i] + [raw[i]];
      if field in ORDER && field !in seen {
        forall f | f in Sorted(found) ensures Rank(f) != Rank(field) {
          if Rank(f) == Rank(field) { RankInjective(f, field); }
        }
        InsertInOrderHolds(Sorted(found), field);
        assert (found + [field])[..|found|] == found;
        seen := seen + {field};
        found := found + [field];
      }
    }
    fields := Sorted(found);
    assert raw[..|raw|] == raw;
    NormalHolds(raw);
    OrderIncreases();
    SelectIncreases(ORDER, Named(raw));
    IncreasingIsUnique(fields, Normal(raw));
  }
}
