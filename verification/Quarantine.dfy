/** The migration statement that clears the way for the unique content_hash index: of every group of
    rows with the same content one stays, the others lose their hash and go to the inbox. */
module Quarantine {
  import opened Common
  import opened ManualFields
  import opened Catalog

  /** ORDER BY: downloaded rows first, then the earliest download (missing times last), then the id. */
  predicate Before(photos: map<nat, Photo>, a: nat, b: nat)
    requires a in photos && b in photos
  {
    var p, r := photos[a], photos[b];
    var pd, rd := p.status == DOWNLOADED, r.status == DOWNLOADED;
    if pd != rd then pd
    else if p.downloadedAt != r.downloadedAt then
      r.downloadedAt.None? || (p.downloadedAt.Some? && p.downloadedAt.value < r.downloadedAt.value)
    else a < b
  }

  ghost predicate SameContent(photos: map<nat, Photo>, a: nat, b: nat) {
    a in photos && b in photos && photos[a].hash.Some? && photos[a].hash == photos[b].hash
  }

  /** A row with a row number above 1 in its partition. */
  ghost predicate IsLoser(photos: map<nat, Photo>, id: nat) {
    exists other :: SameContent(photos, other, id) && Before(photos, other, id)
  }

  function Emptied(p: Photo): Photo {
    p.(hash := None, status := "deleted", error := "quarantined as pre-existing exact content hash duplicate")
  }

  ghost function PhotosAfter(photos: map<nat, Photo>): map<nat, Photo> {
    map id | id in photos :: if IsLoser(photos, id) then Emptied(photos[id]) else photos[id]
  }

  function LoserPrint(p: Photo): string {
    "k" + SEPARATOR + p.provider + SEPARATOR + "duplicate" + SEPARATOR + p.url
  }

  ghost predicate IsLoserPrint(photos: map<nat, Photo>, id: nat, fp: string) {
    id in photos && IsLoser(photos, id) && LoserPrint(photos[id]) == fp
  }

  /** Two losers would write the same inbox row; the database refuses the statement. */
  ghost predicate Collides(photos: map<nat, Photo>) {
    exists a, b, fp :: a != b && IsLoserPrint(photos, a, fp) && IsLoserPrint(photos, b, fp)
  }

  const REASON := "pre-existing exact content hash duplicate quarantined"

  function Inboxed(inbox: map<string, InboxItem>, fp: string, p: Photo): InboxItem {
    if fp in inbox then inbox[fp].(sourceUrl := p.sourcePage, title := p.title, artist := p.artist, reason := REASON)
    else InboxItem(p.provider, p.url, "", "", p.sourcePage, p.title, p.artist, "duplicate", REASON, None)
  }

  ghost function InboxAfter(photos: map<nat, Photo>, inbox: map<string, InboxItem>): map<string, InboxItem> {
    var prints := set id | id in photos && IsLoserPrint(photos, id, LoserPrint(photos[id])) :: LoserPrint(photos[id]);
    map fp | fp in inbox.Keys + prints ::
      if fp in prints then var id :| IsLoserPrint(photos, id, fp); Inboxed(inbox, fp, photos[id]) else inbox[fp]
  }

  ghost function Apply(s: State): Option<State> {
    if Collides(s.photos) then None
    else Some(s.(photos := PhotosAfter(s.photos), inbox := InboxAfter(s.photos, s.inbox)))
  }

  // ----- The order picks one winner per group -----

  lemma BeforeIsTotal(photos: map<nat, Photo>, a: nat, b: nat)
    requires a in photos && b in photos && a != b
    ensures Before(photos, a, b) != Before(photos, b, a)
  {
  }

  lemma BeforeIsTransitive(photos: map<nat, Photo>, a: nat, b: nat, c: nat)
    requires a in photos && b in photos && c in photos && Before(photos, a, b) && Before(photos, b, c)
    ensures Before(photos, a, c)
  {
  }

  lemma {:induction false} FirstOf(photos: map<nat, Photo>, ids: set<nat>) returns (first: nat)
    requires ids != {} && ids <= photos.Keys
    ensures first in ids && forall id :: id in ids && id != first ==> Before(photos, first, id)
    decreases |ids|
  {
    var x :| x in ids;
    var rest := ids - {x};
    if rest == {} {
      assert ids == {x};
      first := x;
    } else {
      hide Before;
      var y := FirstOf(photos, rest);
      BeforeIsTotal(photos, x, y);
      first := if Before(photos, x, y) then x else y;
      forall id | id in ids && id != first ensures Before(photos, first, id) {
        if first == x && id != y { BeforeIsTransitive(photos, x, y, id); }
      }
    }
  }

  /** Every group of equal content keeps exactly one row, and a downloaded one if it has any. */
  lemma GroupKeepsOne(photos: map<nat, Photo>, id: nat) returns (winner: nat)
    requires id in photos && photos[id].hash.Some?
    ensures SameContent(photos, winner, id) && !IsLoser(photos, winner)
    ensures forall other :: SameContent(photos, other, id) && other != winner ==> IsLoser(photos, other)
    ensures photos[id].status == DOWNLOADED ==> photos[winner].status == DOWNLOADED
  {
    var group := set k | k in photos && photos[k].hash == photos[id].hash;
    assert id in group;
    winner := FirstOf(photos, group);
    forall other | SameContent(photos, other, id) && other != winner ensures IsLoser(photos, other) {
      assert other in group && SameContent(photos, winner, other);
    }
    if IsLoser(photos, winner) {
      var other :| SameContent(photos, other, winner) && Before(photos, other, winner);
      assert other in group;
      if other != winner { BeforeIsTotal(photos, other, winner); }
    }
  }

  // ----- What the statement achieves -----

  lemma HashesBecomeUnique(photos: map<nat, Photo>)
    ensures UniqueHashes(PhotosAfter(photos))
  {
    var after := PhotosAfter(photos);
    forall a, b | a in after && b in after && after[a].hash.Some? && after[a].hash == after[b].hash ensures a == b {
      var w := GroupKeepsOne(photos, a);
      assert SameContent(photos, a, a) && SameContent(photos, b, a);
    }
  }

  ghost function Hashes(photos: map<nat, Photo>): set<nat> {
    set id | id in photos && photos[id].hash.Some? :: photos[id].hash.value
  }

  lemma HashesStay(photos: map<nat, Photo>)
    ensures Hashes(PhotosAfter(photos)) == Hashes(photos)
  {
    var after := PhotosAfter(photos);
    forall h | h in Hashes(photos) ensures h in Hashes(after) {
      var id :| id in photos && photos[id].hash == Some(h);
      var w := GroupKeepsOne(photos, id);
      assert w in after && after[w].hash == Some(h);
    }
  }

  /** If a downloaded row had the content, the row that has it afterwards is downloaded. */
  lemma DownloadedOwnerStays(photos: map<nat, Photo>, before: nat, now: nat)
    requires before in photos && photos[before].hash.Some? && photos[before].status == DOWNLOADED
    requires now in photos && PhotosAfter(photos)[now].hash == photos[before].hash
    ensures PhotosAfter(photos)[now].status == DOWNLOADED && PhotosAfter(photos)[now] == photos[now]
  {
    var w := GroupKeepsOne(photos, before);
    assert SameContent(photos, now, before);
  }

  /** The row that keeps the content is a downloaded one if there is one, and of those the one downloaded
      first, rows without a time last; the least id decides between equal times. */
  lemma EarliestDownloadStays(photos: map<nat, Photo>, now: nat, other: nat)
    requires now in photos && other in photos && other != now && photos[other].hash.Some?
    requires PhotosAfter(photos)[now].hash == photos[other].hash
    ensures photos[other].status == DOWNLOADED ==> photos[now].status == DOWNLOADED
    ensures (photos[other].status == DOWNLOADED <==> photos[now].status == DOWNLOADED) ==>
              && (photos[other].downloadedAt.Some? ==>
                    photos[now].downloadedAt.Some? &&
                      photos[now].downloadedAt.value <= photos[other].downloadedAt.value)
              && (photos[other].downloadedAt == photos[now].downloadedAt ==> now < other)
  {
    assert !IsLoser(photos, now);
    assert SameContent(photos, other, now);
    BeforeIsTotal(photos, now, other);
  }

  function FirstSeparator(s: string): nat {
    if s == [] || s[0] == SEPARATOR[0] then 0 else 1 + FirstSeparator(s[1..])
  }

  lemma {:induction false} FirstSeparatorFound(a: string, x: string)
    requires SEPARATOR[0] !in a
    ensures FirstSeparator(a + (SEPARATOR + x)) == |a|
  {
    if a != [] {
      FirstSeparatorFound(a[1..], x);
      assert (a + (SEPARATOR + x))[1..] == a[1..] + (SEPARATOR + x);
    }
  }

  lemma SplitAtSeparator(a: string, b: string, x: string, y: string)
    requires SEPARATOR[0] !in a && SEPARATOR[0] !in b
    requires a + (SEPARATOR + x) == b + (SEPARATOR + y)
    ensures a == b && x == y
  {
    FirstSeparatorFound(a, x);
    FirstSeparatorFound(b, y);
    var s, t := a + (SEPARATOR + x), b + (SEPARATOR + y);
    assert a == s[..|a|] && b == t[..|b|];
    assert x == s[|a| + 1..] && y == t[|b| + 1..];
  }

  /** Distinct urls give distinct inbox fingerprints, so the statement is never refused, as long as no
      provider id contains the separator. */
  lemma LosersHaveOwnPrints(s: State)
    requires UniqueUrls(s.photos)
    requires forall id :: id in s.photos ==> SEPARATOR[0] !in s.photos[id].provider
    ensures !Collides(s.photos) && Apply(s).Some?
  {
    forall a, b, fp | a != b && IsLoserPrint(s.photos, a, fp) && IsLoserPrint(s.photos, b, fp) ensures false {
      var p, r := s.photos[a], s.photos[b];
      PrintsDiffer(p, r);
    }
  }

  lemma PrintsDiffer(p: Photo, r: Photo)
    requires LoserPrint(p) == LoserPrint(r) && SEPARATOR[0] !in p.provider && SEPARATOR[0] !in r.provider
    ensures p.url == r.url
  {
    var mid := "duplicate" + SEPARATOR;
    var head := "k" + SEPARATOR;
    var u, v := p.provider + (SEPARATOR + (mid + p.url)), r.provider + (SEPARATOR + (mid + r.url));
    assert LoserPrint(p) == head + u && LoserPrint(r) == head + v;
    assert u == LoserPrint(p)[2..] && v == LoserPrint(r)[2..];
    SplitAtSeparator(p.provider, r.provider, mid + p.url, mid + r.url);
    assert p.url == (mid + p.url)[|mid|..] && r.url == (mid + r.url)[|mid|..];
  }

  /** Every loser ends without its hash, deleted, and in the inbox under its own fingerprint; every other
      row is as before; inbox items that were there keep their status. */
  lemma LosersAreInboxed(s: State)
    requires Apply(s).Some?
    ensures var t := Apply(s).value;
            && t.photos.Keys == s.photos.Keys && s.inbox.Keys <= t.inbox.Keys
            && (forall id :: id in s.photos && !IsLoser(s.photos, id) ==> t.photos[id] == s.photos[id])
            && (forall id :: id in s.photos && IsLoser(s.photos, id) ==>
                  t.photos[id] == Emptied(s.photos[id]) && LoserPrint(s.photos[id]) in t.inbox
                  && t.inbox[LoserPrint(s.photos[id])] == Inboxed(s.inbox, LoserPrint(s.photos[id]), s.photos[id]))
            && (forall fp :: fp in s.inbox ==> t.inbox[fp].status == s.inbox[fp].status)
  {
    var t := Apply(s).value;
    forall id | id in s.photos && IsLoser(s.photos, id)
      ensures LoserPrint(s.photos[id]) in t.inbox
      ensures t.inbox[LoserPrint(s.photos[id])] == Inboxed(s.inbox, LoserPrint(s.photos[id]), s.photos[id])
    {
      assert IsLoserPrint(s.photos, id, LoserPrint(s.photos[id]));
      hide LoserPrint, IsLoser;
    }
    hide LoserPrint, IsLoser;
  }

  /** Field by field: a loser keeps everything but its hash, status and error; a new item in the Inbox is an open
      duplicate that names the row, and one that was there is brought up to date and keeps its ids. */
  lemma LosersInPlainTerms(s: State, id: nat)
    requires Apply(s).Some? && id in s.photos && IsLoser(s.photos, id)
    ensures var p, t := s.photos[id], Apply(s).value;
            && id in t.photos && LoserPrint(p) in t.inbox
            && var (q, i) := (t.photos[id], t.inbox[LoserPrint(p)]);
            && q.hash == None && q.status == "deleted"
            && q.error == "quarantined as pre-existing exact content hash duplicate"
            && q == p.(hash := None, status := q.status, error := q.error)
            && i.sourceUrl == p.sourcePage && i.title == p.title && i.artist == p.artist
            && i.reason == "pre-existing exact content hash duplicate quarantined"
            && (LoserPrint(p) !in s.inbox ==>
                  i.provider == p.provider && i.dedupeKey == p.url && i.sourceId == "" && i.mediaId == "" &&
                  i.status == "duplicate" && i.hash == None)
            && (LoserPrint(p) in s.inbox ==>
                  i == s.inbox[LoserPrint(p)].(sourceUrl := i.sourceUrl, title := i.title, artist := i.artist,
                    reason := i.reason))
  {
    hide LoserPrint, IsLoser;
    LosersAreInboxed(s);
  }

  /** Running it again changes nothing. */
  lemma RunningTwice(s: State)
    requires Apply(s).Some?
    ensures Apply(Apply(s).value) == Some(Apply(s).value)
  {
    var t := Apply(s).value;
    HashesBecomeUnique(s.photos);
    assert forall id, other :: SameContent(t.photos, other, id) ==> other == id;
    assert forall id :: !IsLoser(t.photos, id);
    hide IsLoser, LoserPrint;
    assert PhotosAfter(t.photos) == t.photos;
    assert forall id, fp :: !IsLoserPrint(t.photos, id, fp);
    assert InboxAfter(t.photos, t.inbox) == t.inbox;
  }
}
