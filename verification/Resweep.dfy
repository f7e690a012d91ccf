/** A later sweep over an item whose row an audit has taken out of the catalog: the ingest loop's round and the
    catalog's write path together. */
module Resweep {
  import opened Common
  import opened ManualFields
  import opened Catalog
  import Ingest

  // ----- A round on the tables -----

  /** What a connector serves: the item, the content hash that comes with its resolved media, if any, the photo
      that a download of it would record, and the inbox item for a duplicate. */
  datatype Offer = Offer(item: Ingest.Item, media: Option<nat>, photo: Photo, filed: InboxItem)

  predicate IsOfferOf(o: Offer) {
    o.photo.url == o.item.key && o.photo.status == DOWNLOADED && o.filed.status == "duplicate"
  }

  /** What else decides the round: the hashes that the cache knows an owner of, the index that the database
      names first, and what fails on the way; a store reply of StoreError is a file that does not download. */
  datatype Scene = Scene(hashes: set<nat>, named: Constraint, env: Ingest.Plan, provider: string, message: string)

  function DownloadedUrls(photos: map<nat, Photo>): set<string> {
    set id | id in photos && photos[id].status == DOWNLOADED :: UrlKey(photos[id].url)
  }

  ghost function Recorded(q: Cleanup, s: State, o: Offer, c: Scene): (State, Outcome) {
    RecordDownloadOrDuplicate(q, s, o.photo, Some(o.filed), c.named)
  }

  /** The plan of the round: the cache and the catalog decide what the loop sees of them. */
  ghost function PlanOf(q: Cleanup, s: State, o: Offer, c: Scene): Ingest.Plan {
    c.env.(hashKnown := o.media.Some? && o.media.value in c.hashes,
         store := if c.env.store.StoreError? then c.env.store
                  else match Recorded(q, s, o, c).1
                    case Won => Ingest.StoreReply.Won
                    case Lost => Ingest.StoreReply.Lost
                    case Refused => Ingest.StoreError)
  }

  ghost function Failed(q: Cleanup, s: State, c: Scene, url: string): State {
    if c.env.recordFails then s else RecordFailed(q, s, c.provider, url, c.message)
  }

  function Filed(q: Cleanup, s: State, o: Offer): State {
    match RecordException(q, s, o.filed.(hash := o.media))
    case Some(t) => t
    case None => s
  }

  /** `hit`: the cache answers that the content is known. */
  ghost function SweptResolved(q: Cleanup, s: State, hit: bool, o: Offer, c: Scene): State {
    if hit then (if c.env.inboxFails then s else Filed(q, s, o))
    else if c.env.sourceFails then s
    else if c.env.store.StoreError? then Failed(q, s, c, o.item.key)
    else
      var (t, outcome) := Recorded(q, s, o, c);
      if outcome == Refused then Failed(q, t, c, o.item.key) else t
  }

  /** The tables after the round. */
  ghost function Swept(q: Cleanup, s: State, n: Ingest.Now, o: Offer, c: Scene): State {
    if c.env.cancelled then s
    else if o.item.key == "" then Failed(q, s, c, "")
    else if Ingest.IsKnown(n, o.item, c.env) || c.env.lookupFails || Ingest.KeptRow(o.item, n.downloaded) then s
    else if c.env.refusal.Some? then (if c.env.refusal.value.NotFound? then Failed(q, s, c, o.item.key) else s)
    else SweptResolved(q, s, Ingest.IsHit(n, PlanOf(q, s, o, c)), o, c)
  }

  // ----- The loop's sets are those of the tables -----

  lemma FailureDemotes(q: Cleanup, s: State, provider: string, url: string, message: string)
    requires Inv(s)
    ensures DownloadedUrls(RecordFailed(q, s, provider, url, message).photos) == DownloadedUrls(s.photos) - {Trim(url)}
  {
    hide Inv, Trim, DownloadedUrls, FailedProvider;
    var t := RecordFailed(q, s, provider, url, message);
    var o := Owner(s.photos, url);
    OwnerIsOnly(s, url);
    NewIdIsFree(s);
    OneRowDemotes(s.photos, if o.Some? then o.value
      else s.nextId, t.photos[if o.Some? then o.value else s.nextId], url);
  }

  lemma NewIdIsFree(s: State)
    requires Inv(s)
    ensures s.nextId !in s.photos
  {}

  lemma OneRowDemotes(photos: map<nat, Photo>, id: nat, row: Photo, url: string)
    requires row.status != DOWNLOADED && forall k :: k in photos && UrlKey(photos[k].url) == UrlKey(url) ==> k == id
    requires id in photos ==> UrlKey(photos[id].url) == UrlKey(url)
    ensures DownloadedUrls(photos[id := row]) == DownloadedUrls(photos) - {UrlKey(url)}
  {
    hide Trim;
    var after := photos[id := row];
    forall u ensures u in DownloadedUrls(after) <==> u in DownloadedUrls(photos) - {UrlKey(url)} {
      if u in DownloadedUrls(after) {
        var k :| k in after && after[k].status == DOWNLOADED && UrlKey(after[k].url) == u;
        assert k != id && photos[k] == after[k];
      }
      if u in DownloadedUrls(photos) && u != UrlKey(url) {
        var k :| k in photos && photos[k].status == DOWNLOADED && UrlKey(photos[k].url) == u;
        assert after[k] == photos[k];
      }
    }
  }

  lemma RecordingAdds(q: Cleanup, s: State, o: Offer, c: Scene)
    requires Inv(s) && IsOfferOf(o)
    ensures var (t, outcome) := Recorded(q, s, o, c);
            && Inv(t) && (outcome != Won ==> t.photos == s.photos)
            && (outcome == Won ==> DownloadedUrls(t.photos) == DownloadedUrls(s.photos) + {Trim(o.item.key)})
  {
    hide Inv, Trim, RecordDownloadOrDuplicate, DownloadedUrls;
    DownloadOrDuplicateStep(q, s, o.photo, Some(o.filed), c.named);
    NotWonRoutes(q, s, o.photo, Some(o.filed), c.named);
    RoutingFiles(q, s, Some(o.filed), o.photo.hash);
    if Recorded(q, s, o, c).1 == Won {
      var id := WonWritesOneRow(q, s, o.photo, Some(o.filed), c.named);
      OneRowAdds(s.photos, id, Recorded(q, s, o, c).0.photos[id]);
    }
  }

  lemma OneRowAdds(photos: map<nat, Photo>, id: nat, row: Photo)
    requires row.status == DOWNLOADED && (id in photos ==> photos[id].status != DOWNLOADED)
    ensures DownloadedUrls(photos[id := row]) == DownloadedUrls(photos) + {UrlKey(row.url)}
  {
    hide Trim;
    var after := photos[id := row];
    assert after[id] == row;
    forall u ensures u in DownloadedUrls(after) <==> u in DownloadedUrls(photos) + {UrlKey(row.url)} {
      if u in DownloadedUrls(photos) {
        var k :| k in photos && photos[k].status == DOWNLOADED && UrlKey(photos[k].url) == u;
        assert after[k] == photos[k];
      }
      if u in DownloadedUrls(after) && u != UrlKey(row.url) {
        var k :| k in after && after[k].status == DOWNLOADED && UrlKey(after[k].url) == u;
        assert photos[k] == after[k];
      }
    }
  }

  lemma FailedDemotes(q: Cleanup, s: State, c: Scene, url: string)
    requires Inv(s)
    ensures DownloadedUrls(Failed(q, s, c, url).photos) == DownloadedUrls(s.photos) - if c.env.recordFails then {}
            else {Trim(url)}
  {
    FailureDemotes(q, s, c.provider, url, c.message);
  }

  lemma ResolvedTracksTables(q: Cleanup, s: State, n: Ingest.Now, o: Offer, c: Scene)
    requires Inv(s) && IsOfferOf(o) && n.downloaded == DownloadedUrls(s.photos)
    ensures var plan := PlanOf(q, s, o, c);
            var hit := plan.hashKnown && !n.offline && !plan.hashReadFails;
            Ingest.ServedResolved(n, o.item, plan).0.downloaded == DownloadedUrls(SweptResolved(q, s, hit, o, c).photos)
  {
    hide Inv, Trim, DownloadedUrls, Failed, Recorded, Filed, IsOfferOf;
    FilingKeepsPhotos(q, s, o);
    RecordingAdds(q, s, o, c);
    FailedDemotes(q, s, c, o.item.key);
    FailedDemotes(q, Recorded(q, s, o, c).0, c, o.item.key);
  }

  /** The round of the ingest loop and the write paths of the catalog go together: the loop's set of downloaded
      urls stays the set of urls of downloaded rows. */
  lemma RoundTracksTables(q: Cleanup, s: State, n: Ingest.Now, o: Offer, c: Scene)
    requires Inv(s) && IsOfferOf(o) && n.downloaded == DownloadedUrls(s.photos)
    ensures Ingest.ServedItem(n, o.item, PlanOf(q, s, o, c)).0.downloaded == DownloadedUrls(Swept(q, s, n, o, c).photos)
  {
    hide Inv, DownloadedUrls, Failed, Recorded, IsOfferOf, SweptResolved, Ingest.ServedResolved, Ingest.KeptRow, Trim;
    FailedDemotes(q, s, c, o.item.key);
    FailedDemotes(q, s, c, "");
    var m := Ingest.Offline(n, c.env.readFails);
    ResolvedTracksTables(q, s, m, o, c);
  }

  // ----- Restoring an excluded row -----

  /** Nothing on the way stops the sweep short of the catalog: the run goes on, the lookup and the source are
      there, and the connector still serves the item and its file. */
  predicate IsServed(o: Offer, c: Scene) {
    && !c.env.cancelled && o.item.key != "" && !c.env.lookupFails && c.env.refusal.None?
    && !c.env.sourceFails && !c.env.store.StoreError?
  }

  /** The cache lets the item through: it has not seen the key, nor does it know the content that the resolved
      media name; a cache that is offline, or fails to answer, lets everything through. */
  predicate IsLetThrough(n: Ingest.Now, o: Offer, c: Scene) {
    n.offline || c.env.readFails
    || (o.item.key !in n.seen && (o.media.Some? && o.media.value in c.hashes ==> c.env.hashReadFails))
  }

  /** The content is free for the row: no other row holds it, and the row itself does not, unless the database
      names the url index first. */
  ghost predicate IsFree(s: State, id: nat, o: Offer, c: Scene)
    requires id in s.photos
  {
    o.photo.hash.None?
    || ((forall other :: other in s.photos && other != id ==> s.photos[other].hash != o.photo.hash)
        && (s.photos[id].hash != o.photo.hash || c.named == UrlIndex))
  }

  /** A sweep over an item whose row is not downloaded restores the row if and only if the item is served, the
      cache lets it through, no downloaded row stands under its source URL, and its content is free. */
  lemma RestoredExactlyWhen(q: Cleanup, s: State, id: nat, n: Ingest.Now, o: Offer, c: Scene)
    requires Inv(s) && IsOfferOf(o) && n.downloaded == DownloadedUrls(s.photos)
    requires id in s.photos && s.photos[id].status != DOWNLOADED && UrlKey(s.photos[id].url) == UrlKey(o.item.key)
    ensures var t := Swept(q, s, n, o, c);
            id in t.photos &&
            (t.photos[id].status == DOWNLOADED <==>
              IsServed(o, c) && IsLetThrough(n, o, c) && !(o.item.alias != "" && Trim(o.item.alias) in n.downloaded) &&
                IsFree(s, id, o, c))
  {
    hide Trim, Inv, RecordFailed, DownloadedUrls, IsFree, IsOfferOf, SweptResolved;
    OwnUrlIsNotDownloaded(s, id, o.item.key);
    FailureKeepsIt(q, s, c.provider, "", c.message, id);
    FailureKeepsIt(q, s, c.provider, o.item.key, c.message, id);
    ResolvedRestoresIff(q, s, id, Ingest.IsHit(n, PlanOf(q, s, o, c)), o, c);
  }

  lemma ResolvedRestoresIff(q: Cleanup, s: State, id: nat, hit: bool, o: Offer, c: Scene)
    requires Inv(s) && IsOfferOf(o)
    requires id in s.photos && s.photos[id].status != DOWNLOADED && UrlKey(s.photos[id].url) == UrlKey(o.item.key)
    ensures var t := SweptResolved(q, s, hit, o, c);
            id in t.photos &&
            (t.photos[id].status == DOWNLOADED <==>
              !hit && !c.env.sourceFails && !c.env.store.StoreError? && IsFree(s, id, o, c))
  {
    hide Trim, Inv, RecordFailed, Recorded, Filed, DownloadedUrls, IsFree, IsOfferOf;
    FailureKeepsIt(q, s, c.provider, o.item.key, c.message, id);
    FilingKeepsPhotos(q, s, o);
    RecordedIff(q, s, id, o, c);
    RecordingAdds(q, s, o, c);
    if Recorded(q, s, o, c).1 == Refused {
      FailureKeepsIt(q, Recorded(q, s, o, c).0, c.provider, o.item.key, c.message, id);
    }
  }

  lemma OwnUrlIsNotDownloaded(s: State, id: nat, key: string)
    requires Inv(s) && id in s.photos && s.photos[id].status != DOWNLOADED && UrlKey(s.photos[id].url) == UrlKey(key)
    ensures Trim(key) !in DownloadedUrls(s.photos)
  {
    hide Trim;
  }

  lemma FailureKeepsIt(q: Cleanup, s: State, provider: string, url: string, message: string, id: nat)
    requires Inv(s) && id in s.photos && s.photos[id].status != DOWNLOADED
    ensures var t := RecordFailed(q, s, provider, url, message); id in t.photos && t.photos[id].status != DOWNLOADED
  {}

  lemma FilingKeepsPhotos(q: Cleanup, s: State, o: Offer)
    ensures Filed(q, s, o).photos == s.photos
  {}

  lemma RecordedIff(q: Cleanup, s: State, id: nat, o: Offer, c: Scene)
    requires Inv(s) && IsOfferOf(o) && id in s.photos && s.photos[id].status != DOWNLOADED
    requires UrlKey(s.photos[id].url) == UrlKey(o.item.key)
    ensures var (t, outcome) := Recorded(q, s, o, c);
            && (outcome == Won <==> IsFree(s, id, o, c))
            && (outcome == Won ==> id in t.photos && t.photos[id].status == DOWNLOADED)
  {
    hide Trim, Inv, RecordDownloadOrDuplicate;
    OwnerIsOnly(s, o.item.key);
    WinsExactlyWhenFree(q, s, o.photo, Some(o.filed), c.named);
    if Recorded(q, s, o, c).1 == Won {
      RecordingOutcomes(q, s, o.photo, Some(o.filed), c.named);
      var own := WonWritesOneRow(q, s, o.photo, Some(o.filed), c.named);
      assert OwnsUrl(s.photos, id, o.item.key);
    }
  }

  /** So for a row that an audit has just excluded and content that has not changed: the next sweep restores it
      exactly when the item is served, the cache lets it through, no other row stands in for it, and the row has
      no content hash or the database names the url index first. */
  lemma ExcludedRowIsRestoredIff(q: Cleanup, s: State, id: nat, message: string, n: Ingest.Now, o: Offer, c: Scene)
    requires Inv(s) && IsOfferOf(o) && id in s.photos && s.photos[id].status == DOWNLOADED
    requires UrlKey(s.photos[id].url) == UrlKey(o.item.key) && o.photo.hash == s.photos[id].hash
    requires n.downloaded == DownloadedUrls(Exclude(s, id, message).photos)
    ensures var t := Swept(q, Exclude(s, id, message), n, o, c);
            id in t.photos &&
            (t.photos[id].status == DOWNLOADED <==>
              && IsServed(o, c) && IsLetThrough(n, o, c) && !(o.item.alias != "" && Trim(o.item.alias) in n.downloaded)
              && (o.photo.hash.None? || c.named == UrlIndex))
  {
    hide Trim, Swept, DownloadedUrls, IsOfferOf;
    var t := Exclude(s, id, message);
    ExcludeStep(s, id, message);
    RestoredExactlyWhen(q, t, id, n, o, c);
  }

  /** A row whose key the cache has seen, as it has after the sweep that downloaded it, stays as it is, however
      free its content: nothing is downloaded, restored or filed. */
  lemma SeenRowStaysExcluded(q: Cleanup, s: State, n: Ingest.Now, o: Offer, c: Scene)
    requires !n.offline && !c.env.readFails && o.item.key in n.seen && o.item.key != ""
    ensures Swept(q, s, n, o, c) == s
    ensures Ingest.ServedItem(n, o.item, PlanOf(q, s, o, c)) == (n, if c.env.cancelled then Ingest.Halt(true)
            else Ingest.Skip)
  {}

  /** A sweep that downloads the item while the cache answers leaves it seen; and then the audit excludes the row,
      and every later sweep in which the cache still answers skips it. */
  lemma DownloadedThenExcludedStays(
      q: Cleanup, s: State, n: Ingest.Now, o: Offer, c: Scene, later: State, m: Ingest.Now, o': Offer, c': Scene)
    requires var (now, v) := Ingest.ServedItem(n, o.item, PlanOf(q, s, o, c)); v.Download? && now.seen <= m.seen
    requires !n.offline && !c.env.readFails && !c.env.hashReadFails && !c.env.markFails
    requires o'.item.key == o.item.key && !m.offline && !c'.env.readFails
    ensures Swept(q, later, m, o', c') == later
  {
    hide Ingest.ServedItem, Swept;
    Ingest.RoundKeepsBooks(n, o.item, PlanOf(q, s, o, c));
    if o.item.key == "" { KeylessIsNoDownload(n, o.item, PlanOf(q, s, o, c)); }
    SeenRowStaysExcluded(q, later, m, o', c');
  }

  lemma KeylessIsNoDownload(n: Ingest.Now, item: Ingest.Item, plan: Ingest.Plan)
    requires item.key == ""
    ensures !Ingest.ServedItem(n, item, plan).1.Download?
  {}
}
