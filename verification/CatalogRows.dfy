/** What the write paths leave in a row, column by column, from the tables before and after. */
module CatalogRows {
  import opened Common
  import opened ManualFields
  import opened Catalog

  // ----- A download -----

  /** `given` unless it is empty. */
  function Else(given: string, other: string): string { if given != "" then given else other }

  /** The columns that a download fills whether its row is new or is overwritten. */
  predicate HoldsDownload(q: Cleanup, p: Photo, row: Photo) {
    && row.sourcePage == p.sourcePage && row.filePath == p.filePath && row.fileName == p.fileName
    && row.fileSize == p.fileSize && row.source == p.source && row.hidden == p.hidden
    && row.hash == p.hash && row.status == p.status
    && row.category == Else(p.category, q.category(p.sourcePage)) && row.provider == Else(p.provider, DEFAULT_PROVIDER)
  }

  /** A row that is overwritten keeps its url, its first download's time and its locks; a locked column stays as it
      is, an open one gets the cleaned value of the download; and the error is gone. */
  predicate IsOverwritten(q: Cleanup, prior: Photo, p: Photo, row: Photo) {
    && HoldsDownload(q, p, row)
    && row.url == prior.url && row.downloadedAt == prior.downloadedAt && row.manual == prior.manual && row.error == ""
    && row.date == (if "date" in prior.manual then prior.date else p.date)
    && row.notes == (if "note" in prior.manual then prior.notes else p.notes)
    && row.title == (if "title" in prior.manual then prior.title else q.title(p.title, p.fileName))
    && row.artist == (if "artist" in prior.manual then prior.artist else q.artist(p.artist))
    && row.keywords == (if "keywords" in prior.manual then prior.keywords else q.keywords(row.artist, p.keywords))
  }

  /** A new row has what the download brought, cleaned where the download's own locks do not forbid it. */
  ghost predicate IsFresh(q: Cleanup, p: Photo, row: Photo) {
    && HoldsDownload(q, p, row)
    && row.url == p.url && row.downloadedAt == p.downloadedAt && row.error == p.error
    && row.date == p.date && row.notes == p.notes && row.artist == q.artist(p.artist)
    && (forall f :: f in row.manual <==> f in ORDER && f in Named(p.manual))
    && row.title == (if "title" in row.manual then p.title else q.title(p.title, p.fileName))
    && row.keywords == (if "keywords" in row.manual then p.keywords else q.keywords(row.artist, p.keywords))
  }

  /** One row of `t` took the download, and the others are those of `s`. */
  ghost predicate OneRowTakes(q: Cleanup, s: State, p: Photo, t: State, id: nat) {
    && id in t.photos && t.photos.Keys == s.photos.Keys + {id} && t.inbox == s.inbox
    && (forall k :: k in s.photos && k != id ==> t.photos[k] == s.photos[k])
    && (id in s.photos ==>
        OwnsUrl(s.photos, id, p.url) && s.photos[id].status != DOWNLOADED &&
          IsOverwritten(q, s.photos[id], p, t.photos[id]))
    && (id !in s.photos ==> (forall k :: !OwnsUrl(s.photos, k, p.url)) && IsFresh(q, p, t.photos[id]))
  }

  lemma LockTest(p: Photo)
    requires IsNormal(p.manual)
    ensures forall f :: f in ORDER ==> (HasField(p.manual, f) <==> f in p.manual)
  {
    forall f | f in ORDER ensures HasField(p.manual, f) <==> f in p.manual { LockTestsAgree(p.manual, f); }
  }

  lemma LockNames()
    ensures "title" in ORDER && "artist" in ORDER && "date" in ORDER && "keywords" in ORDER && "note" in ORDER
  {
    assert ORDER[0] == "artist" && ORDER[1] == "date" && ORDER[2] == "keywords" && ORDER[3] == "note" &&
           ORDER[4] == "title";
  }

  lemma OverwriteHolds(q: Cleanup, prior: Photo, p: Photo)
    requires IsNormal(prior.manual)
    ensures IsOverwritten(q, prior, p, Assigned(q, prior, Locked(p, prior)))
  {
    LockTest(prior);
    LockNames();
    hide HasField, Normal;
  }

  lemma FreshHolds(q: Cleanup, p: Photo)
    ensures IsFresh(q, p, BeforeSave(q, p))
  {
    FieldMeansNamed(p.manual);
    LockNames();
    NormalHolds(p.manual);
    hide HasField, Normal, Named;
  }

  /** The Go lock test on any list asks for the cleaned names. */
  lemma FieldMeansNamed(fields: seq<string>)
    ensures forall f :: f in ORDER ==> (HasField(fields, f) <==> f in Named(fields))
  {
    CleanKeepsOrder();
    hide Clean;
  }

  /** A download that wins is in the url's row, whole. */
  lemma DownloadIsInItsRow(q: Cleanup, s: State, p: Photo) returns (id: nat)
    requires Inv(s) && RecordDownload(q, s, p).1 == Won
    ensures OneRowTakes(q, s, p, RecordDownload(q, s, p).0, id)
  {
    hide Inv, Normal, UrlKey, IsFresh, IsOverwritten, HashTaken;
    id := WhichRow(s, p);
    FreshHolds(q, p);
    if id in s.photos {
      RowIsNormal(s, id);
      OverwriteHolds(q, s.photos[id], p);
    }
  }

  lemma DownloadOrDuplicateIsInItsRow(q: Cleanup, s: State, p: Photo, dup: Option<InboxItem>, named: Constraint)
    returns (id: nat)
    requires Inv(s) && RecordDownloadOrDuplicate(q, s, p, dup, named).1 == Won
    ensures OneRowTakes(q, s, p, RecordDownloadOrDuplicate(q, s, p, dup, named).0, id)
  {
    hide Inv, Normal, UrlKey, IsFresh, IsOverwritten, HashTaken, RouteDuplicate;
    NotWonRoutes(q, s, p, dup, named);
    id := WhichRow(s, p);
    FreshHolds(q, p);
    if id in s.photos {
      RowIsNormal(s, id);
      OverwriteHolds(q, s.photos[id], p);
    }
  }

  lemma WhichRow(s: State, p: Photo) returns (id: nat)
    requires Inv(s)
    ensures id == (if Owner(s.photos, p.url).Some? then Owner(s.photos, p.url).value else s.nextId)
    ensures id in s.photos <==> Owner(s.photos, p.url).Some?
  {
    id := if Owner(s.photos, p.url).Some? then Owner(s.photos, p.url).value else s.nextId;
  }

  // ----- Failures, edits and routing -----

  /** Only row `id` differs, and the inbox stays. */
  ghost predicate OnlyRow(s: State, t: State, id: nat) {
    && id in t.photos && t.photos.Keys == s.photos.Keys + {id} && t.inbox == s.inbox
    && forall k :: k in s.photos && k != id ==> t.photos[k] == s.photos[k]
  }

  /** A failure changes status, error and provider of the url's row, or makes a row of nothing else. */
  lemma FailureIsInItsRow(q: Cleanup, s: State, provider: string, url: string, message: string) returns (id: nat)
    requires Inv(s)
    ensures var t := RecordFailed(q, s, provider, url, message);
            && OnlyRow(s, t, id) && OwnsUrl(t.photos, id, url)
            && t.photos[id].status == "failed" && t.photos[id].error == message
            && t.photos[id].provider == Else(Trim(provider), DEFAULT_PROVIDER)
            && (id in s.photos ==>
                var row := t.photos[id];
                OwnsUrl(s.photos, id, url) &&
                  row == s.photos[id].(status := row.status, error := row.error, provider := row.provider))
            && (id !in s.photos ==> IsFresh(q, BLANK.(url := url, status := "failed", error := message,
                                                      provider := Else(Trim(provider), DEFAULT_PROVIDER)),
                                 t.photos[id]))
  {
    hide Inv, Normal, UrlKey, IsFresh, HashTaken, Trim;
    id := WhichRow(s, BLANK.(url := url));
    FreshHolds(
      q,
      BLANK.(url := url, status := "failed", error := message, provider := Else(Trim(provider), DEFAULT_PROVIDER)));
    BlankHolds();
  }

  lemma BlankHolds()
    ensures DEFAULT_PROVIDER != ""
  {}

  /** The present fields are written as the editor gave them, trimmed or cleaned, the others stay, and the locks are
      those of the row and the given ones. */
  ghost predicate IsEdited(q: Cleanup, prior: Photo, e: Edit, row: Photo) {
    && row == prior.(title := row.title, artist := row.artist, date := row.date, keywords := row.keywords,
                     notes := row.notes, manual := row.manual)
    && row.title == (if e.title.Some? then Trim(e.title.value) else prior.title)
    && row.artist == (if e.artist.Some? then q.artist(e.artist.value) else prior.artist)
    && row.date == (if e.date.Some? then e.date.value else prior.date)
    && row.keywords == (if e.keywords.Some? then e.keywords.value else prior.keywords)
    && row.notes == (if e.note.Some? then Trim(e.note.value) else prior.notes)
    && forall f :: f in row.manual <==> f in ORDER && (f in Named(prior.manual) || f in Named(e.locks))
  }

  /** An edit that gives at least one field. */
  predicate Gives(e: Edit) {
    e.title.Some? || e.artist.Some? || e.date.Some? || e.keywords.Some? || e.note.Some?
  }

  lemma EditedHolds(q: Cleanup, prior: Photo, e: Edit)
    ensures IsEdited(q, prior, e, Edited(q, prior, e))
  {
    NormalHolds(prior.manual + e.locks);
    NamedBoth(prior.manual, e.locks);
    hide Normal, Named, Trim;
  }

  lemma EditIsInItsRow(q: Cleanup, s: State, id: nat, e: Edit)
    requires id in s.photos && Gives(e)
    ensures var t := UpdateMetadata(q, s, id, e); OnlyRow(s, t, id) && IsEdited(q, s.photos[id], e, t.photos[id])
  {
    EditedHolds(q, s.photos[id], e);
    hide IsEdited, Edited;
  }

  /** An edit of nothing, or of no row, changes nothing. */
  lemma NoEditChangesNothing(q: Cleanup, s: State, id: nat, e: Edit)
    requires id !in s.photos || !Gives(e)
    ensures UpdateMetadata(q, s, id, e) == s
  {}

  lemma BulkEditIsInItsRows(q: Cleanup, s: State, ids: set<nat>, edits: nat -> Edit)
    ensures var t := BulkEdit(q, s, ids, edits);
            && t.photos.Keys == s.photos.Keys && t.inbox == s.inbox
            && forall id :: id in s.photos ==>
               if id in ids && Gives(edits(id)) then IsEdited(q, s.photos[id], edits(id), t.photos[id])
               else t.photos[id] == s.photos[id]
  {
    forall id ensures id in s.photos ==> IsEdited(q, s.photos[id], edits(id), Edited(q, s.photos[id], edits(id))) {
      if id in s.photos { EditedHolds(q, s.photos[id], edits(id)); }
    }
    hide IsEdited, Edited;
  }

  lemma RouteIsInItsRows(s: State, ids: set<nat>, hidden: bool, source: Option<nat>)
    ensures var t := Route(s, ids, hidden, source);
            && t.photos.Keys == s.photos.Keys && t.inbox == s.inbox
            && (forall id :: id in s.photos && id !in ids ==> t.photos[id] == s.photos[id])
            && forall id :: id in s.photos && id in ids ==>
               var row := t.photos[id];
               && row == s.photos[id].(hidden := row.hidden, source := row.source)
               && row.hidden == hidden && row.source == (if source.Some? then source else s.photos[id].source)
  {
  }

  /** A downloaded row is taken out of the catalog; other rows do not change, nor does a row of another status. */
  lemma ExclusionIsInItsRow(s: State, id: nat, message: string)
    ensures var t := Exclude(s, id, message);
            if id in s.photos && s.photos[id].status == "downloaded" then
              && OnlyRow(s, t, id) && t.photos[id] == s.photos[id].(status := t.photos[id].status, error := message)
              && t.photos[id].status == "failed"
            else t == s
  {
  }

  /** A missing hash is filled in, unless another row has the content: then the row is marked deleted. */
  lemma HashIsInItsRow(s: State, id: nat, hash: nat)
    requires id in s.photos && s.photos[id].hash.None?
    ensures var t := FillHash(s, id, hash);
            && OnlyRow(s, t, id)
            && var row := t.photos[id];
               && row == s.photos[id].(hash := row.hash, status := row.status, error := row.error)
               && if exists k :: k in s.photos && k != id && s.photos[k].hash == Some(hash)
                  then row.hash.None? && row.status == "deleted"
                  else row.hash == Some(hash) && row.status == s.photos[id].status && row.error == s.photos[id].error
  {
  }

  // ----- The legacy load -----

  /** The legacy row replaces everything it carries but locked fields, and never notes, keywords or hashes. */
  lemma LegacyIsInItsRow(q: Cleanup, s: State, id: nat, row: Photo)
    requires Inv(s) && Owner(s.photos, row.url).Some?
    ensures var own, t := Owner(s.photos, row.url).value, LoadLegacy(q, s, id, row);
            && OnlyRow(s, t, own)
            && var before, after := s.photos[own], t.photos[own];
               && after == before.(sourcePage := row.sourcePage, fileName := row.fileName, filePath := row.filePath,
                                   fileSize := row.fileSize, status := row.status, error := row.error,
                                   downloadedAt := row.downloadedAt, title := after.title, artist := after.artist,
                                   date := after.date)
               && after.title == (if "title" in before.manual then before.title else q.title(row.title, row.fileName))
               && after.artist == (if "artist" in before.manual then before.artist else row.artist)
               && after.date == (if "date" in before.manual then before.date else row.date)
  {
  }

  /** A url that no row has is inserted under the legacy id, if that is free, with cleaned title and derived
      category; otherwise nothing changes. */
  lemma LegacyIsANewRow(q: Cleanup, s: State, id: nat, row: Photo)
    requires Inv(s) && Owner(s.photos, row.url).None?
    ensures var t := LoadLegacy(q, s, id, row);
            if id in s.photos then t == s
            else
              && OnlyRow(s, t, id) && id < t.nextId && s.nextId <= t.nextId
              && var fresh' := t.photos[id];
                 && fresh'.url == row.url && fresh'.sourcePage == row.sourcePage && fresh'.artist == row.artist
                 && fresh'.date == row.date && fresh'.filePath == row.filePath && fresh'.fileName == row.fileName
                 && fresh'.fileSize == row.fileSize && fresh'.downloadedAt == row.downloadedAt
                 && fresh'.status == row.status && fresh'.error == row.error
                 && fresh'.title == q.title(row.title, row.fileName) && fresh'.category == q.category(row.sourcePage)
                 && fresh'.provider == DEFAULT_PROVIDER && fresh'.manual == [] && fresh'.keywords == [] &&
                    fresh'.notes == ""
                 && fresh'.hash.None? && fresh'.source.None? && !fresh'.hidden
  {
  }

  // ----- The inbox -----

  /** Only the item under `fp` differs, and the photos stay. */
  ghost predicate OnlyItem(s: State, t: State, fp: string) {
    && fp in t.inbox && t.inbox.Keys == s.inbox.Keys + {fp} && t.photos == s.photos && t.nextId == s.nextId
    && forall k :: k in s.inbox && k != fp ==> t.inbox[k] == s.inbox[k]
  }

  /** An exception is filed under its fingerprint: a new one whole; one that is there already is brought up to
      date, keeps its status, and loses no hash. */
  lemma ExceptionIsInItsItem(q: Cleanup, s: State, i: InboxItem)
    requires (i.status == "duplicate" || i.status == "ambiguous") && i.provider != ""
    ensures RecordException(q, s, i).Some?
    ensures var t, fp := RecordException(q, s, i).value, Fingerprint(i);
            && OnlyItem(s, t, fp)
            && var after := t.inbox[fp];
               && after.sourceId == i.sourceId && after.mediaId == i.mediaId && after.sourceUrl == i.sourceUrl
               && after.title == q.title(i.title, "") && after.artist == q.artist(i.artist) && after.reason == i.reason
               && (fp !in s.inbox ==>
                   after == i.(title := after.title, artist := after.artist))
               && (fp in s.inbox ==>
                   var before := s.inbox[fp];
                   && after.provider == before.provider && after.dedupeKey == before.dedupeKey
                   && after.status == before.status && after.hash == (if i.hash.Some? then i.hash else before.hash))
  {
    hide Fingerprint;
  }

  /** Other statuses, and items without a provider, are refused. */
  lemma OtherItemsAreRefused(q: Cleanup, s: State, i: InboxItem)
    requires (i.status != "duplicate" && i.status != "ambiguous") || i.provider == ""
    ensures RecordException(q, s, i).None?
  {}

  /** A download that loses is filed as a duplicate with its own content hash, and nothing else is. */
  lemma LoserIsInItsItem(q: Cleanup, s: State, p: Photo, i: InboxItem, named: Constraint)
    requires RecordDownloadOrDuplicate(q, s, p, Some(i), named).1 == Lost && i.status == "duplicate"
    ensures var t, fp := RecordDownloadOrDuplicate(q, s, p, Some(i), named).0, Fingerprint(i);
            OnlyItem(s, t, fp) && (p.hash.Some? ==> t.inbox[fp].hash == p.hash) && t.inbox[fp].sourceUrl == i.sourceUrl
  {
    hide Fingerprint, HashTaken, Insert, Overwrite;
    NotWonRoutes(q, s, p, Some(i), named);
    SameFingerprint(i, p.hash);
  }

  /** The fingerprint does not depend on the hash. */
  lemma SameFingerprint(i: InboxItem, hash: Option<nat>)
    ensures Fingerprint(i.(hash := hash)) == Fingerprint(i)
  {}

  /** An open exception gets the operator's decision and nothing else; anything else changes nothing. */
  lemma DecisionIsInItsItem(s: State, fp: string, status: string)
    ensures var t := Resolve(s, fp, status);
            if && fp in s.inbox && (s.inbox[fp].status == "duplicate" || s.inbox[fp].status == "ambiguous")
               && status in ["kept", "skipped", "moved"]
            then OnlyItem(s, t, fp) && t.inbox[fp] == s.inbox[fp].(status := status)
            else t == s
  {
  }
}
