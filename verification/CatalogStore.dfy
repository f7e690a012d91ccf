/** The catalog's write paths as the database handle runs them, each method proved against the step of
    the same name in `Catalog`. */
module CatalogStore {
  import opened Common
  import opened ManualFields
  import opened Catalog

  datatype Created = Inserted | Violates(index: Constraint)

  datatype OwnerUpdate = Updated | NoOwner | ContentViolation

  class Store {
    const q: Cleanup
    var photos: map<nat, Photo>
    var inbox: map<string, InboxItem>
    var nextId: nat

    constructor (q: Cleanup)
      ensures Model() == State(map[], map[], 0) && this.q == q && Valid()
    {
      this.q := q;
      photos, inbox, nextId := map[], map[], 0;
    }

    function Model(): State
      reads this
    {
      State(photos, inbox, nextId)
    }

    ghost predicate Valid()
      reads this
    {
      Inv(Model())
    }

    /** The row a lookup on url_hash finds. */
    method FindByUrl(url: string) returns (id: Option<nat>)
      requires Valid()
      ensures id == Owner(photos, url)
    {
      if k :| k in photos && UrlKey(photos[k].url) == UrlKey(url) {
        assert OwnsUrl(photos, k, url);
        id := Some(k);
      } else {
        assert forall k :: !OwnsUrl(photos, k, url);
        id := None;
      }
    }

    /** The check behind the unique content_hash index. */
    method IsHashTaken(hash: Option<nat>, but: set<nat>) returns (taken: bool)
      ensures taken == HashTaken(photos, hash, but)
    {
      taken := hash.Some? && exists k :: k in photos && k !in but && photos[k].hash == hash;
    }

    /** An INSERT; when both unique indexes are violated the database names `named`. */
    method Create(p: Photo, named: Constraint) returns (r: Created)
      requires Valid()
      modifies this
      ensures var owner, taken := Owner(old(photos), p.url), HashTaken(old(photos), p.hash, {});
              && (r.Inserted? <==> owner.None? && !taken)
              && (r == Violates(UrlIndex) <==> owner.Some? && (!taken || named == UrlIndex))
              && Model() == if r.Inserted? then Insert(q, old(Model()), p) else old(Model())
    {
      var owner := FindByUrl(p.url);
      var taken := IsHashTaken(p.hash, {});
      if owner.None? && !taken {
        photos := photos[nextId := BeforeSave(q, p)];
        nextId := nextId + 1;
        return Inserted;
      }
      return Violates(if owner.Some? && (!taken || named == UrlIndex) then UrlIndex else HashIndex);
    }

    method RecordDownload(photo: Photo) returns (ok: bool)
      requires Valid()
      modifies this
      ensures Valid()
      ensures (Model(), if ok then Won else Refused) == Catalog.RecordDownload(q, old(Model()), photo)
    {
      DownloadStep(q, Model(), photo);
      var existing := FindByUrl(photo.url);
      if existing.Some? {
        var id := existing.value;
        var row := photos[id];
        if row.status == DOWNLOADED { return false; }
        var locked := Locked(photo, row);
        var taken := IsHashTaken(photo.hash, {id});
        if taken { return false; }
        photos := photos[id := Assigned(q, row, locked)];
        return true;
      }
      var r := Create(photo, UrlIndex);
      return r.Inserted?;
    }

    /** updateNonDownloadedURLHashOwner */
    method UpdateNonDownloadedOwner(photo: Photo) returns (update: OwnerUpdate)
      requires Valid()
      modifies this
      ensures var owner := Owner(old(photos), photo.url);
              && (update.NoOwner? <==> owner.None? || old(photos)[owner.value].status == DOWNLOADED)
              && (update.ContentViolation? <==>
                    (owner.Some? && old(photos)[owner.value].status != DOWNLOADED &&
                      HashTaken(old(photos), photo.hash, {owner.value})))
              && Model() == if update.Updated? then Overwrite(q, old(Model()), owner.value, photo) else old(Model())
    {
      var existing := FindByUrl(photo.url);
      if existing.None? || photos[existing.value].status == DOWNLOADED { return NoOwner; }
      var id := existing.value;
      var taken := IsHashTaken(photo.hash, {id});
      if taken { return ContentViolation; }
      photos := photos[id := Assigned(q, photos[id], Locked(photo, photos[id]))];
      return Updated;
    }

    method RecordInboxException(item: InboxItem) returns (ok: bool)
      modifies this`inbox
      ensures ok <==> RecordException(q, old(Model()), item).Some?
      ensures Model() == if ok then RecordException(q, old(Model()), item).value else old(Model())
    {
      if item.status != "duplicate" && item.status != "ambiguous" { return false; }
      if item.provider == "" { return false; }
      var fp := Fingerprint(item);
      var title, artist := q.title(item.title, ""), q.artist(item.artist);
      if fp in inbox {
        var row := inbox[fp];
        row := row.(sourceId := item.sourceId, mediaId := item.mediaId, sourceUrl := item.sourceUrl,
                    title := title, artist := artist, reason := item.reason);
        if item.hash.Some? { row := row.(hash := item.hash); }
        inbox := inbox[fp := row];
      } else {
        inbox := inbox[fp := item.(title := title, artist := artist)];
      }
      return true;
    }

    method RouteDuplicateToInbox(duplicate: Option<InboxItem>, hash: Option<nat>) returns (ok: bool)
      modifies this`inbox
      ensures (Model(), if ok then Lost else Refused) == RouteDuplicate(q, old(Model()), duplicate, hash)
    {
      if duplicate.None? { return true; }
      var item := duplicate.value;
      if item.status == "duplicate" && hash.Some? { item := item.(hash := hash); }
      ok := RecordInboxException(item);
    }

    /** Ends in one of the three outcomes of `Catalog.RecordingOutcomes`. */
    method RecordDownloadOrDuplicate(photo: Photo, duplicate: Option<InboxItem>, named: Constraint)
      returns (outcome: Outcome)
      requires Valid()
      modifies this
      ensures Valid()
      ensures (Model(), outcome) == Catalog.RecordDownloadOrDuplicate(q, old(Model()), photo, duplicate, named)
    {
      ghost var s := Model();
      DownloadOrDuplicateStep(q, s, photo, duplicate, named);
      hide Inv, KeepsAllLocks, HashTaken, Insert, Overwrite, RouteDuplicate;
      var created := Create(photo, named);
      if created.Inserted? { return Won; }
      assert Model() == s;
      if created.index == UrlIndex {
        var update := UpdateNonDownloadedOwner(photo);
        if update.Updated? { return Won; }
      }
      var ok := RouteDuplicateToInbox(duplicate, photo.hash);
      return if ok then Lost else Refused;
    }

    method RecordFailedDownload(provider: string, url: string, message: string)
      requires Valid()
      modifies this
      ensures Valid() && Model() == RecordFailed(q, old(Model()), provider, url, message)
    {
      RecordFailedStep(q, Model(), provider, url, message);
      hide Inv;
      var existing := FindByUrl(url);
      if existing.Some? {
        var id := existing.value;
        photos := photos[id := photos[id].(provider := FailedProvider(provider), status := "failed", error := message)];
      } else {
        var created := Create(BLANK.(url := url, provider := FailedProvider(provider), status := "failed",
          error := message), UrlIndex);
      }
    }

    method UpdatePhotoMetadata(id: nat, update: Edit) returns (updated: bool)
      requires Valid()
      modifies this
      ensures Valid() && Model() == UpdateMetadata(q, old(Model()), id, update)
      ensures updated <==> !IsEmpty(update) && id in old(photos)
    {
      EditStep(q, Model(), id, update);
      if IsEmpty(update) || id !in photos { return false; }
      var row := photos[id];
      if update.title.Some? { row := row.(title := Trim(update.title.value)); }
      if update.artist.Some? { row := row.(artist := q.artist(update.artist.value)); }
      if update.date.Some? { row := row.(date := update.date.value); }
      if update.keywords.Some? { row := row.(keywords := update.keywords.value); }
      if update.note.Some? { row := row.(notes := Trim(update.note.value)); }
      var manual := NormalizeManualFields(row.manual + update.locks);
      photos := photos[id := row.(manual := manual)];
      return true;
    }

    method ResolveInboxItem(fp: string, status: string) returns (ok: bool)
      modifies this`inbox
      ensures Model() == Resolve(old(Model()), fp, status)
      ensures ok <==> (status == "kept" || status == "skipped" || status == "moved")
                      && fp in old(inbox) && IsException(old(inbox)[fp].status)
      ensures ok ==> fp in inbox && inbox[fp].status == status
    {
      if status != "kept" && status != "skipped" && status != "moved" { return false; }
      if fp !in inbox || !IsException(inbox[fp].status) { return false; }
      inbox := inbox[fp := inbox[fp].(status := status)];
      return true;
    }
  }
}
