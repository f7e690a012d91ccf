/** The catalog's two tables and what every write path does to them.  A transaction is one step; the
    photo table is keyed by id, the inbox by its unique fingerprint, and a hash by its preimage. */
module Catalog {
  import opened Common
  import opened ManualFields

  datatype Photo = Photo(
    url: string, sourcePage: string, title: string, artist: string, category: string, date: Option<nat>,
    filePath: string, fileName: string, fileSize: int, downloadedAt: Option<nat>, notes: string,
    keywords: seq<string>, manual: seq<string>, provider: string, source: Option<nat>, hidden: bool,
    hash: Option<nat>, status: string, error: string)

  datatype InboxItem = InboxItem(
    provider: string, dedupeKey: string, sourceId: string, mediaId: string, sourceUrl: string,
    title: string, artist: string, status: string, reason: string, hash: Option<nat>)

  datatype State = State(photos: map<nat, Photo>, inbox: map<string, InboxItem>, nextId: nat)

  /** The clean-up of titles, artists, keywords and categories; nothing here depends on what it does. */
  datatype Cleanup = Cleanup(
    title: (string, string) -> string,
    artist: string -> string,
    keywords: (string, seq<string>) -> seq<string>,
    category: string -> string)

  const DEFAULT_PROVIDER := "sight.photo"
  const SEPARATOR := "\U{1f}"

  // ----- Unique keys -----

  /** The preimage of url_hash. */
  function UrlKey(url: string): string { Trim(url) }

  ghost predicate UniqueUrls(photos: map<nat, Photo>) {
    forall a, b :: a in photos && b in photos && UrlKey(photos[a].url) == UrlKey(photos[b].url) ==> a == b
  }

  ghost predicate UniqueHashes(photos: map<nat, Photo>) {
    forall a, b :: a in photos && b in photos && photos[a].hash.Some? && photos[a].hash == photos[b].hash ==> a == b
  }

  ghost predicate OwnsUrl(photos: map<nat, Photo>, id: nat, url: string) {
    id in photos && UrlKey(photos[id].url) == UrlKey(url)
  }

  /** The row that owns a url. */
  ghost function Owner(photos: map<nat, Photo>, url: string): (r: Option<nat>)
    ensures r.Some? ==> OwnsUrl(photos, r.value, url)
    ensures r.None? ==> forall id :: !OwnsUrl(photos, id, url)
  {
    if id :| OwnsUrl(photos, id, url) then Some(id) else None
  }

  /** Another row holds the content hash. */
  ghost predicate HashTaken(photos: map<nat, Photo>, hash: Option<nat>, but: set<nat>) {
    hash.Some? && exists id :: id in photos && id !in but && photos[id].hash == hash
  }

  // ----- Rows -----

  /** The BeforeSave hook. */
  function BeforeSave(q: Cleanup, p: Photo): Photo {
    var artist := q.artist(p.artist);
    p.(artist := artist,
       title := if HasField(p.manual, "title") then p.title else q.title(p.title, p.fileName),
       keywords := if HasField(p.manual, "keywords") then p.keywords else q.keywords(artist, p.keywords),
       manual := Normal(p.manual),
       category := if p.category != "" then p.category else q.category(p.sourcePage),
       provider := if p.provider == "" then DEFAULT_PROVIDER else p.provider)
  }

  /** applyManualFieldLocks: what the existing row has locked replaces what the download brought. */
  function Locked(p: Photo, prior: Photo): Photo {
    p.(manual := prior.manual,
       title := if HasField(prior.manual, "title") then prior.title else p.title,
       artist := if HasField(prior.manual, "artist") then prior.artist else p.artist,
       date := if HasField(prior.manual, "date") then prior.date else p.date,
       keywords := if HasField(prior.manual, "keywords") then prior.keywords else p.keywords,
       notes := if HasField(prior.manual, "note") then prior.notes else p.notes)
  }

  /** downloadAssignments, applied to the row it overwrites. */
  function Assigned(q: Cleanup, prior: Photo, p: Photo): Photo {
    var artist := if HasField(p.manual, "artist") then p.artist else q.artist(p.artist);
    prior.(sourcePage := p.sourcePage,
         title := if HasField(p.manual, "title") then p.title else q.title(p.title, p.fileName),
         artist := artist,
         category := if p.category != "" then p.category else q.category(p.sourcePage),
         date := p.date, filePath := p.filePath, fileName := p.fileName, fileSize := p.fileSize, notes := p.notes,
         keywords := if HasField(p.manual, "keywords") then p.keywords else q.keywords(artist, p.keywords),
         manual := Normal(p.manual),
         provider := if p.provider == "" then DEFAULT_PROVIDER else p.provider,
         source := p.source, hidden := p.hidden, hash := p.hash, status := p.status, error := "")
  }

  function Insert(q: Cleanup, s: State, p: Photo): State {
    s.(photos := s.photos[s.nextId := BeforeSave(q, p)], nextId := s.nextId + 1)
  }

  function Overwrite(q: Cleanup, s: State, id: nat, p: Photo): State
    requires id in s.photos
  {
    s.(photos := s.photos[id := Assigned(q, s.photos[id], Locked(p, s.photos[id]))])
  }

  // ----- The inbox -----

  function Fingerprint(i: InboxItem): string {
    if i.dedupeKey != "" then "k" + SEPARATOR + i.provider + SEPARATOR + i.status + SEPARATOR + i.dedupeKey
    else "t" + SEPARATOR + i.provider + SEPARATOR + i.status + SEPARATOR + i.sourceId + SEPARATOR + i.mediaId
         + SEPARATOR + i.sourceUrl
  }

  predicate IsException(status: string) { status == "duplicate" || status == "ambiguous" }

  /** RecordInboxException; None when the item is refused. */
  function RecordException(q: Cleanup, s: State, i: InboxItem): Option<State> {
    if !IsException(i.status) || i.provider == "" then None
    else
      var fp := Fingerprint(i);
      var cleaned := i.(title := q.title(i.title, ""), artist := q.artist(i.artist));
      Some(s.(inbox := s.inbox[fp :=
        if fp in s.inbox then
          s.inbox[fp].(sourceId := i.sourceId, mediaId := i.mediaId, sourceUrl := i.sourceUrl, title := cleaned.title,
                       artist := cleaned.artist, reason := i.reason,
                       hash := if i.hash.Some? then i.hash else s.inbox[fp].hash)
        else cleaned]))
  }

  // ----- The write paths -----

  datatype Outcome = Won | Lost | Refused

  /** Which of two violated unique indexes the database names. */
  datatype Constraint = UrlIndex | HashIndex

  ghost function RecordDownload(q: Cleanup, s: State, p: Photo): (State, Outcome) {
    match Owner(s.photos, p.url)
    case Some(id) =>
      if s.photos[id].status == DOWNLOADED || HashTaken(s.photos, p.hash, {id}) then (s, Refused)
      else (Overwrite(q, s, id, p), Won)
    case None =>
      if HashTaken(s.photos, p.hash, {}) then (s, Refused) else (Insert(q, s, p), Won)
  }

  function RouteDuplicate(q: Cleanup, s: State, dup: Option<InboxItem>, hash: Option<nat>): (State, Outcome) {
    if dup.None? then (s, Lost)
    else
      var item := if dup.value.status == "duplicate" && hash.Some? then dup.value.(hash := hash) else dup.value;
      match RecordException(q, s, item)
      case None => (s, Refused)
      case Some(t) => (t, Lost)
  }

  ghost function RecordDownloadOrDuplicate(
      q: Cleanup, s: State, p: Photo, dup: Option<InboxItem>, named: Constraint): (State, Outcome)
  {
    var owner, hashTaken := Owner(s.photos, p.url), HashTaken(s.photos, p.hash, {});
    if owner.None? && !hashTaken then (Insert(q, s, p), Won)
    else if owner.Some? && (!hashTaken || named == UrlIndex)
            && s.photos[owner.value].status != DOWNLOADED && !HashTaken(s.photos, p.hash, {owner.value})
    then (Overwrite(q, s, owner.value, p), Won)
    else RouteDuplicate(q, s, dup, p.hash)
  }

  function FailedProvider(provider: string): string {
    if Trim(provider) == "" then DEFAULT_PROVIDER else Trim(provider)
  }

  const BLANK := Photo("", "", "", "", "", None, "", "", 0, None, "", [], [], "", None, false, None, "", "")

  /** RecordFailedDownload: an upsert without a guard on the row's status. */
  ghost function RecordFailed(q: Cleanup, s: State, provider: string, url: string, message: string): State {
    match Owner(s.photos, url)
    case Some(id) =>
      s.(photos := s.photos[id :=
        s.photos[id].(provider := FailedProvider(provider), status := "failed", error := message)])
    case None =>
      Insert(q, s, BLANK.(url := url, provider := FailedProvider(provider), status := "failed", error := message))
  }

  /** What the legacy load writes over a row; its SQL tests locks by exact containment. */
  function LegacyOver(q: Cleanup, prior: Photo, row: Photo): Photo {
    prior.(sourcePage := row.sourcePage,
           title := if "title" in prior.manual then prior.title else q.title(row.title, row.fileName),
           artist := if "artist" in prior.manual then prior.artist else row.artist,
           fileName := row.fileName,
           date := if "date" in prior.manual then prior.date else row.date,
           filePath := row.filePath, fileSize := row.fileSize, status := row.status, error := row.error,
           downloadedAt := row.downloadedAt)
  }

  function LegacyNew(q: Cleanup, row: Photo): Photo {
    BLANK.(url := row.url, sourcePage := row.sourcePage, title := q.title(row.title, row.fileName),
           artist := row.artist, date := row.date, filePath := row.filePath, fileName := row.fileName,
           downloadedAt := row.downloadedAt, fileSize := row.fileSize, status := row.status, error := row.error,
           provider := DEFAULT_PROVIDER, category := q.category(row.sourcePage))
  }

  /** One row of the legacy load, under its legacy id; an id that is taken fails the load. */
  ghost function LoadLegacy(q: Cleanup, s: State, id: nat, row: Photo): State {
    match Owner(s.photos, row.url)
    case Some(own) => s.(photos := s.photos[own := LegacyOver(q, s.photos[own], row)])
    case None =>
      if id in s.photos then s
      else s.(photos := s.photos[id := LegacyNew(q, row)], nextId := if id < s.nextId then s.nextId else id + 1)
  }

  /** UpdatePhotoMetadata: the fields present are written as the editor gave them. */
  datatype Edit = Edit(
    title: Option<string>, artist: Option<string>, date: Option<Option<nat>>, keywords: Option<seq<string>>,
    note: Option<string>, locks: seq<string>)

  predicate IsEmpty(e: Edit) {
    e.title.None? && e.artist.None? && e.date.None? && e.keywords.None? && e.note.None?
  }

  function Edited(q: Cleanup, p: Photo, e: Edit): Photo {
    p.(title := if e.title.Some? then Trim(e.title.value) else p.title,
       artist := if e.artist.Some? then q.artist(e.artist.value) else p.artist,
       date := if e.date.Some? then e.date.value else p.date,
       keywords := if e.keywords.Some? then e.keywords.value else p.keywords,
       notes := if e.note.Some? then Trim(e.note.value) else p.notes,
       manual := Normal(p.manual + e.locks))
  }

  function UpdateMetadata(q: Cleanup, s: State, id: nat, e: Edit): State {
    if IsEmpty(e) || id !in s.photos then s else s.(photos := s.photos[id := Edited(q, s.photos[id], e)])
  }

  /** The write of an edit, single or bulk, that read the row's locks at an earlier moment: no row lock keeps
      others from writing in between. */
  function StaleEdited(q: Cleanup, row: Photo, read: seq<string>, e: Edit): Photo {
    Edited(q, row, e).(manual := Normal(read + e.locks))
  }

  function UpdateStale(q: Cleanup, s: State, id: nat, read: seq<string>, e: Edit): State {
    if IsEmpty(e) || id !in s.photos then s else s.(photos := s.photos[id := StaleEdited(q, s.photos[id], read, e)])
  }

  /** BulkEditPhotoMetadata: every present photo gets the same changes and the matching locks. */
  function BulkEdit(q: Cleanup, s: State, ids: set<nat>, e: nat -> Edit): State {
    s.(photos := map id | id in s.photos ::
         if id in ids && !IsEmpty(e(id)) then Edited(q, s.photos[id], e(id)) else s.photos[id])
  }

  function Route(s: State, ids: set<nat>, hidden: bool, source: Option<nat>): State {
    s.(photos := map id | id in s.photos ::
         if id in ids
         then s.photos[id].(hidden := hidden, source := if source.Some? then source else s.photos[id].source)
         else s.photos[id])
  }

  function Exclude(s: State, id: nat, message: string): State {
    if id in s.photos && s.photos[id].status == DOWNLOADED
    then s.(photos := s.photos[id := s.photos[id].(status := "failed", error := message)]) else s
  }

  /** One row of FillMissingContentHashes; the loser of a hash is marked deleted. */
  ghost function FillHash(s: State, id: nat, hash: nat): State {
    if id !in s.photos || s.photos[id].hash.Some? then s
    else s.(photos := s.photos[id := HashedRow(s.photos[id], hash, HashTaken(s.photos, Some(hash), {id}))])
  }

  function HashedRow(p: Photo, hash: nat, taken: bool): Photo {
    if taken then p.(status := "deleted", error := "quarantined as exact content hash duplicate during backfill")
    else p.(hash := Some(hash))
  }

  /** ResolveInboxItem: an operator keeps, skips or moves an open exception. */
  function Resolve(s: State, fp: string, status: string): State {
    if fp in s.inbox && IsException(s.inbox[fp].status) &&
      (status == "kept" || status == "skipped" || status == "moved")
    then s.(inbox := s.inbox[fp := s.inbox[fp].(status := status)]) else s
  }

  datatype Op =
    | OpDownload(p: Photo)
    | OpDownloadOrDuplicate(p: Photo, dup: Option<InboxItem>, named: Constraint)
    | OpFailed(provider: string, url: string, message: string)
    | OpLegacy(id: nat, row: Photo)
    | OpRoute(ids: set<nat>, hidden: bool, source: Option<nat>)
    | OpExclude(id: nat, message: string)
    | OpFillHash(id: nat, hash: nat)
    | OpResolve(fp: string, status: string)
    | OpEdit(id: nat, edit: Edit)
    | OpBulkEdit(ids: set<nat>, edits: nat -> Edit)
    | OpStaleEdit(id: nat, read: seq<string>, edit: Edit)

  predicate IsEditor(op: Op) { op.OpEdit? || op.OpBulkEdit? || op.OpStaleEdit? }

  ghost function Apply(q: Cleanup, s: State, op: Op): State {
    match op
    case OpDownload(p) => RecordDownload(q, s, p).0
    case OpDownloadOrDuplicate(p, dup, named) => RecordDownloadOrDuplicate(q, s, p, dup, named).0
    case OpFailed(provider, url, message) => RecordFailed(q, s, provider, url, message)
    case OpLegacy(id, row) => LoadLegacy(q, s, id, row)
    case OpRoute(ids, hidden, source) => Route(s, ids, hidden, source)
    case OpExclude(id, message) => Exclude(s, id, message)
    case OpFillHash(id, hash) => FillHash(s, id, hash)
    case OpResolve(fp, status) => Resolve(s, fp, status)
    case OpEdit(id, e) => UpdateMetadata(q, s, id, e)
    case OpBulkEdit(ids, edits) => BulkEdit(q, s, ids, edits)
    case OpStaleEdit(id, read, e) => UpdateStale(q, s, id, read, e)
  }

  // ----- What every step keeps -----

  ghost predicate Inv(s: State) {
    && UniqueUrls(s.photos)
    && UniqueHashes(s.photos)
    && (forall id :: id in s.photos ==> id < s.nextId && IsNormal(s.photos[id].manual))
  }

  /** The value of a lockable field. */
  predicate SameField(a: Photo, b: Photo, field: string) {
    match field
    case "title" => a.title == b.title
    case "artist" => a.artist == b.artist
    case "date" => a.date == b.date
    case "keywords" => a.keywords == b.keywords
    case "note" => a.notes == b.notes
    case _ => true
  }

  ghost predicate KeepsLocks(a: Photo, b: Photo) {
    a.manual == b.manual && a.url == b.url && forall f :: f in a.manual ==> SameField(a, b, f)
  }

  ghost predicate GrowsLocks(a: Photo, b: Photo) {
    forall f :: f in a.manual ==> f in b.manual
  }

  /** Download paths: the locked fields of the row that is overwritten survive the overwrite. */
  lemma OverwriteKeepsLocks(q: Cleanup, prior: Photo, p: Photo)
    requires IsNormal(prior.manual)
    ensures KeepsLocks(prior, Assigned(q, prior, Locked(p, prior)))
  {
    forall f | f in prior.manual ensures SameField(prior, Assigned(q, prior, Locked(p, prior)), f) {
      NormalHolds(prior.manual);
      LockTestsAgree(prior.manual, f);
    }
  }

  lemma EditedGrowsLocks(q: Cleanup, p: Photo, e: Edit)
    requires IsNormal(p.manual)
    ensures IsNormal(Edited(q, p, e).manual) && GrowsLocks(p, Edited(q, p, e))
  {
    MergeGrows(p.manual, e.locks);
  }

  /** The rows of `t` are the rows of `s` and possibly new ones; locks and locked fields of the old rows stay. */
  ghost predicate KeepsAllLocks(s: State, t: State) {
    forall id :: id in s.photos ==> id in t.photos && KeepsLocks(s.photos[id], t.photos[id])
  }

  ghost predicate GrowsAllLocks(s: State, t: State) {
    forall id :: id in s.photos ==> id in t.photos && GrowsLocks(s.photos[id], t.photos[id])
  }

  lemma NoChange(s: State)
    ensures KeepsAllLocks(s, s) && GrowsAllLocks(s, s)
  {
  }

  lemma KeepingGrows(s: State, t: State)
    requires KeepsAllLocks(s, t)
    ensures GrowsAllLocks(s, t)
  {
  }

  /** One row changes; its url stays, and a new content hash is taken by no other row. */
  lemma RowChanges(s: State, id: nat, p: Photo)
    requires Inv(s) && id in s.photos && p.url == s.photos[id].url && IsNormal(p.manual)
    requires p.hash == s.photos[id].hash || !HashTaken(s.photos, p.hash, {id})
    ensures var t := s.(photos := s.photos[id := p]);
            && Inv(t)
            && (KeepsLocks(s.photos[id], p) ==> KeepsAllLocks(s, t))
            && (GrowsLocks(s.photos[id], p) ==> GrowsAllLocks(s, t))
  {
    hide IsNormal, UrlKey;
    hide KeepsLocks;
    forall k | k in s.photos ensures KeepsLocks(s.photos[k], s.photos[k]) { KeepsOwnLocks(s.photos[k]); }
  }

  lemma KeepsOwnLocks(p: Photo)
    ensures KeepsLocks(p, p)
  {
  }

  /** Rows change, but not their urls and content hashes. */
  lemma RowsChange(s: State, photos: map<nat, Photo>)
    requires Inv(s) && photos.Keys == s.photos.Keys
    requires forall id :: id in photos ==>
               photos[id].url == s.photos[id].url && photos[id].hash == s.photos[id].hash && IsNormal(photos[id].manual)
    ensures Inv(s.(photos := photos))
  {
    hide IsNormal, UrlKey;
  }

  /** One row is added under a url and a content hash that no row has. */
  lemma RowArrives(s: State, id: nat, p: Photo, next: nat)
    requires Inv(s) && id !in s.photos && IsNormal(p.manual) && id < next && s.nextId <= next
    requires Owner(s.photos, p.url).None? && !HashTaken(s.photos, p.hash, {})
    ensures var t := s.(photos := s.photos[id := p], nextId := next); Inv(t) && KeepsAllLocks(s, t)
  {
    forall k | k in s.photos ensures UrlKey(s.photos[k].url) != UrlKey(p.url) {
      assert !OwnsUrl(s.photos, k, p.url);
    }
    UrlArrives(s.photos, id, p);
    HashArrives(s.photos, id, p);
    hide IsNormal, UrlKey, SameField, UniqueUrls, UniqueHashes, HashTaken;
  }

  lemma UrlArrives(photos: map<nat, Photo>, id: nat, p: Photo)
    requires UniqueUrls(photos) && forall k :: k in photos ==> UrlKey(photos[k].url) != UrlKey(p.url)
    ensures UniqueUrls(photos[id := p])
  {
    hide UrlKey;
  }

  lemma HashArrives(photos: map<nat, Photo>, id: nat, p: Photo)
    requires UniqueHashes(photos) && !HashTaken(photos, p.hash, {})
    ensures UniqueHashes(photos[id := p])
  {
    assert p.hash.Some? ==> forall k :: k in photos ==> photos[k].hash != p.hash;
    hide HashTaken;
  }

  lemma InsertStep(q: Cleanup, s: State, p: Photo)
    requires Inv(s) && Owner(s.photos, p.url).None? && !HashTaken(s.photos, p.hash, {})
    ensures Inv(Insert(q, s, p)) && KeepsAllLocks(s, Insert(q, s, p))
  {
    NormalIsNormal(p.manual);
    assert s.nextId !in s.photos;
    hide Inv, IsNormal, HasField, HashTaken, KeepsAllLocks;
    RowArrives(s, s.nextId, BeforeSave(q, p), s.nextId + 1);
  }

  lemma OverwriteStep(q: Cleanup, s: State, id: nat, p: Photo)
    requires Inv(s) && id in s.photos && !HashTaken(s.photos, p.hash, {id})
    ensures Inv(Overwrite(q, s, id, p)) && KeepsAllLocks(s, Overwrite(q, s, id, p))
  {
    OverwriteKeepsLocks(q, s.photos[id], p);
    hide Inv, IsNormal, HasField, HashTaken, KeepsAllLocks, KeepsLocks;
    NormalIsNormal(Locked(p, s.photos[id]).manual);
    RowChanges(s, id, Assigned(q, s.photos[id], Locked(p, s.photos[id])));
  }

  lemma RowIsNormal(s: State, id: nat)
    requires Inv(s) && id in s.photos
    ensures IsNormal(s.photos[id].manual)
  {
  }

  lemma RecordFailedStep(q: Cleanup, s: State, provider: string, url: string, message: string)
    requires Inv(s)
    ensures Inv(RecordFailed(q, s, provider, url, message)) &&
            KeepsAllLocks(s, RecordFailed(q, s, provider, url, message))
  {
    hide Inv, IsNormal, FailedProvider, KeepsAllLocks;
    var o := Owner(s.photos, url);
    if o.Some? {
      RowIsNormal(s, o.value);
      RowChanges(s, o.value,
        s.photos[o.value].(provider := FailedProvider(provider), status := "failed", error := message));
    } else {
      InsertStep(q, s, BLANK.(url := url, provider := FailedProvider(provider), status := "failed", error := message));
    }
  }

  lemma DownloadStep(q: Cleanup, s: State, p: Photo)
    requires Inv(s)
    ensures Inv(RecordDownload(q, s, p).0) && KeepsAllLocks(s, RecordDownload(q, s, p).0)
  {
    hide Inv, HashTaken, KeepsAllLocks, Insert, Overwrite;
    NoChange(s);
    var o := Owner(s.photos, p.url);
    if o.None? {
      if !HashTaken(s.photos, p.hash, {}) { InsertStep(q, s, p); }
    } else if !HashTaken(s.photos, p.hash, {o.value}) {
      OverwriteStep(q, s, o.value, p);
    }
  }

  lemma RoutingTouchesInboxOnly(q: Cleanup, s: State, dup: Option<InboxItem>, hash: Option<nat>)
    ensures var t := RouteDuplicate(q, s, dup, hash).0; t.photos == s.photos && t.nextId == s.nextId
  {
  }

  lemma DownloadOrDuplicateStep(q: Cleanup, s: State, p: Photo, dup: Option<InboxItem>, named: Constraint)
    requires Inv(s)
    ensures var t := RecordDownloadOrDuplicate(q, s, p, dup, named).0; Inv(t) && KeepsAllLocks(s, t)
  {
    var o, t := Owner(s.photos, p.url), RecordDownloadOrDuplicate(q, s, p, dup, named).0;
    RoutingTouchesInboxOnly(q, s, dup, p.hash);
    hide HashTaken, RouteDuplicate, Insert, Overwrite;
    if o.None? && !HashTaken(s.photos, p.hash, {}) { InsertStep(q, s, p); }
    if o.Some? && !HashTaken(s.photos, p.hash, {o.value}) { OverwriteStep(q, s, o.value, p); }
    if t.photos == s.photos && t.nextId == s.nextId { NoChange(s); }
  }

  lemma LegacyKeepsLocks(q: Cleanup, prior: Photo, row: Photo)
    ensures KeepsLocks(prior, LegacyOver(q, prior, row))
  {
  }

  lemma LegacyStep(q: Cleanup, s: State, id: nat, row: Photo)
    requires Inv(s)
    ensures Inv(LoadLegacy(q, s, id, row)) && KeepsAllLocks(s, LoadLegacy(q, s, id, row))
  {
    assert Normal([]) == [];
    var o, t := Owner(s.photos, row.url), LoadLegacy(q, s, id, row);
    hide Inv, Normal, KeepsAllLocks;
    NoChange(s);
    if o.Some? {
      RowIsNormal(s, o.value);
      LegacyKeepsLocks(q, s.photos[o.value], row);
      RowChanges(s, o.value, LegacyOver(q, s.photos[o.value], row));
    } else if id !in s.photos {
      RowArrives(s, id, LegacyNew(q, row), t.nextId);
    }
  }

  lemma FillHashStep(s: State, id: nat, hash: nat)
    requires Inv(s)
    ensures Inv(FillHash(s, id, hash)) && KeepsAllLocks(s, FillHash(s, id, hash))
  {
    hide Inv, IsNormal, HashTaken, KeepsAllLocks;
    NoChange(s);
    if id in s.photos {
      RowIsNormal(s, id);
      RowChanges(s, id, HashedRow(s.photos[id], hash, HashTaken(s.photos, Some(hash), {id})));
    }
  }

  lemma ExcludeStep(s: State, id: nat, message: string)
    requires Inv(s)
    ensures Inv(Exclude(s, id, message)) && KeepsAllLocks(s, Exclude(s, id, message))
  {
    hide Inv, IsNormal, HashTaken, KeepsAllLocks;
    NoChange(s);
    if id in s.photos {
      RowIsNormal(s, id);
      RowChanges(s, id, s.photos[id].(status := "failed", error := message));
    }
  }

  lemma RouteStep(s: State, ids: set<nat>, hidden: bool, source: Option<nat>)
    requires Inv(s)
    ensures Inv(Route(s, ids, hidden, source)) && KeepsAllLocks(s, Route(s, ids, hidden, source))
  {
    hide Inv, IsNormal, UrlKey, KeepsLocks;
    var t := Route(s, ids, hidden, source);
    forall id | id in s.photos ensures IsNormal(s.photos[id].manual) && KeepsLocks(s.photos[id], t.photos[id]) {
      RowIsNormal(s, id);
      KeepsOwnLocks(s.photos[id]);
      RoutedKeepsLocks(s.photos[id], hidden, if source.Some? then source else s.photos[id].source);
    }
    RowsChange(s, t.photos);
  }

  lemma RoutedKeepsLocks(p: Photo, hidden: bool, source: Option<nat>)
    ensures KeepsLocks(p, p.(hidden := hidden, source := source))
  {}

  lemma EditStep(q: Cleanup, s: State, id: nat, e: Edit)
    requires Inv(s)
    ensures Inv(UpdateMetadata(q, s, id, e)) && GrowsAllLocks(s, UpdateMetadata(q, s, id, e))
  {
    hide Inv, IsNormal, HashTaken, GrowsAllLocks, GrowsLocks;
    NoChange(s);
    if id in s.photos {
      RowIsNormal(s, id);
      EditedGrowsLocks(q, s.photos[id], e);
      RowChanges(s, id, Edited(q, s.photos[id], e));
    }
  }

  /** What an overlapped edit leaves of a row's locks: exactly those that its read saw or that it sets itself. */
  lemma StaleEditKeepsLocksIff(q: Cleanup, row: Photo, read: seq<string>, e: Edit)
    requires IsNormal(row.manual)
    ensures IsNormal(StaleEdited(q, row, read, e).manual)
    ensures GrowsLocks(row, StaleEdited(q, row, read, e)) <==>
            forall f :: f in row.manual ==> f in Named(read) || f in Named(e.locks)
  {
    hide Clean, Edited;
    NormalIsNormal(read + e.locks);
    NormalHolds(read + e.locks);
    NormalHolds(row.manual);
    NamedBoth(read, e.locks);
  }

  lemma NamedBoth(a: seq<string>, b: seq<string>)
    ensures Named(a + b) == Named(a) + Named(b)
  {
    hide Clean;
    forall f ensures f in Named(a + b) <==> f in Named(a) + Named(b) {
      if f in Named(a) { var x :| x in a && f == Clean(x); assert x in a + b; }
      if f in Named(b) { var x :| x in b && f == Clean(x); assert x in a + b; }
    }
  }

  /** No lock was set on the row since an overlapped edit read it, other than those it sets itself. */
  predicate IsTimely(s: State, op: Op) {
    op.OpStaleEdit? && op.id in s.photos && !IsEmpty(op.edit) ==>
      forall f :: f in s.photos[op.id].manual ==> f in Named(op.read) || f in Named(op.edit.locks)
  }

  lemma StaleEditStep(q: Cleanup, s: State, id: nat, read: seq<string>, e: Edit)
    requires Inv(s)
    ensures Inv(UpdateStale(q, s, id, read, e))
    ensures GrowsAllLocks(s, UpdateStale(q, s, id, read, e)) <==> IsTimely(s, OpStaleEdit(id, read, e))
  {
    hide Inv, IsNormal, HashTaken, GrowsLocks, Named, IsEmpty;
    NoChange(s);
    if id in s.photos {
      RowIsNormal(s, id);
      StaleEditKeepsLocksIff(q, s.photos[id], read, e);
      RowChanges(s, id, StaleEdited(q, s.photos[id], read, e));
    }
  }

  lemma BulkEditStep(q: Cleanup, s: State, ids: set<nat>, e: nat -> Edit)
    requires Inv(s)
    ensures Inv(BulkEdit(q, s, ids, e)) && GrowsAllLocks(s, BulkEdit(q, s, ids, e))
  {
    forall id | id in s.photos
      ensures IsNormal(Edited(q, s.photos[id], e(id)).manual) &&
              GrowsLocks(s.photos[id], Edited(q, s.photos[id], e(id)))
    {
      EditedGrowsLocks(q, s.photos[id], e(id));
    }
    forall id | id in s.photos ensures IsNormal(s.photos[id].manual) { RowIsNormal(s, id); }
    hide Inv, IsNormal, Normal, UrlKey;
    RowsChange(s, BulkEdit(q, s, ids, e).photos);
  }

  /** Every step keeps both unique keys and the normal form of the locks; a step takes a lock back exactly when
      it is an edit that overlaps another editor's; and a step that is not an editor's leaves every locked field
      as it is. */
  lemma StepKeepsLocks(q: Cleanup, s: State, op: Op)
    requires Inv(s)
    ensures Inv(Apply(q, s, op)) && (GrowsAllLocks(s, Apply(q, s, op)) <==> IsTimely(s, op))
    ensures !IsEditor(op) ==> KeepsAllLocks(s, Apply(q, s, op))
  {
    hide Inv, GrowsAllLocks, KeepsAllLocks, BulkEdit, UpdateMetadata, UpdateStale;
    if op.OpEdit? {
      EditStep(q, s, op.id, op.edit);
    } else if op.OpBulkEdit? {
      BulkEditStep(q, s, op.ids, op.edits);
    } else if op.OpStaleEdit? {
      StaleEditStep(q, s, op.id, op.read, op.edit);
    } else {
      IngestStep(q, s, op);
      KeepingGrows(s, Apply(q, s, op));
    }
  }

  lemma IngestStep(q: Cleanup, s: State, op: Op)
    requires Inv(s) && !IsEditor(op)
    ensures Inv(Apply(q, s, op)) && KeepsAllLocks(s, Apply(q, s, op))
  {
    hide Inv, KeepsAllLocks, RecordDownload, RecordDownloadOrDuplicate, RecordFailed, LoadLegacy, Route, Exclude,
         FillHash;
    match op
    case OpDownload(p) => DownloadStep(q, s, p);
    case OpDownloadOrDuplicate(p, dup, named) => DownloadOrDuplicateStep(q, s, p, dup, named);
    case OpFailed(provider, url, message) => RecordFailedStep(q, s, provider, url, message);
    case OpLegacy(id, row) => LegacyStep(q, s, id, row);
    case OpRoute(ids, hidden, source) => RouteStep(s, ids, hidden, source);
    case OpExclude(id, message) => ExcludeStep(s, id, message);
    case OpFillHash(id, hash) => FillHashStep(s, id, hash);
    case OpResolve(fp, status) => InboxChanges(s, Resolve(s, fp, status).inbox);
    case _ =>
  }

  lemma InboxChanges(s: State, inbox: map<string, InboxItem>)
    requires Inv(s)
    ensures Inv(s.(inbox := inbox)) && KeepsAllLocks(s, s.(inbox := inbox))
  {
  }

  // ----- Whole runs -----

  ghost function Run(q: Cleanup, s: State, ops: seq<Op>): State
    decreases |ops|
  {
    if ops == [] then s else Run(q, Apply(q, s, ops[0]), ops[1..])
  }

  /** Over every run without editor steps - downloads, failures, legacy loads, routing, audits, hash
      filling, inbox decisions - a locked field keeps its value. */
  lemma {:induction false} LockedFieldsSurvive(q: Cleanup, s: State, ops: seq<Op>, id: nat, field: string)
    requires Inv(s) && id in s.photos && field in s.photos[id].manual
    requires forall k :: 0 <= k < |ops| ==> !IsEditor(ops[k])
    ensures var t := Run(q, s, ops); id in t.photos && SameField(s.photos[id], t.photos[id], field)
    ensures field in Run(q, s, ops).photos[id].manual
    decreases |ops|
  {
    hide Apply, Inv, IsEditor;
    if ops != [] {
      StepKeepsLocks(q, s, ops[0]);
      var t := Apply(q, s, ops[0]);
      assert KeepsLocks(s.photos[id], t.photos[id]);
      LockedFieldsSurvive(q, t, ops[1..], id, field);
    }
  }

  /** No step of the run takes a lock back from a row. */
  ghost predicate NoLockIsDropped(q: Cleanup, s: State, ops: seq<Op>)
    decreases |ops|
  {
    ops != [] ==> GrowsAllLocks(s, Apply(q, s, ops[0])) && NoLockIsDropped(q, Apply(q, s, ops[0]), ops[1..])
  }

  /** No edit of the run overlaps an edit that sets a lock it neither saw nor sets. */
  ghost predicate AllTimely(q: Cleanup, s: State, ops: seq<Op>)
    decreases |ops|
  {
    ops != [] ==> IsTimely(s, ops[0]) && AllTimely(q, Apply(q, s, ops[0]), ops[1..])
  }

  /** Over every run, editor steps and overlapping edits included, the keys stay unique, the locks stay in
      normal form, and no lock is dropped on the way if and only if the edits are timely. */
  lemma {:induction false} LocksStayIff(q: Cleanup, s: State, ops: seq<Op>)
    requires Inv(s)
    ensures Inv(Run(q, s, ops)) && (NoLockIsDropped(q, s, ops) <==> AllTimely(q, s, ops))
    decreases |ops|
  {
    if ops != [] {
      hide Apply, Inv, IsTimely, GrowsAllLocks;
      StepKeepsLocks(q, s, ops[0]);
      LocksStayIff(q, Apply(q, s, ops[0]), ops[1..]);
    }
  }

  /** Over every such run the locks of a row only grow, and the two lock tests agree on it. */
  lemma {:induction false} LocksNeverShrink(q: Cleanup, s: State, ops: seq<Op>, id: nat)
    requires Inv(s) && id in s.photos && AllTimely(q, s, ops)
    ensures Inv(Run(q, s, ops)) && id in Run(q, s, ops).photos
    ensures GrowsLocks(s.photos[id], Run(q, s, ops).photos[id])
    ensures forall f :: f in ORDER ==>
              (HasField(Run(q, s, ops).photos[id].manual, f) <==> f in Run(q, s, ops).photos[id].manual)
    decreases |ops|
  {
    if ops == [] {
      forall f | f in ORDER ensures HasField(s.photos[id].manual, f) <==> f in s.photos[id].manual {
        LockTestsAgree(s.photos[id].manual, f);
      }
    } else {
      StepKeepsLocks(q, s, ops[0]);
      hide Apply, Inv, IsTimely;
      LocksNeverShrink(q, Apply(q, s, ops[0]), ops[1..], id);
    }
  }

  /** Two editors read the same row; the second writes after the first.  The run drops a lock exactly when the
      first sets one that the row did not have and the second does not set. */
  lemma OverlappingEditorsDropIff(q: Cleanup, s: State, id: nat, first: Edit, second: Edit)
    requires Inv(s) && id in s.photos && !IsEmpty(first) && !IsEmpty(second)
    ensures NoLockIsDropped(q, s, [OpEdit(id, first), OpStaleEdit(id, s.photos[id].manual, second)]) <==>
            forall f :: f in Normal(first.locks) ==> f in s.photos[id].manual || f in Named(second.locks)
  {
    var row := s.photos[id];
    var stale := OpStaleEdit(id, row.manual, second);
    var t := Apply(q, s, OpEdit(id, first));
    assert [OpEdit(id, first), stale][1..] == [stale] && [stale][1..] == [];
    LocksStayIff(q, s, [OpEdit(id, first), stale]);
    RowIsNormal(s, id);
    NormalHolds(row.manual);
    NormalHolds(row.manual + first.locks);
    NormalHolds(first.locks);
    NamedBoth(row.manual, first.locks);
    assert t.photos[id].manual == Normal(row.manual + first.locks);
    hide Inv, Run, NoLockIsDropped, Normal, Clean, Named;
    assert AllTimely(q, s, [OpEdit(id, first), stale]) <==> IsTimely(t, stale) by {
      assert AllTimely(q, Apply(q, t, stale), []);
      assert AllTimely(q, t, [stale]) <==> IsTimely(t, stale);
    }
  }

  lemma TitleIsLockable()
    ensures "title" in Normal(["title"]) && "title" !in Named(["artist"])
  {
    CleanKeepsOrder();
    hide Clean;
    assert "title" in ORDER && "artist" in ORDER && "title" in ["title"];
    NormalHolds(["title"]);
  }

  /** So the first of two editors loses the lock on the title when the second edits the artist. */
  lemma TwoEditorsLoseTheTitle(q: Cleanup, s: State, id: nat, first: Edit, second: Edit)
    requires Inv(s) && id in s.photos && s.photos[id].manual == [] && !IsEmpty(first) && !IsEmpty(second)
    requires first.locks == ["title"] && second.locks == ["artist"]
    ensures !NoLockIsDropped(q, s, [OpEdit(id, first), OpStaleEdit(id, [], second)])
  {
    hide Inv, NoLockIsDropped, Normal, Named, IsEmpty;
    OverlappingEditorsDropIff(q, s, id, first, second);
    TitleIsLockable();
  }

  // ----- Recording a download -----

  /** RecordDownloadOrDuplicate has three outcomes.  Won: the url's row has the download's content and
      status.  Lost: the photos are untouched and the duplicate, if one was given, is in the inbox.
      Refused: nothing changed.  In every case rows already downloaded are untouched, and no inbox item
      changes its status - one that an operator resolved stays resolved. */
  lemma RecordingOutcomes(q: Cleanup, s: State, p: Photo, dup: Option<InboxItem>, named: Constraint)
    requires Inv(s)
    ensures var (t, outcome) := RecordDownloadOrDuplicate(q, s, p, dup, named);
            && (outcome == Won ==> t.inbox == s.inbox && exists id ::
                  OwnsUrl(t.photos, id, p.url) && t.photos[id].hash == p.hash && t.photos[id].status == p.status)
            && (outcome == Lost ==> t.photos == s.photos && (dup.Some? ==> Fingerprint(dup.value) in t.inbox))
            && (outcome == Refused ==> t == s)
            && (forall id :: id in s.photos && s.photos[id].status == DOWNLOADED ==>
                id in t.photos && t.photos[id] == s.photos[id])
            && (forall fp :: fp in s.inbox ==> fp in t.inbox && t.inbox[fp].status == s.inbox[fp].status)
  {
    hide Inv, RecordDownloadOrDuplicate, RouteDuplicate, Fingerprint, UrlKey;
    var (t, outcome) := RecordDownloadOrDuplicate(q, s, p, dup, named);
    if outcome == Won {
      var id := WonWritesOneRow(q, s, p, dup, named);
    } else {
      NotWonRoutes(q, s, p, dup, named);
      RoutingFiles(q, s, dup, p.hash);
    }
  }

  /** A download that wins writes one row: the url's own, which was not downloaded, or a new one. */
  lemma WonWritesOneRow(q: Cleanup, s: State, p: Photo, dup: Option<InboxItem>, named: Constraint) returns (id: nat)
    requires Inv(s) && RecordDownloadOrDuplicate(q, s, p, dup, named).1 == Won
    ensures var t := RecordDownloadOrDuplicate(q, s, p, dup, named).0;
            && OwnsUrl(t.photos, id, p.url) && t.inbox == s.inbox && t.photos == s.photos[id := t.photos[id]]
            && t.photos[id].hash == p.hash && t.photos[id].status == p.status
            && (id in s.photos ==> OwnsUrl(s.photos, id, p.url) && s.photos[id].status != DOWNLOADED)
            && (Owner(s.photos, p.url).Some? ==> Owner(s.photos, p.url) == Some(id))
  {
    NotWonRoutes(q, s, p, dup, named);
    assert forall k :: k in s.photos ==> k < s.nextId;
    hide Inv, HashTaken, Normal, HasField, RouteDuplicate, UrlKey;
    var o := Owner(s.photos, p.url);
    id := if o.None? then s.nextId else o.value;
  }

  lemma RoutingIsNoWin(q: Cleanup, s: State, dup: Option<InboxItem>, hash: Option<nat>)
    ensures RouteDuplicate(q, s, dup, hash).1 != Won
  {}

  lemma NotWonRoutes(q: Cleanup, s: State, p: Photo, dup: Option<InboxItem>, named: Constraint)
    ensures RecordDownloadOrDuplicate(q, s, p, dup, named).1 != Won ==>
              RecordDownloadOrDuplicate(q, s, p, dup, named) == RouteDuplicate(q, s, dup, p.hash)
    ensures RouteDuplicate(q, s, dup, p.hash).1 != Won
  {
    hide HashTaken, Insert, Overwrite, RouteDuplicate;
    RoutingIsNoWin(q, s, dup, p.hash);
  }

  /** Routing a duplicate touches the inbox only, and files the duplicate unless it is refused. */
  lemma RoutingFiles(q: Cleanup, s: State, dup: Option<InboxItem>, hash: Option<nat>)
    ensures var (t, outcome) := RouteDuplicate(q, s, dup, hash);
            && t.photos == s.photos && (outcome == Lost && dup.Some? ==> Fingerprint(dup.value) in t.inbox)
            && (outcome == Refused ==> t == s)
            && (forall fp :: fp in s.inbox ==> fp in t.inbox && t.inbox[fp].status == s.inbox[fp].status)
  {
    hide Trim, Lower;
  }

  /** A download wins exactly when the url's row, if any, is not downloaded and no row holds the content -
      where the url's own row may hold it only if the database names the url index first. */
  lemma WinsExactlyWhenFree(q: Cleanup, s: State, p: Photo, dup: Option<InboxItem>, named: Constraint)
    requires Inv(s)
    ensures RecordDownloadOrDuplicate(q, s, p, dup, named).1 == Won <==>
            forall id :: id in s.photos ==>
              var own := UrlKey(s.photos[id].url) == UrlKey(p.url);
              && (own ==> s.photos[id].status != DOWNLOADED)
              && (p.hash.None? || s.photos[id].hash != p.hash || (own && named == UrlIndex))
  {
    hide Inv, Insert, Overwrite, RouteDuplicate, UrlKey;
    NotWonRoutes(q, s, p, dup, named);
    OwnerIsOnly(s, p.url);
  }

  lemma OwnerIsOnly(s: State, url: string)
    requires Inv(s)
    ensures forall id :: id in s.photos ==>
            (UrlKey(s.photos[id].url) == UrlKey(url) <==> Owner(s.photos, url) == Some(id))
  {
    hide UrlKey;
    forall id | id in s.photos ensures UrlKey(s.photos[id].url) == UrlKey(url) <==> Owner(s.photos, url) == Some(id) {
      if UrlKey(s.photos[id].url) == UrlKey(url) { assert OwnsUrl(s.photos, id, url); }
    }
  }

  /** A row that an audit excluded keeps its content hash.  Downloading the same content for it again restores
      it exactly when the row had no hash or the database names the url index first; otherwise the download
      is routed as a duplicate of the very row, and the row stays excluded. */
  lemma ExcludedRowIsOverwrittenIff(
      q: Cleanup, s: State, id: nat, message: string, p: Photo, dup: Option<InboxItem>, named: Constraint)
    requires Inv(s) && id in s.photos && s.photos[id].status == DOWNLOADED
    requires UrlKey(p.url) == UrlKey(s.photos[id].url) && p.hash == s.photos[id].hash
    ensures var t := Exclude(s, id, message);
            var (u, outcome) := RecordDownloadOrDuplicate(q, t, p, dup, named);
            && (outcome == Won <==> p.hash.None? || named == UrlIndex)
            && (outcome != Won ==> u.photos == t.photos && u.photos[id].status == "failed")
  {
    var t := Exclude(s, id, message);
    ExcludeStep(s, id, message);
    WinsExactlyWhenFree(q, t, p, dup, named);
    assert t.photos[id].hash == s.photos[id].hash && t.photos[id].url == s.photos[id].url;
    assert forall k :: k in t.photos && k != id ==> t.photos[k] == s.photos[k];
    RecordingOutcomes(q, t, p, dup, named);
    hide RecordDownloadOrDuplicate;
  }

  /** Recording the same download again never touches the photos a second time. */
  lemma RecordingTwice(q: Cleanup, s: State, p: Photo, dup: Option<InboxItem>, named: Constraint, named': Constraint)
    requires Inv(s) && p.status == DOWNLOADED
    requires RecordDownloadOrDuplicate(q, s, p, dup, named).1 == Won
    ensures var t := RecordDownloadOrDuplicate(q, s, p, dup, named).0;
            RecordDownloadOrDuplicate(q, t, p, dup, named').1 != Won &&
              RecordDownloadOrDuplicate(q, t, p, dup, named').0.photos == t.photos
  {
    var t := RecordDownloadOrDuplicate(q, s, p, dup, named).0;
    RecordingOutcomes(q, s, p, dup, named);
    DownloadOrDuplicateStep(q, s, p, dup, named);
    var id :| OwnsUrl(t.photos, id, p.url) && t.photos[id].status == p.status;
    OwnerIsUnique(t, id, p.url);
    RoutingTouchesInboxOnly(q, t, dup, p.hash);
    hide Inv, HashTaken, Insert, Overwrite, RouteDuplicate, Owner;
  }

  lemma OwnerIsUnique(s: State, id: nat, url: string)
    requires Inv(s) && OwnsUrl(s.photos, id, url)
    ensures Owner(s.photos, url) == Some(id)
  {
  }

  // ----- Overlapping transactions -----

  /** The overwrite as two statements of one transaction: `read` is the row as the first one saw it,
      `row` the row the second one writes over. */
  function StaleOverwrite(q: Cleanup, row: Photo, read: Photo, p: Photo): Photo {
    Assigned(q, row, Locked(p, read))
  }

  /** Whatever is downloaded, the overwrite keeps the row's locks exactly when neither the locks nor a
      locked field changed between the two statements. */
  lemma OverlapKeepsLocks(q: Cleanup, row: Photo, read: Photo, p: Photo)
    requires IsNormal(row.manual) && IsNormal(read.manual)
    ensures KeepsLocks(row, StaleOverwrite(q, row, read, p)) <==>
            read.manual == row.manual && forall f :: f in row.manual ==> SameField(row, read, f)
  {
    var written := StaleOverwrite(q, row, read, p);
    assert written.url == row.url && written.manual == read.manual;
    OverwriteKeepsLocks(q, read, p);
    assert forall f :: SameField(read, written, f) == SameField(read, Assigned(q, read, Locked(p, read)), f);
    hide StaleOverwrite, Assigned, Locked, IsNormal;
    forall f | SameField(read, written, f) ensures SameField(row, written, f) <==> SameField(row, read, f) {
      SameFieldChains(row, read, written, f);
    }
    hide SameField;
  }

  lemma SameFieldChains(a: Photo, b: Photo, c: Photo, field: string)
    requires SameField(b, c, field)
    ensures SameField(a, c, field) <==> SameField(a, b, field)
  {
  }

  /** So an editor's lock set between the two statements is dropped. */
  lemma OverlappingEditIsLost(q: Cleanup, read: Photo, e: Edit, p: Photo)
    requires read.manual == [] && e.locks == ["title"]
    ensures "title" in Edited(q, read, e).manual
    ensures "title" !in StaleOverwrite(q, Edited(q, read, e), read, p).manual
  {
    hide Normal, Named;
    assert [] + ["title"] == ["title"];
    NothingIsNormal();
    TitleIsLockable();
  }

  lemma NothingIsNormal()
    ensures Normal([]) == []
  {}
}
