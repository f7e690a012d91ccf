# A model of the catalog, its cache, its ingest and its sweeps

The repository keeps a catalog of downloaded pictures.  Connectors list pages of items, an ingest loop and a
scraper download them under two unique keys, editors correct metadata and thereby lock fields, operators decide
on duplicates in an Inbox, sweeps warm thumbnails, compute embeddings and audit files, a legacy dump can be
loaded, and a gallery serves the result through an epoch-keyed cache.  This project states what these parts
promise each other and proves it with Dafny 4.11.

`dafny verify dfyconfig.toml` checks everything.  The files, one module each:

- `Common.dfy`: the few definitions that several modules share.
- `CatalogCache.dfy`, `CacheGaps.dfy`, `CacheEntries.dfy`, `CacheRequests.dfy`: readers, writers and several
  processes over one shared cache store, as a step system; exactly which writes a process can miss; who computed
  each entry and each answer; what becomes of requests and locks.
- `ManualFields.dfy`, `Catalog.dfy`, `CatalogRows.dfy`, `CatalogStore.dfy`, `Quarantine.dfy`: the normal form of
  locks; the two tables and every write path as functions, with the invariants over runs; what each write path
  leaves in a row, field by field; the same write paths as methods of a store; the clean-up before the unique
  content index.
- `Ingest.dfy`, `Resweep.dfy`: the ingest loop, against every possible script of replies; the loop and the tables
  together, for a row that an audit has excluded.
- `ScrapePage.dfy`: goroutine per item, semaphore and per-key locks.
- `PruneScheduler.dfy`, `PruneBudget.dfy`, `WarmWriter.dfy`, `CacheNames.dfy`: the derivative cache.
- `IdOrder.dfy`, `Sweep.dfy`, `OriginalsAudit.dfy`, `RoutingBackfill.dfy`: keyset pagination, the concurrent
  sweeps, the audit, and the client's loop of routing batches.
- `DumpText.dfy`, `DumpLexing.dfy`, `DumpTuples.dfy`, `Decimal.dfy`, `DumpRows.dfy`, `DumpLayout.dfy`,
  `DumpRoundTrip.dfy`, `DumpTheorem.dfy`: the MariaDB dump reader on bytes, and the printer it inverts, in every
  layout of its statements.
- `ConnectorStatus.dfy`, `Facets.dfy`, `ProviderFacets.dfy`: the folds behind the status page and the gallery's
  facets, and whether a facet counts what its filter shows.
- `TemplateText.dfy`, `Template.dfy`, `TemplateMeaning.dfy`: the expression evaluator of the mobile templates, and
  what its operators, literals and lookups mean.

Code that changes state step by step is a class or a method with its loops, proved equal to a function or a step
of the specification beside it; concurrency is a step system whose steps are the blocking or shared operations,
in any order; a statement about all runs is a statement about every interleaving.

## What the proofs found

Where a promise is false of the code, there is a concrete input or run, and a lemma that says exactly when the
promise holds.

- A write whose bump was not published, because it failed or because its process had already given up the cache,
  is invisible to other processes (`CatalogCache.FailedBumpIsInvisibleElsewhere`,
  `CatalogCache.OfflineWriteIsInvisibleElsewhere`).  A process can still be answered with data from before it
  if and only if the process uses the cache and a copy in a browser, a stored entry or a request of the current
  epoch is older (`CacheGaps.StaleExactlyWhen`, `CacheGaps.UnpublishedWriteIsMissed`).
- `If-None-Match: *` matches every ETag, so a request with it is answered 304 whatever its browser holds, and even a
  published write is missed (`CatalogCache.StarConfirmsAnyCopy`): exactly when the process uses the cache and the
  browser holds an older copy (`CacheGaps.StarIsStaleExactlyWhen`).
- An overwrite reads the row and writes it in two statements.  When an editor's lock lands in between, it is
  dropped (`Catalog.OverlappingEditIsLost`; `Catalog.OverlapKeepsLocks` says exactly when locks are kept).  Metadata
  edits do the same, so of two editors the first can lose a lock (`Catalog.TwoEditorsLoseTheTitle`); over every run
  no lock is dropped if and only if no edit overlaps one that sets a lock it neither saw nor sets
  (`Catalog.LocksStayIff`, `Catalog.OverlappingEditorsDropIff`).
- The audit's comment (`internal/derivatives/audit.go:26-29`) says that the next sweep restores an excluded row.  It
  does if and only if the source serves the item, the cache has not seen its key or does not answer, the cache does
  not know its content, no downloaded row stands under its source URL, and the row has no content hash or the
  database names the url index first (`Resweep.ExcludedRowIsRestoredIff`).  A row that an earlier sweep downloaded
  has been marked as seen, so while the cache answers, every sweep skips it: nothing is downloaded, restored or
  filed (`Resweep.SeenRowStaysExcluded`, `Resweep.DownloadedThenExcludedStays`).
- A failure record for a gone page or for an item without a key demotes whatever row has its made-up url, a
  downloaded one too, and leaves the mark (`Ingest.GonePageLosesItsMark`).  The marks of a run are sound if and
  only if no failure of that kind took the only row of a marked item (`Ingest.Ingestor.RunConnector`,
  `Ingest.SoundExactlyWhen`, `Ingest.SoundWithoutAliases`).
- The epoch is bumped at the end of a page, so the downloads of a page that ends early are not published
  (`Ingest.Ingestor.OnePage`).
- The statement splitter copies rune by rune, so bytes that are not UTF-8 become U+FFFD, an empty optional text
  reads back as absent, and a column that a statement does not list as empty or zero: a dump reads back exactly if
  and only if none of that loses anything (`DumpTheorem.RoundTripIsExact`).
- The splitter keeps comments, so a line comment in front of an `INSERT` makes it another statement, and its rows
  are lost without an error (`DumpTheorem.CommentHidesInsert`).
- A facet may count what its filter does not show.  For sources, the one without a source, whose filter is no
  filter, and pages with surrounding spaces (`Facets.SourceFacetShowsWhatItCountsIff`); for artists, the NULL ones
  and those with surrounding spaces (`Facets.ArtistFacetShowsWhatItCountsIff`); for categories, those with
  surrounding spaces (`Facets.FacetsShowWhatTheyCountIff`); for providers, whose facets go by hostname and whose
  filter goes by the page's text, pages that do not spell their hostname or spell another facet
  (`ProviderFacets.ProviderFacetsShowWhatTheyCountIff`, `ProviderFacets.BarePageIsLost`).
- A quoted template literal that contains an equality is compared, not read
  (`Template.QuotedEqualityIsCompared`, `Template.QuotedReadsBackIff`).
- Among connector states without a time, the first row drives the card, so there the row order matters unless
  all rows agree (`ConnectorStatus.DriverIgnoresOrderIff`).
- With a limit of zero the scraper's semaphore never opens (`ScrapePage.ZeroLimitBlocks`); the configuration
  refuses that limit (`internal/config/config.go:356-358`).

## Model

| member | source | states |
|---|---|---|
| CatalogCache.NoStaleRead | internal/cache/cache.go:87-151 | In every interleaving of readers, writers, expiries and failures, a request that arrives after a write and its bump finished never answers, by any of the five ways to answer, with data from before that write, if the bump was published or the request runs in the writer's process, and if it does not ask with `*` for an older copy while its process uses the cache |
| CatalogCache.FailedBumpIsInvisibleElsewhere | internal/cache/cache.go:142-151 | A reachable run in which a failed bump leaves another process answering 304 with the old copy |
| CatalogCache.OfflineWriteIsInvisibleElsewhere | internal/cache/cache.go:142-151 | A reachable run without any bump in which a process that gave the cache up writes and another answers 304 with the old copy |
| CatalogCache.StarConfirmsAnyCopy | internal/api/images.go:194-201 | A reachable run in which a published write is missed: a request with `*` is answered 304 for a copy of an earlier epoch |
| CacheGaps.StaleExactlyWhen | internal/cache/cache.go:87-151 | For every state, process and committed version: a request without `*` that arrives later can be answered with older data if and only if the process uses the cache and an issued copy, a stored entry or a running request of the current epoch is older |
| CacheGaps.StarIsStaleExactlyWhen | internal/api/images.go:194-201 | A request with `*` from a browser with given copies can be answered with older data if and only if its process uses the cache and one of the copies is older |
| CacheGaps.WriteIsMissedExactlyWhen | internal/cache/cache.go:142-151 | For every finished write the same conditions decide whether a process can miss it; without `*` that is never so for a published write or in the writer's process |
| CacheGaps.UnpublishedWriteIsMissed | internal/cache/cache.go:142-151 | From every state a write whose bump fails, or whose process was offline already, leaves the epoch, and can be missed by exactly the other processes that use the cache, if anything older is left, or with `*` if the browser holds any copy |
| CacheGaps.ArrivalsAreFresh | internal/api/gallery.go:110-156 | Once an epoch has begun after a write, or a process has given the cache up, no continuation answers a later request of the process with older data, unless it asks with `*` for an older copy |
| CacheGaps.CleanStaysOnTime | internal/api/gallery.go:110-156 | If nothing of an epoch and the later ones is older, no continuation answers a later request without `*` with older data |
| CatalogCache.StoredEntriesAreCurrent | internal/cache/cache.go:278-293 | Every stored entry under an epoch was computed from a database state no older than the moment that epoch began |
| CacheEntries.EntryWasComputed | internal/cache/cache.go:278-293 | Every stored entry was computed by an earlier request whose own epoch and shape are the key it stands under, and which then stored it |
| CacheEntries.AnswerWasComputed | internal/cache/cache.go:87-140 | Every answer with a body was computed by a request of the same epoch and shape |
| CacheEntries.CopyWasComputed | internal/cache/cache.go:87-140 | So was every copy that a browser can hold |
| CacheEntries.StoredIsFound | internal/cache/cache.go:87-140 | After a store, until the entry expires or is overwritten, every working read of that epoch and shape is served that version: the first read if it is fresh, the look of a lock loser, and a poll |
| CacheRequests.RequestsEnd | internal/cache/cache.go:87-140 | Every step of a request but a poll that finds nothing brings it nearer to its answer, and until it is answered it has such a step |
| CacheRequests.EpochIsReadOnce | internal/cache/cache.go:241-255 | A request works under the one epoch it read at its start, or under 0 if it could not read one or its process had given the cache up |
| CacheRequests.OfflineExactlyAfterFailure | internal/cache/cache.go:200-259 | A process gives the cache up if and only if a store operation of its own failed, a read of the epoch, a first read, a lock, a store or a bump, and then for good |
| CacheRequests.FailsOnlyByItself | internal/cache/cache.go:87-140 | A request fails only if its own computation failed or it was cancelled while it waited |
| CacheRequests.LocksAreInUse | internal/cache/cache.go:119-137 | A lock in the store belongs to a request between taking and releasing it, unless the store reported an error on either |
| CatalogCache.BeganIsTheStart | internal/cache/cache.go:241-255 | The moment an epoch began is the first state of the run with that epoch |
| CatalogCache.OnlyHolderReleases | internal/cache/cache.go:295-298 | A lock disappears only by its holder's release or by expiry; no release deletes another holder's lock |
| CatalogCache.SingleFlight | internal/cache/cache.go:87-140 | As long as no lock expires, at most one request per key computes under the lock |
| CatalogCache.StepKeepsInv | internal/cache/cache.go:87-151 | Every step keeps entries, issued ETag copies, requests and writers consistent with the epochs |
| CatalogCache.StepKeepsFresh | internal/api/gallery.go:110-156 | No step of anybody lets a request that must see a write, and does not ask with `*` for an older copy, fall back to older data |
| CatalogCache.EpochGrowsByOne | internal/cache/cache.go:142-151 | A step leaves the epoch or begins the next one at the current database state |
| ManualFields.NormalizeManualFields | internal/database/database.go:381-404 | The loop returns the lockable names it was given, cleaned, each once, in order |
| ManualFields.NormalIsNormal | internal/database/database.go:381-404 | Normalizing is idempotent |
| ManualFields.MergeGrows | internal/database/database.go:416-421 | Merging drops no lock and adds exactly the lockable names given |
| ManualFields.LockTestsAgree | internal/database/database.go:406-414 | On normal forms the Go lock test and the SQL containment test agree |
| Catalog.StepKeepsLocks | internal/database/database.go:932-1031 | Every write path keeps both unique keys and the normal form; a step takes a lock back exactly when it is an edit that overlaps another; only editors change a locked field |
| Catalog.LockedFieldsSurvive | internal/database/database.go:966-983 | Over every run without editor steps a locked field keeps its value and its lock |
| Catalog.LocksNeverShrink | internal/database/database.go:2165-2210 | Over every run with timely edits, overlapping ones included, locks only grow, stay normal, and both lock tests agree on every row |
| Catalog.LocksStayIff | internal/database/database.go:2165-2290 | Over every run no lock is dropped if and only if no edit overlaps an edit that sets a lock it neither saw nor sets |
| Catalog.StaleEditKeepsLocksIff | internal/database/database.go:2172-2198 | An edit that read the row earlier keeps exactly the locks that its read saw or that it sets |
| Catalog.OverlappingEditorsDropIff | internal/database/database.go:2227-2285 | Of two editors who read the same row, the second drops a lock of the first exactly when the row did not have it and the second does not set it |
| Catalog.TwoEditorsLoseTheTitle | internal/database/database.go:2165-2210 | A run of two editors that loses the lock on the title |
| Catalog.EditStep | internal/database/database.go:2165-2210 | A metadata edit keeps the keys and the normal form and only adds locks |
| Catalog.BulkEditStep | internal/database/database.go:2227-2285 | A bulk edit does so for every photo it touches |
| Catalog.EditedGrowsLocks | internal/database/database.go:2165-2210 | An edited row keeps its locks and gains the given ones in normal form |
| Catalog.OverwriteKeepsLocks | internal/database/database.go:985-1031 | The assignments of a download keep every locked field of the row they overwrite |
| Catalog.LegacyKeepsLocks | internal/legacyetl/loader.go:33-50 | The legacy upsert, which tests locks in SQL, keeps every locked field |
| Catalog.LegacyStep | internal/legacyetl/loader.go:148-178 | Loading a legacy row keeps the keys, the normal form and all locks |
| Catalog.RecordFailedStep | internal/database/database.go:1120-1135 | Recording a failure, which has no status guard, keeps the keys, the normal form and all locks |
| Catalog.FillHashStep | internal/legacyetl/loader.go:275-317 | Filling in a content hash keeps both unique keys and all locks |
| Catalog.ExcludeStep | internal/derivatives/audit.go:188-202 | Excluding an undecodable original keeps the keys and all locks |
| Catalog.RouteStep | internal/database/database.go:1719-1736 | Routing keeps the keys and all locks |
| Catalog.DownloadStep | internal/database/database.go:932-964 | Recording a download keeps the keys, the normal form and all locks |
| Catalog.DownloadOrDuplicateStep | internal/database/database.go:1037-1062 | So does recording it with a duplicate to route |
| Catalog.RecordingOutcomes | internal/database/database.go:1037-1062 | Won, lost or refused: what each leaves behind; in all cases downloaded rows are unaltered and no Inbox item changes its status |
| Catalog.WinsExactlyWhenFree | internal/database/database.go:1037-1092 | A download wins if and only if the url's row, if any, is not downloaded and no row holds the content, where the url's own row may hold it only if the database names the url index first |
| Catalog.ExcludedRowIsOverwrittenIff | internal/database/database.go:1037-1092 | Recording the content of an excluded row again overwrites the row if and only if it has no hash or the url index is named first; else the row stays excluded |
| Catalog.WonWritesOneRow | internal/database/database.go:1037-1092 | A download that wins writes one row, the url's own, which was not downloaded, or a new one; what it writes there is `CatalogRows.DownloadOrDuplicateIsInItsRow` |
| CatalogRows.DownloadIsInItsRow | internal/database/database.go:966-1031 | A download that wins is in the url's row: source page, file, size, source, hidden flag and hash are its own, date and notes unless locked, title, artist and keywords cleaned unless locked, category and provider given, derived or default, and the error empty on an overwrite; a fresh row likewise |
| CatalogRows.DownloadOrDuplicateIsInItsRow | internal/database/database.go:1037-1092 | The same when the loser would be routed to the Inbox |
| CatalogRows.FailureIsInItsRow | internal/database/database.go:1120-1135 | A failure changes status, error and provider of the url's row, or makes a row of nothing else |
| CatalogRows.EditIsInItsRow | internal/database/database.go:2165-2210 | An edit writes the given fields and their locks, and nothing else |
| CatalogRows.BulkEditIsInItsRows | internal/database/database.go:2227-2285 | So does a bulk edit, in the rows it names only |
| CatalogRows.RouteIsInItsRows | internal/database/database.go:1719-1736 | Routing writes the hidden flag and, if given, the source |
| CatalogRows.ExclusionIsInItsRow | internal/derivatives/audit.go:188-202 | An exclusion fails a downloaded row with its message and touches no other |
| CatalogRows.HashIsInItsRow | internal/legacyetl/loader.go:275-317 | A missing hash is filled in, unless another row has the content: then the row is deleted |
| CatalogRows.LegacyIsInItsRow | internal/legacyetl/loader.go:33-50 | A legacy row replaces what it carries but locked fields, and never notes, keywords or hash |
| CatalogRows.LegacyIsANewRow | internal/legacyetl/loader.go:148-178 | A url that no row has is inserted under the legacy id if that is free, else nothing changes |
| CatalogRows.ExceptionIsInItsItem | internal/database/database.go:1148-1173 | An exception is filed under its fingerprint, new or brought up to date with its status kept |
| CatalogRows.LoserIsInItsItem | internal/database/database.go:1037-1062 | A download that loses is filed as a duplicate with its own content hash, and nothing else is |
| CatalogRows.DecisionIsInItsItem | internal/database/database.go:1234-1251 | An open exception gets the decision and nothing else; anything else changes nothing |
| Catalog.RecordingTwice | internal/database/database.go:1037-1062 | Recording a won download again loses and leaves the photos alone |
| Catalog.OverlapKeepsLocks | internal/database/database.go:1064-1092 | A stale overwrite keeps the locks exactly when neither locks nor locked fields changed since the read |
| Catalog.OverlappingEditIsLost | internal/database/database.go:1064-1092 | An edit between read and overwrite loses its lock |
| CatalogStore.Store.constructor | internal/database/database.go:932-964 | An empty catalog satisfies the invariants |
| CatalogStore.Store.FindByUrl | internal/database/database.go:932-940 | Finds the row that owns the trimmed url, if there is one |
| CatalogStore.Store.IsHashTaken | internal/database/database.go:1064-1092 | Whether another row holds the content |
| CatalogStore.Store.Create | internal/database/database.go:1037-1050 | An insert succeeds when both keys are free, else it names a violated index and changes nothing |
| CatalogStore.Store.RecordDownload | internal/database/database.go:932-964 | The method is the step of the same name, outcome included, whose row is `CatalogRows.DownloadIsInItsRow` |
| CatalogStore.Store.UpdateNonDownloadedOwner | internal/database/database.go:1064-1092 | Overwrites a row that is not downloaded, with the fields of those lemmas; reports a missing or downloaded owner, and a content conflict |
| CatalogStore.Store.RecordInboxException | internal/database/database.go:1148-1173 | Files or refreshes an exception under its fingerprint, and refuses other statuses |
| CatalogStore.Store.RouteDuplicateToInbox | internal/database/database.go:1037-1062 | Routes the loser with the content hash of the download |
| CatalogStore.Store.RecordDownloadOrDuplicate | internal/database/database.go:1037-1062 | The whole method is the step with the three outcomes, whose row is `CatalogRows.DownloadOrDuplicateIsInItsRow` |
| CatalogStore.Store.RecordFailedDownload | internal/database/database.go:1120-1135 | Upserts the failure under the url |
| CatalogStore.Store.UpdatePhotoMetadata | internal/database/database.go:2165-2210 | Writes the given fields and their locks, or reports that nothing changed |
| CatalogStore.Store.ResolveInboxItem | internal/database/database.go:1234-1251 | Succeeds if and only if the item exists, is open and the status is one of three, and then changes that status only |
| Quarantine.GroupKeepsOne | internal/database/database.go:851-915 | Every group of equal content keeps exactly one row, a downloaded one if it had any |
| Quarantine.HashesBecomeUnique | internal/database/database.go:851-915 | Afterwards content hashes are unique |
| Quarantine.HashesStay | internal/database/database.go:851-915 | The set of content hashes is unchanged |
| Quarantine.DownloadedOwnerStays | internal/database/database.go:851-915 | Content that a downloaded row had is still had by a downloaded row, unaltered |
| Quarantine.EarliestDownloadStays | internal/database/database.go:851-880 | The row that keeps the content is a downloaded one if there is one, of those the one downloaded first, rows without a time last, and the least id of equal times |
| Quarantine.LosersHaveOwnPrints | internal/database/database.go:497-502 | With unique urls and no separator in a provider id, losers get distinct Inbox fingerprints, so the statement is never refused |
| Quarantine.LosersAreInboxed | internal/database/database.go:851-915 | Every loser is emptied and filed; all other rows and all Inbox statuses are as before |
| Quarantine.LosersInPlainTerms | internal/database/database.go:881-911 | Field by field: what a loser loses, and what its Inbox item says |
| Quarantine.RunningTwice | internal/database/database.go:851-915 | Running it again changes nothing |
| Ingest.Ingestor.constructor | internal/ingest/ingestor.go:108-111 | A run starts with empty counters |
| Ingest.Ingestor.Seen | internal/cache/cache.go:153-164 | A read that fails takes the cache offline and answers no |
| Ingest.Ingestor.MarkSeen | internal/cache/cache.go:166-175 | Marks unless the cache is offline or fails, and a failure takes it offline |
| Ingest.Ingestor.IsMediaAlreadyKept | internal/scraper/scraper.go:491-510 | Whether a downloaded row stands under the key or the source url |
| Ingest.Ingestor.HandleProviderError | internal/ingest/ingestor.go:330-366 | Which errors stop the run, halt it, or are recorded as failures and demote which row |
| Ingest.Ingestor.ServeResolved | internal/ingest/ingestor.go:198-261 | The second half of a round is the step of the specification: books, counters and outcome |
| Ingest.Ingestor.ServeItem | internal/ingest/ingestor.go:142-261 | One round is the step of the specification that the next lemmas are about, and exactly one counter moves or the run stops |
| Ingest.RoundFollowsVerdict | internal/ingest/ingestor.go:142-261 | What the round ends with: cancelled, keyless, seen, kept, refused, known content, lost and won items each have their verdict |
| Ingest.RoundMovesItsCounter | internal/ingest/ingestor.go:142-261 | Each counter moves for its own verdict, and only a refused permission halts the run |
| Ingest.RoundUsesTheCache | internal/ingest/ingestor.go:160-261 | A round goes offline if and only if a cache operation it got to fails, and exactly the items that are downloaded, or skipped without being known, are marked, if the cache can be written |
| Ingest.RoundKeepsBooks | internal/ingest/ingestor.go:142-261 | A download is of a row that was not downloaded and is now; a skipped item was seen, kept or is a recorded duplicate; a failed item is not marked; what is downloaded is marked unless the cache fails |
| Ingest.RoundKeepsBacked | internal/ingest/ingestor.go:237-239 | Every round keeps every mark backed by a row that is or was downloaded or a recorded duplicate |
| Ingest.RoundDemotes | internal/database/database.go:1120-1135 | Only a failure without a key demotes a downloaded row, and then the row of the empty url |
| Ingest.Ingestor.ServePage | internal/ingest/ingestor.go:138-261 | A page is served in order up to its end or the first item that stops the run |
| Ingest.Ingestor.ServeAndPublish | internal/ingest/ingestor.go:138-266 | The epoch is bumped once for a page that is served to its end and brought something, and never else; the downloads of a page that is not wait |
| Ingest.Ingestor.RefusePage | internal/ingest/ingestor.go:121-133 | A page that cannot be listed ends the run |
| Ingest.Ingestor.SavePosition | internal/ingest/ingestor.go:277-282 | The cursor moves, and is saved, only past a page whose items were all served |
| Ingest.Ingestor.ChoosePage | internal/ingest/ingestor.go:284-300 | The next request is for the page the reply names, or one more than the pages processed where it names none, with its cursor; if that page is not allowed, for the least allowed one beyond it without a cursor; and there is none exactly when there is no next page or all allowed pages lie before it |
| Ingest.Ingestor.OnePage | internal/ingest/ingestor.go:113-302 | One round of the page loop keeps the cursor durable and the counts conserved, on every early exit; the downloads of the page are followed by a bump if and only if its item loop reached the end |
| Ingest.Ingestor.IngestPages | internal/ingest/ingestor.go:108-302 | However a run ends, the cursor and every save of it name the position after served pages; without error or halt found = downloaded + skipped + failed; marks are backed, and only the made-up urls of failures demote; the first request is for the start page at the stored cursor and every later one is what ChoosePage makes of the reply before it; a run without error or halt ended for lack of pages, and an error is not reported when it did and the last page was saved; if nothing hinders the pages before a refused one, exactly their items are marked |
| Ingest.Ingestor.RunConnector | internal/ingest/ingestor.go:61-106 | The final save carries that cursor unless it fails; the requests are as before, increase if the connector advances, and are no more than the allowed pages; the new marks are sound if and only if no failure record without an item's key took the only row of a marked item, for connectors without aliases: unless the last page was gone and its record names a marked item's row |
| Ingest.AsksIncrease | internal/ingest/ingestor.go:284-300 | Requests that follow their replies are for ever later pages if the connector advances, with or without allowed pages, and for allowed ones if the first is |
| Ingest.AllowedStay | internal/ingest/ingestor.go:379-393 | The options a run works with have the same allowed pages in order, and start with the least one, or with the given start page, or with page one |
| Ingest.NextAllowedIsLeast | internal/ingest/ingestor.go:407-414 | The next allowed page is the least one beyond the given page, and is missing exactly when there is none |
| Ingest.SortIntsHolds | internal/ingest/ingestor.go:379-393 | The allowed pages end up in order, each as often as it was given |
| Ingest.IncreasingFits | internal/ingest/ingestor.go:395-414 | Strictly increasing members of a set are no more than the set has |
| Ingest.SoundExactlyWhen | internal/ingest/ingestor.go:337-366 | A mark has lost its evidence exactly when an item of its key has a row made up for a failure that happened, it is no duplicate, and no item of the key has another downloaded row |
| Ingest.SoundWithoutAliases | internal/ingest/ingestor.go:337-366 | Without aliases marks are unsound exactly when a page was gone and the key of a mark, not a duplicate, names the row of its failure record |
| Ingest.GonePageLosesItsMark | internal/ingest/ingestor.go:330-366 | A whole run over two pages that downloads and marks an item and then demotes its row for the gone page |
| Ingest.KeyIsNotBlank | internal/scraper/scraper.go:484-489 | No key of an item names the empty url, so only an alias can rest on that row |
| Ingest.KeysTellItemsApart | internal/scraper/scraper.go:484-489 | Of one provider different values have different keys, and exactly the items without a value or provider have none |
| Resweep.RoundTracksTables | internal/ingest/ingestor.go:142-261 | The round of the loop and the write paths of the catalog go together: the set of downloaded urls stays that of the table |
| Resweep.RestoredExactlyWhen | internal/ingest/ingestor.go:156-261 | A sweep over an item whose row is not downloaded restores it if and only if the item is served, the cache lets it through, no downloaded row stands under its source URL and its content is free |
| Resweep.ExcludedRowIsRestoredIff | internal/derivatives/audit.go:26-29 | So for a row just excluded and unchanged content: the last condition is that the row has no hash or the url index is named first |
| Resweep.SeenRowStaysExcluded | internal/ingest/ingestor.go:160-167 | While the cache answers that it has seen the key, a sweep leaves tables, marks and all as they are |
| Resweep.DownloadedThenExcludedStays | internal/derivatives/audit.go:26-29 | After a sweep that downloaded the item with a working cache, every later sweep in which the cache answers leaves the tables alone |
| ScrapePage.SectionIsExclusive | internal/scraper/scraper.go:130-236 | In every interleaving check-then-download is exclusive per key, and at most the limit is in flight |
| ScrapePage.RecordedOncePerKey | internal/scraper/scraper.go:160-225 | No key is recorded twice in a page, however often it occurs |
| ScrapePage.StepKeepsInv | internal/scraper/scraper.go:130-236 | Every step keeps slots, locks and counters consistent |
| ScrapePage.NoDeadlock | internal/scraper/scraper.go:130-236 | With a positive limit some goroutine can always move until all are gone |
| ScrapePage.StepsAreFinite | internal/scraper/scraper.go:130-236 | Every step brings the page nearer to its end |
| ScrapePage.CountersSumUp | internal/scraper/scraper.go:226-235 | A run that cannot go on has served every item, and the three counters sum to their number |
| ScrapePage.CountersCountTheirEnd | internal/scraper/scraper.go:160-235 | Each counter counts the items that ended in its way: stored or routed; kept already or without a key, and filed; and everything that failed |
| ScrapePage.FetchedWasNotKept | internal/scraper/scraper.go:181-225 | An item that is fetched has a key, was looked up, and was found neither under its key nor under its source URL |
| ScrapePage.StartedInOrder | internal/scraper/scraper.go:130-160 | Goroutines are started in the order of the items |
| ScrapePage.ZeroLimitBlocks | internal/scraper/scraper.go:130-160 | With limit zero no item is ever admitted |
| PruneScheduler.Scheduler.constructor | internal/derivatives/cache.go:208-222 | Nothing is pending at first |
| PruneScheduler.Scheduler.SchedulePrune | internal/derivatives/cache.go:208-222 | The critical section is the specified step |
| PruneScheduler.Scheduler.BeginScheduledPrune | internal/derivatives/cache.go:224-229 | So is the first one of the timer callback |
| PruneScheduler.Scheduler.EndScheduledPrune | internal/derivatives/cache.go:230-239 | And the second one |
| PruneScheduler.PrunesNeverOverlap | internal/derivatives/cache.go:208-239 | At any moment at most one scheduled prune is pending or running |
| PruneScheduler.NoRequestIsLost | internal/derivatives/cache.go:171-177 | After every completed write a walk that began later has happened or is still to come |
| PruneScheduler.EveryWriteIsWalked | internal/derivatives/cache.go:171-177 | In terms of the run alone: when nothing is pending any more, a walk has begun after each write that was followed by a request |
| PruneScheduler.ComesToRest | internal/derivatives/cache.go:224-239 | With writers silent the scheduler comes to rest |
| PruneBudget.Directory.Remove | internal/derivatives/cache.go:270-288 | Removes a file unless it is stuck |
| PruneBudget.Directory.Prune | internal/derivatives/cache.go:241-288 | Nothing within budget; else exactly the shortest oldest-first prefix that reaches nine tenths; the running total is the bytes left |
| PruneBudget.TargetIsNineTenths | internal/derivatives/cache.go:278 | The target is nine tenths of the budget in whole bytes |
| PruneBudget.OldestGoFirst | internal/derivatives/cache.go:262-288 | No removed file is newer than a removable one that stayed |
| PruneBudget.SortedHolds | internal/derivatives/cache.go:262-266 | Sorting by time permutes the files into oldest-first order |
| WarmWriter.Writer.constructor | internal/derivatives/warmer.go:63-68 | The count starts at zero |
| WarmWriter.Writer.CountWrite | internal/derivatives/warmer.go:70-86 | In every state of the schedule the method takes the step that the bound below is about |
| WarmWriter.UnseenIsBounded | internal/derivatives/warmer.go:70-86 | Whatever the schedule, at most pruneEvery + concurrency - 1 finished writes are unseen by a prune |
| WarmWriter.BoundIsReached | internal/derivatives/warmer.go:70-86 | And that bound is reached |
| WarmWriter.EveryWriteIsCounted | internal/derivatives/warmer.go:70-86 | No worker is stuck: until every write is counted and no prune is under way, some such step is possible, and each brings rest nearer |
| CacheNames.RecogniserIsExact | internal/derivatives/cache.go:320-349 | The recogniser accepts exactly the names of the printed shape |
| CacheNames.EntriesAreCacheFiles | internal/derivatives/cache.go:73-89 | Every path that is built for a clamped width is accepted |
| CacheNames.EntriesAreDistinct | internal/derivatives/cache.go:73-82 | Different photo, width or token, different path |
| CacheNames.SweeperAndPrunerAreDisjoint | internal/derivatives/cache.go:290-318 | No file is both a temp file and a cache file |
| CacheNames.UnfinishedFilesAreSwept | internal/derivatives/cache.go:290-318 | Every name that a writer gives its unfinished file is one the sweeper removes |
| IdOrder.FirstIdsHolds | internal/derivatives/warmer.go:274-283 | A page is increasing, has as many ids as the limit allows, and leaves out no smaller one |
| IdOrder.FirstIdsUnique | internal/derivatives/warmer.go:274-283 | Only one list is like that |
| Sweep.CountsAreConserved | internal/derivatives/warmer.go:92-162 | In every interleaving rows are visited at most once, in id order, within the limit; without error a warm sweep has generated + skipped + missing + failed = scanned x widths and an embedding sweep scanned = embedded + missing + permanent + failed |
| Sweep.CountersCountTheirOutcome | internal/derivatives/warmer.go:92-162 | Each counter counts the units that ended with its own outcome |
| Sweep.OnlyEmbeddedRowsAreDone | internal/similarity/backfill.go:102-186 | An embedding sweep takes exactly the rows it embedded out of its query, a warm sweep none: the rest is there for the next sweep |
| Sweep.NothingIsMissed | internal/similarity/backfill.go:188-238 | Whatever others do, a row that stays eligible is visited unless the limit was used up before it |
| Sweep.VisitsExactly | internal/similarity/backfill.go:188-238 | With changes behind the sweep only, it visits exactly the rows eligible at the start, in id order, up to the limit |
| Sweep.StepKeepsInv | internal/derivatives/warmer.go:245-327 | Every step keeps order, limit and the balance of counted and open units |
| Sweep.StepMissesNothing | internal/derivatives/warmer.go:245-327 | No step passes over an eligible row |
| Sweep.StepKeepsAhead | internal/similarity/backfill.go:152-186 | Workers change nothing ahead of the sweep |
| Sweep.NoDeadlock | internal/derivatives/warmer.go:112-137 | Until the sweep returns one of its own steps is possible |
| Sweep.StepsAreFinite | internal/similarity/backfill.go:54-100 | Each of its steps brings it nearer to its end |
| OriginalsAudit.Auditor.AuditPhoto | internal/derivatives/audit.go:120-186 | One original counts once, and only an undecodable one can be excluded |
| OriginalsAudit.Auditor.AuditNext | internal/derivatives/audit.go:99-102 | The next row is scanned and audited on top of what was audited before |
| OriginalsAudit.Auditor.AuditPage | internal/derivatives/audit.go:99-116 | A page is audited row by row, although auditing changes the table |
| OriginalsAudit.Auditor.AuditOriginals | internal/derivatives/audit.go:59-118 | The sweep visits exactly the downloaded rows in id order up to the limit; it fails if and only if it gets to the page whose query fails, after the pages before it; scanned = decodable + missing + undecodable; the table changes by the exclusions only |
| OriginalsAudit.CleanAfterExclusion | internal/derivatives/audit.go:54-58 | After a complete excluding audit the undecodable rows left are those whose update failed |
| OriginalsAudit.ExclusionGrows | internal/derivatives/audit.go:188-202 | Excluding row by row is excluding all at once |
| OriginalsAudit.ExclusionInPlainTerms | internal/derivatives/audit.go:188-202 | An excluded row has failed with a message made of its verdict; any other row is as it was |
| OriginalsAudit.FindingsAreUndecodable | internal/derivatives/audit.go:120-186 | The findings are the undecodable ones among the visited rows, in the order of the sweep |
| RoutingBackfill.BatchShrinksPending | internal/database/database.go:1738-1810 | A batch takes exactly its photos out of the pending set, as many as the limit allows |
| RoutingBackfill.LoopDrainsIff | dashboard/src/folio/DestinationControls.tsx:133-146 | The client's loop ends for every catalog; it leaves nothing pending exactly when its batch size is within the server's limit or one batch sufficed; matched is what it took away |
| RoutingBackfill.LoopRoutes | internal/database/database.go:1738-1810 | The loop as a whole reroutes the pending photos and nothing else |
| RoutingBackfill.LoopSettlesAll | internal/database/database.go:1760-1790 | Afterwards every photo of the source is routed as wished |
| RoutingBackfill.RoutedInPlainTerms | internal/database/database.go:1738-1810 | Which photos are the source's, and that the loop hides them if and only if there is a target and the source is not shown, puts them into the target, and leaves every other photo alone |
| RoutingBackfill.EffectiveMeans | internal/database/database.go:1812-1832 | A source whose target folio is gone hides nothing and routes nowhere; any other is as it is stored |
| RoutingBackfill.RerunMatchesNothing | dashboard/src/folio/DestinationControls.tsx:133-146 | A second run matches nothing |
| RoutingBackfill.Library.EnsureTargetFolio | internal/database/database.go:1812-1832 | A target folio that is gone is dropped, and the source shows again |
| RoutingBackfill.Library.InsertPieces | internal/database/database.go:1801-1807 | Inserts that do nothing on conflict, counted by the folio's growth |
| RoutingBackfill.Library.Backfill | internal/database/database.go:1738-1810 | One request: which tables change how, and what it reports |
| RoutingBackfill.Library.RunBackfill | dashboard/src/folio/DestinationControls.tsx:133-154 | The loop reports the pending photos as matched, the folio's growth as added, and the target it worked with, and leaves nothing pending |
| DumpText.SanitizeIsIdentity | internal/legacyetl/parser.go:107-160 | Copying rune by rune is the identity exactly on well-formed UTF-8 |
| DumpText.RuneIsCharacter | internal/legacyetl/parser.go:113-118 | A character is read if and only if the text begins with the bytes that section 3 of RFC 3629 gives a character number, surrogates excluded |
| DumpText.SanitizeEscape | internal/legacyetl/parser.go:307-324 | Copying rune by rune commutes with escaping |
| DumpLexing.ReachIsFirst | internal/legacyetl/parser.go:107-160 | A cut is at the first stop byte outside every literal |
| DumpLexing.ReadRune | internal/legacyetl/parser.go:113-135 | The splitter's loop reads one whole character, or the replacement for a stray byte |
| DumpLexing.SplitSqlStatements | internal/legacyetl/parser.go:107-160 | The loop over its flags returns exactly the trimmed statements of the specification, or its error, and wherever it stands its flags are the automaton's mode of the text so far |
| DumpTuples.ParseTuple | internal/legacyetl/parser.go:250-295 | The loop over its flags returns the values and the end of the tuple, or the error, of the specification, and its flags are the automaton's mode likewise |
| DumpTuples.ParseTuples | internal/legacyetl/parser.go:227-248 | So does the loop over tuples, and every tuple begins outside every literal |
| DumpTuples.LexersAgree | internal/legacyetl/parser.go:107-295 | At every offset where both loops stand, splitter and tuple parser agree whether they are inside a literal |
| DumpTuples.CutsLieOutside | internal/legacyetl/parser.go:107-160 | A statement never ends inside a literal |
| DumpTuples.TupleEndsOutside | internal/legacyetl/parser.go:250-295 | Where the tuple parser ends a tuple, the splitter's automaton is outside every literal too |
| DumpTuples.DecodeEscape | internal/legacyetl/parser.go:307-324 | Unescaping undoes escaping |
| DumpTuples.FieldRoundTrip | internal/legacyetl/parser.go:297-305 | A printed field reads back as its value |
| DumpTuples.LiteralReadsBack | internal/legacyetl/parser.go:250-324 | A literal reads as the text it spells, whichever way its bytes are written: as they are, doubled, or after a backslash, and only its last quote ends it |
| DumpLayout.BareReadsBack | internal/legacyetl/parser.go:297-305 | A bare token reads without the blanks around it, and as NULL if it is that word in any letter case |
| DumpTuples.TupleRoundTrip | internal/legacyetl/parser.go:250-295 | A printed tuple reads back, whatever follows it |
| DumpTuples.TuplesRoundTrip | internal/legacyetl/parser.go:227-248 | A printed list of tuples reads back, whatever commas and blanks separate them |
| Decimal.ValueOfDigits | internal/legacyetl/parser.go:406-418 | Printed digits have the printed value |
| Decimal.ParseUintDigits | internal/legacyetl/parser.go:406-411 | A printed unsigned number reads back |
| Decimal.ParseIntPrintInt | internal/legacyetl/parser.go:413-418 | A printed signed number reads back |
| Decimal.ParseUintPadded | internal/legacyetl/parser.go:406-411 | Leading zeros are skipped, and a number beyond 64 bits is refused |
| Decimal.ParseIntSigned | internal/legacyetl/parser.go:413-418 | So with a sign |
| DumpRows.ParseDump | internal/legacyetl/parser.go:59-105 | The loop over statements collects exactly the rows of the specification, or its error; what that is for every printed dump is `DumpTheorem.DumpReadsBack` |
| DumpRoundTrip.SplitDump | internal/legacyetl/parser.go:107-160 | A printed dump splits into the statements it was printed from, and is refused if and only if more than blanks or a line comment follows the last one |
| DumpLayout.InsertRead | internal/legacyetl/parser.go:162-226 | An INSERT statement in any letter case, with any blanks, with or without backquotes and with or without a column list reads as its table, its columns and its tuples |
| DumpLayout.KeysRead | internal/legacyetl/parser.go:398-404 | Columns spelled with or without backquotes and blanks, in any letter case, are looked up under their own names |
| DumpRoundTrip.TailIsAccepted | internal/legacyetl/parser.go:153-158 | The text after the last semicolon is accepted if and only if it is blank or a line comment |
| DumpRoundTrip.PhotoOfFields | internal/legacyetl/parser.go:326-353 | A tuple of any values, for any list of columns in any order, reads as the photo these values give: NULL and a missing column as empty, and refused only for an id or size that is no number |
| DumpRoundTrip.RunOfFields | internal/legacyetl/parser.go:355-396 | The same for a run |
| DumpRoundTrip.MisfitIsRefused | internal/legacyetl/parser.go:326-329 | A statement with a tuple of more or fewer values than columns is refused |
| DumpRoundTrip.PhotoRead | internal/legacyetl/parser.go:326-353 | A photo printed with any list of columns reads back, a missing column as empty or zero; without the id it is refused |
| DumpRoundTrip.RunRead | internal/legacyetl/parser.go:355-396 | The same for a run |
| DumpRoundTrip.BlockRows | internal/legacyetl/parser.go:59-105 | One statement gives the rows it was printed from; rows for another table are refused, and a statement that is no INSERT gives none |
| DumpRoundTrip.StatementsRead | internal/legacyetl/parser.go:59-105 | The statements of a printed dump read back as its rows, or are refused |
| DumpTheorem.DumpReadsBack | internal/legacyetl/parser.go:59-160 | For every dump in every layout, splitter, statement and tuple parser and row mapping together read each row back, each text as rune-wise copying leaves it and each column that is not listed as empty or zero; they refuse the dump if and only if it writes to another table, lists columns without the id, or does not end |
| DumpTheorem.RoundTripIsExact | internal/legacyetl/parser.go:59-160 | The rows come back exactly if and only if the dump is not refused, every text is well-formed UTF-8, no optional text is present but empty, and no column that is not listed holds anything |
| DumpTheorem.PhotoReadsBack | internal/legacyetl/parser.go:326-353 | The same for one photo |
| DumpTheorem.CommentHidesInsert | internal/legacyetl/parser.go:162-166 | A line comment in front of an INSERT hides it: no rows and no error |
| ConnectorStatus.CountStats | internal/api/streams.go:115-172 | The loop leaves every card with its family's counts, every source with its own, one source for each provider and source, and cards equal to the sum of their sources |
| ConnectorStatus.TallyKeepsFolded | internal/api/streams.go:165-171 | One more row of statistics keeps all of that |
| ConnectorStatus.CardsSumToInput | internal/api/streams.go:401-411 | All cards together sum to the input |
| ConnectorStatus.CountsAreSums | internal/api/streams.go:401-411 | The four numbers of a card, of a source and of the page are the sums over their rows: all, downloaded, failed and pending ones |
| ConnectorStatus.LastSyncIsLatest | internal/api/streams.go:165-171 | A source was last synced when its latest row says so, the zero time saying nothing |
| ConnectorStatus.FamilyMeans | internal/api/streams.go:317-331 | A provider belongs to the family before its first colon, to itself without one, and to the web gallery when blank |
| ConnectorStatus.FoldStates | internal/api/streams.go:212-230 | The loop leaves every family with the driving state of its rows |
| ConnectorStatus.DriverIsGreatest | internal/api/streams.go:335-357 | Once some row has a time, the driving state is greatest by time and then by source scope |
| ConnectorStatus.LatestRowDrives | internal/api/streams.go:335-357 | In plain terms: the driving row is as late as any, and of equally late rows a source's if there is one |
| ConnectorStatus.DriverIgnoresOrder | internal/api/streams.go:335-357 | Then its time and scope do not depend on the row order, nor does the row without ties |
| ConnectorStatus.DriverIgnoresOrderIff | internal/api/streams.go:335-357 | The time and scope on a card are the same for every order of its rows if and only if some row has a time or all rows agree on both |
| ConnectorStatus.RunOrder | internal/api/streams.go:365-379 | Runs with distinct ids are strictly and totally ordered |
| ConnectorStatus.LatestStartedLast | internal/api/streams.go:365-379 | The latest run started last and has the greatest id of those that started then; if none started, the greatest id |
| ConnectorStatus.RunsShareProviderIff | internal/api/streams.go:310-315 | Runs compete if and only if they name the same provider, no name being the web gallery's |
| ConnectorStatus.LatestRuns | internal/api/streams.go:298-308 | The loop leaves every provider with the run that is newer than all its others |
| ConnectorStatus.LatestIgnoresOrder | internal/api/streams.go:298-308 | That run does not depend on the input order |
| Facets.StatsSumToTotal | internal/database/database.go:2571-2619 | For every filter set each grouped statistic sums to the catalog total |
| Facets.FiltersNarrow | internal/database/database.go:2656-2710 | Without filters the catalog is the visible rows, and each filter that is added keeps exactly the rows it is about |
| Facets.ProviderMeans | internal/database/database.go:2657-2671 | A provider filter selects the pages that are the provider or start with its address, under two schemes and with or without www., and unknown the rows without a page |
| Facets.CategoryMeans | internal/database/database.go:2676-2687 | A category filter selects its medium in any letter case, or else exactly its trimmed text |
| Facets.GroupsCount | internal/database/database.go:2461-2481 | The groups under any set of keys count the pieces with those keys |
| Facets.CategoryFacets | internal/api/gallery.go:345-367 | The loops merge medium aliases and add empty mediums |
| Facets.CategoryFacetsCount | internal/api/gallery.go:345-367 | The merged facets still sum to the total, and each counts the pieces it stands for |
| Facets.FacetIdMeans | internal/gallery/categories.go:11-29 | Five categories are mediums in any letter case and with any blanks around them; every other is its own facet, and none is unknown |
| Facets.FacetsShowWhatTheyCountIff | internal/database/database.go:2676-2687 | With no category filter active, every category facet counts exactly what its filter shows if and only if no selected category has surrounding spaces or all are one and the same blank |
| Facets.PaddedRowIsLost | internal/gallery/categories.go:21-29 | A padded category is counted by a facet that does not select it |
| Facets.ArtistFacetShowsWhatItCountsIff | internal/database/database.go:2599-2619 | An artist facet counts exactly what its filter shows if and only if its name is stored as trimmed text, empty included; a NULL or padded one shows nothing it counts |
| Facets.SourceFacetShowsWhatItCountsIff | internal/database/database.go:2461-2481 | A source facet does so if and only if its page is trimmed text, or is blank, when its filter is no filter, and every selected row has it |
| Facets.FavoriteStats | internal/database/database.go:2629-2654 | The two counts sum to the total and are the totals of their filters |
| ProviderFacets.MergeProviders | internal/api/gallery.go:288-307 | The loop adds up the sources of each provider |
| ProviderFacets.ProviderFacetsCount | internal/api/gallery.go:288-307 | For every filter set the provider facets sum to the total, and each counts the pieces whose page has its hostname |
| ProviderFacets.LabelMeans | internal/api/gallery.go:417-426 | A page is labelled with its hostname without a leading www., or with itself if it has none |
| ProviderFacets.FilterReadsSpelling | internal/database/database.go:2656-2672 | The provider filter accepts exactly the names that stand in the page's text between a lead and a slash, or are the page |
| ProviderFacets.ProviderFacetsShowWhatTheyCountIff | internal/database/database.go:2656-2672 | With no provider filter active, every provider facet counts exactly what its filter shows if and only if every selected page spells its own label and no other facet; this is FilterReadsSpelling row by row, and PlainPagesAgree says which pages do |
| ProviderFacets.PlainPagesAgree | internal/api/gallery.go:417-426 | That is so when every selected page is missing or reads scheme, hostname, slash |
| ProviderFacets.BarePageIsLost | internal/api/gallery.go:417-426 | A page that ends with its hostname is counted by a facet that does not show it |
| Template.ParensWrapWhole | docs/mobile/support.js:233-243 | The loop is the scan of the specification |
| Template.FindTopLevelEquality | docs/mobile/support.js:244-258 | So is this one |
| Template.ResolvePath | docs/mobile/support.js:259-291 | The loop over the steps walks the path of the specification |
| Template.FindClose | docs/mobile/support.js:271-280 | The loop inside it finds the closing bracket of the specification |
| Template.EvaluatesPrinted | docs/mobile/support.js:201-232 | Evaluating any printed tree, with any spacing, with or without outer parentheses, and with any quoted text whose brackets are balanced and which hides no equality, gives what the tree means; what its parts mean is in `TemplateMeaning` |
| Template.BalancedTextIsNeutral | docs/mobile/support.js:233-258 | Quoted text with balanced brackets and without two signs of an equality in a row is such text |
| Template.PrintEvaluates | docs/mobile/support.js:201-232 | The same for trimmed text, by induction over the tree |
| TemplateMeaning.ComparisonsMean | docs/mobile/support.js:206-219 | On printed operands the four operators give the strict and the loose equality of what the operands give, and their negations |
| TemplateMeaning.NegationMeans | docs/mobile/support.js:220 | An exclamation mark negates the truthiness of the operand |
| TemplateMeaning.LiteralsMean | docs/mobile/support.js:221-230 | Words, numbers and quoted text give the values they name |
| TemplateText.NumberIs | docs/mobile/support.js:199-200 | Numbers are a sign or none, digits, and a point with digits or none |
| TemplateText.NumberParts | docs/mobile/support.js:199-200 | And nothing else is a number |
| TemplateMeaning.NameMeans | docs/mobile/support.js:259-264 | A name is looked up among the values in scope, if there are any |
| TemplateMeaning.LookupsMean | docs/mobile/support.js:265-289 | A point or brackets look the name, the index or the value of the key up in what stands before, and null and undefined have no properties |
| TemplateMeaning.PathExtends | docs/mobile/support.js:265-289 | A longer path is the shorter one and then the rest |
| Template.WalkEvaluates | docs/mobile/support.js:259-291 | Walking printed steps, nested index expressions included, looks up what they mean |
| Template.OperatorIsFound | docs/mobile/support.js:244-258 | The operator between two printed operands is the one that is found, and no other |
| Template.OperandIsQuiet | docs/mobile/support.js:244-258 | No printed operand hides an equality at top level |
| Template.WrapIsWhole | docs/mobile/support.js:233-243 | Parentheses wrap the whole exactly when nothing follows them |
| Template.QuotedReadsBackIff | docs/mobile/support.js:220-231 | Text between equal quotes reads back if and only if the scan finds no equality in it |
| Template.QuotedEqualityIsCompared | docs/mobile/support.js:206-219 | A literal on which that fails |

## Left out

Choices that bound the statements above:

- CatalogCache.NoStaleRead: assumes the epoch key is never evicted; eviction would restart the epochs.
- Catalog.StepKeepsLocks: takes the overwrite of a download as one step; the overlap of its two statements is
  `Catalog.OverlapKeepsLocks`.
- Sweep.VisitsExactly: speaks of changes behind the sweep; for any other change `Sweep.NothingIsMissed` holds.
- Ingest.Ingestor.IngestPages: increasing pages are stated for connectors that name a page beyond the requested one;
  any other connector is asked for what it names, a page it has served before too.
- `GetOrCompute`, the scraper's goroutines and the sweeps' workers are steps of a transition system rather than
  methods: other steps run between any two of theirs, which a method body does not show.
- Facets.CategoryFacets: is compared up to the sorting of the finished list.
- ProviderFacets.MergeProviders: leaves out the sorting and the list of sources under each provider; the hostname
  that `net/url` finds in a page is a parameter.
- DumpTheorem.DumpReadsBack: prints strings with one of the spellings that `DumpTuples.LiteralReadsBack` allows, a
  line break after each statement, and ASCII outside strings; the reader itself is modelled for all input.
- ConnectorStatus.CountStats: takes provider and source ids as already resolved from the stored columns.

Not modelled:

- HTTP handlers, routing, JSON, server-sent events, React views, iOS packaging and the rest of
  `docs/mobile/support.js`: plumbing around the modelled steps.
- Redis, PostgreSQL and GORM internals: maps with unique keys and atomic statements; SHA-256 is an injective
  function, hence hashes stand for their preimages.
- Time: timers, expiry and jitter are steps that may happen at any moment; `pkg/retry` is left out.
- Image decoding, embeddings and file systems: oracles or scripted replies.
- The clean-up of titles, artists, keywords and derived categories (`internal/catalogquality/quality.go`) is a
  parameter of the catalog: nothing proved depends on it.  Letters fold and blanks trim as in ASCII.
- JavaScript's property lookup, number reading, truthiness and the two equalities are parameters of the evaluator;
  strings are sequences of characters, not of UTF-16 units.
- Cancellation of a scraper page, `MoveInboxItemToFolio`, `editKeywords`, the scheduler's try-locks
  (`internal/scheduler/scheduler.go`), and the connector's error list and health words: they add members of the
  kinds above and no harder claim.
- The webgallery and telegram connectors are not part of this model: any connector that keeps an item's key is.
