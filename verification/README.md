# Verification of the article storage, the public cache and the code around them

A Dafny model of the site's Go code, with proofs about every run, every input and
every interleaving of the parts that are hard to get right. `dafny verify dfyconfig.toml`
checks everything.

## What is modelled

* **Article storage protocol** (`ArticleModel`, `ArticleTable`, `ArticleProtocol`,
  `ArticleInvariant`, `ArticleSteps`, `ArticleCommits`, `ArticleTheorems`,
  `ArticleOutcomes`, `ArticleHiding`, `ArticleClocks`, `ArticleReconcile`, `ArticleEndings`,
  `ArticleWrites`). Any number of clients run CreateDraft,
  SaveDraft, Publish and Withdraw against one table partition and one body store.
  Every driver call is one atomic step of a transition system; a mutation may fail
  before or after it took effect. The invariant `WorldOk` is kept by each step
  (`ArticleCommits.StepKept`), and the theorems are about all runs from any
  consistent table without running operations.
* **The memory repository** (`MemoryArticles`), the simple specification, and the
  proof that the Azure repository simulates it: what the two have in common
  (`Refinement`), one Create or Update running alone through the protocol (`SoloRuns`),
  and all sequences of calls (`RepositoryTraces`).
* **Texts and slugs** (`Texts`, `DraftInput`): trimming, slug normalisation and what a draft's
  texts become.
* **Row keys, paging and the two listings** (`RowKeys`, `Paging`, `Listing`,
  `CurrentListing`), the contact listings (`Contacts`, `ContactPages`), and what a client
  sees that follows cursors while others change the stored set.
* **Migration of legacy rows** (`Migration`), with failures at every call and with
  other writers and other migrations at work, and exactly when it succeeds without them.
* **The public HTML cache**: one function for each section under the lock
  (`CacheModel`), the class that updates in place (`HtmlCache`), what every page is
  rendered from and what a change invalidates (`PublicSite`), all of it running
  together (`SiteRuns`), the runs of the article protocol as the changes that it is
  about (`ArticleSite`), what a sequence of visits is given and how old it is
  (`CacheVisits`), and what a visitor sees of an article, field by field (`VisitorView`).
* **The document compiler** (`Documents`, `Compiler`), the grammar of what it accepts
  (`Schema`), its plain text (`PlainText`) and a reader that undoes its HTML (`RoundTrip`).
* **Token buckets** of the login and the contact form (`RateLimit`), and whether anybody
  can notice that they forget idle keys (`RateSweeps`).
* **Contact purge and dashboard** (`Contacts`).

Times are unbounded integers in nanoseconds; where the code relies on a width it is
written out (the 64-bit reverse timestamp of row keys, the `uint64` generation of the
cache). Strings are sequences of characters; row keys compare byte by byte. ETags are
numbers handed out in order.

### The transition functions of the protocol

They follow the code branch by branch: `AfterRead` is the service's read and checks
(`internal/articles/service.go:102-194`), `AfterPut` and `UploadStep` the upload and its
reconciliation (`internal/storage/azure/bodies.go:35-69`), `AfterProbe` and
`AfterConflictProbe` the reads of Create (`internal/storage/azure/articles.go:30-65`),
`AfterReread` and `AfterReadSlug` those of Update (`internal/storage/azure/articles.go:319-400`),
`BatchFits`, `Applied` and `AfterCommit` the batch and the mapping of its errors
(`internal/storage/azure/articles.go:376-400`, `internal/storage/azure/articles.go:554-569`),
`AfterRefresh`, `AfterReconcile`, `AfterCheckLegacy`, `AfterVerifySlug` and `AfterVerified`
the refresh and reconciliation reads (`internal/storage/azure/articles.go:402-498`), and
`DeleteStep` the deletion of a body that is given up or replaced
(`internal/articles/service.go:92-140`).

What they come to is stated without them, in terms of the steps of a run:
`ArticleReconcile.UncertainIsReconciled` says what is answered after an uncertain batch,
`ArticleEndings.RefusedIsNamed` after a refused one, `ArticleWrites.UpdateStores` and
`ArticleWrites.CreateStores` what an effective batch stores, field by field, and
`ArticleEndings.BodiesAreCleanedUp` which body is deleted.

### Assumptions

* Reads are linearizable, and a read answers "not found" only when nothing is there.
* ETags and body versions are never reused; the ETag a caller expects was issued before
  its call began.
* Article IDs are fresh: no two creations use the same ID.
* A driver error other than transient, cancelled or deadline exceeded means no effect.
* The outcome of a failed mutation is settled when the driver call returns.
* Stored articles decode to what was encoded.

In `SiteRuns` every change leaves the articles valid and their public slugs disjoint. This is
no assumption about the storage: `ArticleSite.ProtocolActs` proves it of every run of the
article protocol.

The fields `log`, `issued`, `retired`, `dropped`, `everPublic`, `clock` and `monotone` of the
store, and `applied` and `held` of a client, are history: no transition reads them to decide
anything. The theorems of `ArticleOutcomes` restate what they say in terms of the steps of
the run.

### Results that limit what the code guarantees

* A definite failure of Publish or Withdraw does not always mean that the batch had no
  effect: another client can bring the old state back before the reconciliation read.
  Exactly when this can happen is known before the call. On arbitrary clocks it can happen
  to a version that publishing the same draft again can restore
  (`ArticleClocks.HidesExactly`); on clocks that never go back, only to a Publish of a
  withdrawn version, or a Withdraw of a published one, that reads the very time at which the
  version was published and last updated (`ArticleClocks.HidesExactlyOnSteadyClocks`). Every
  error other than an unspecified driver error is right (`ArticleHiding.NamedErrorHadNoEffect`),
  and CreateDraft and SaveDraft are not affected (`ArticleOutcomes.SavesAnswerTruthfully`),
  because each uploads a new body.
* ErrCommitUnknown is answered only after a failed read, or when somebody else wrote the article
  or one of its slugs during the call (`ArticleReconcile.UnknownNeedsTrouble`). Without either the
  answer is the truth about the batch, with one exception: an update in place that would change
  nothing is answered with success although its batch had no effect, since the stored article
  is the desired one (`ArticleReconcile.UncertainIsReconciled`).
* A cached page may be out of date when a change was not notified, but it is always less than the
  TTL old (`CacheVisits.HitIsYoung`).
* listCompat does not report every pair of rows that disagree about an article. On a page without an
  error each article is shown in the state of all its rows at that place; a row with another
  creation time goes unnoticed only if it lies behind the shown one (`Listing.ListCompat`).
* A cache fill is compared with the current generation modulo 2^64. Entries stay fresh exactly
  if no fill that is stored is a positive multiple of 2^64 invalidations behind, one of
  them covering its key (`CacheModel.RunSoundExactly`, `CacheModel.FreshExactly`), which fewer than 2^64
  invalidations rule out; `CacheModel.WrappingRunServesStale` is a run from the empty cache
  that serves a stale page.
* That a limiter forgets idle keys cannot be noticed exactly if it has no room besides its
  pinned key, or if it does not fail closed when full and its idle expiry is at least capacity
  times refill interval (`RateSweeps.SweepUnobservableExactly`). So the contact form's limiter
  never shows it, the login's limiter of addresses does for more than 20 attempts, and its
  limiter of usernames does (`RateSweeps.LimitersInUse`).
* A cursor of listCurrent may lead to nothing. Some service makes that happen exactly if the
  current rows that the filter selects fill one page and no misplaced row comes before the last
  of them (`CurrentListing.EmptyRestExactly`); with any other number of them a cursor means that
  something is left (`CurrentListing.CursorMeansMore`). If the service returns no continuation at
  the end, it happens exactly if they fill one page and the last row is not current
  (`CurrentListing.NowhereHonestly`), so never on a migrated table
  (`CurrentListing.MigratedCursorMeansMore`). Traversals stay right in any case
  (`CurrentListing.CurrentVisitsOnce`).
* Alone and without failures a migration that scans succeeds exactly if the marker is not one that
  this version does not know and no legacy row meets another state at its current key
  (`Migration.Converge`); a run that was stopped before changes nothing about that
  (`Migration.StopAndResume`).
* The contact listing fails when the service returns a continuation with a first page that
  holds no contacts (`ContactPages.FailsExactly`).
* With `failClosedFull` the login limiter refuses every key while the map is full, also a key
  that has a bucket (`RateLimit.AllowedExactly`).

## Model

| member | source | states |
|---|---|---|
| `ArticleModel.NormalizeSlug` | internal/articles/model.go:85-116 | the loop computes the normal form: lower-case words of letters and digits joined by single hyphens, 3 to 100 characters, or a validation error |
| `ArticleModel.NormalizedIsSlug` | internal/articles/model.go:85-116 | every accepted slug is in normal form |
| `ArticleModel.NormalizedFixedPoints` | internal/articles/model.go:118-185 | the check that a stored slug normalises to itself accepts exactly the normal forms |
| `ArticleModel.NormalizeIdempotent` | internal/articles/model.go:85-116 | normalising twice is normalising once |
| `ArticleModel.NextPublishedMetadata` | internal/articles/service.go:279-297 | the loops with the seen map build the next publication's metadata and history |
| `ArticleModel.NextHistoryValid` | internal/articles/service.go:279-297 | the next history has no repeats, keeps all aliases, gains a replaced canonical slug and never contains the new one |
| `ArticleModel.NextMetadataAccepted` | internal/articles/service.go:144-174 | what Publish builds passes validation and the permanence check whenever its own test of the draft slug passed |
| `ArticleModel.PublishValid` | internal/articles/service.go:144-174 | Publish's article is valid exactly when its clock reading is not behind the stored times |
| `ArticleModel.SlugRecordMap` | internal/storage/azure/articles.go:513-523 | the loop reserves the draft slug and all public slugs, targeting the canonical slug exactly for the public ones |
| `ArticleModel.PermanenceKeepsPublicSlugs` | internal/storage/azure/articles.go:530-552 | an update that passes the permanence check keeps every public slug public |
| `ArticleModel.PermanenceExactly` | internal/storage/azure/articles.go:530-552 | an update is refused exactly for an alias as its slug, a publication that goes away or takes an alias, and a public slug that is dropped, with which error each |
| `ArticleModel.SavesPass` | internal/storage/azure/articles.go:530-552 | a save is refused exactly if its slug is an alias, and the publication is left as it is |
| `Texts.TrimSpaceIs` | internal/articles/service.go:249-261 | trimming removes exactly the white space around a text |
| `Texts.NormalizedExactly` | internal/articles/model.go:85-116 | on any input: the normal form is the lower-cased words between hyphens and white space, joined by single hyphens, and a validation error exactly for another character or a length outside 3 to 100 |
| `DraftInput.NormalizeDraftInput` | internal/articles/service.go:249-265 | the slug's normal form, the trimmed texts and the compiled body, or an error exactly if the slug or the document is refused |
| `DraftInput.NewDraft` | internal/articles/service.go:66-86 | a new draft with these texts, both dates the time of the call and no publication, refused exactly if it is not valid |
| `ArticleTable.UpdateKeepsIndex` | internal/storage/azure/articles.go:319-400 | an accepted update batch leaves the slug rows exactly the records of all stored articles, though unchanged slug rows carry no ETag |
| `ArticleTable.CreateKeepsIndex` | internal/storage/azure/articles.go:30-65 | so does an accepted batch of Create |
| `ArticleTable.MoveKeepsIndex` | internal/storage/azure/migration.go:243-256 | and a migrated row |
| `ArticleSteps.ReadOnlyKept` | internal/storage/azure/articles.go:402-498 | the reads of every phase, with any answer or failure, keep the invariant of the protocol |
| `ArticleCommits.UploadKept` | internal/storage/azure/bodies.go:35-69 | so does an upload, whether it took effect or not and whatever is answered |
| `ArticleCommits.DeleteKept` | internal/articles/service.go:92-140 | so does deleting a body that was given up or replaced |
| `ArticleCommits.MigrateKept` | internal/storage/azure/migration.go:243-256 | so does migrating a row under running operations |
| `ArticleCommits.CommittingPrior` | internal/storage/azure/articles.go:319-400 | a batch that takes effect replaces exactly the version that the service read |
| `ArticleCommits.CommitKept` | internal/storage/azure/articles.go:376-400 | a batch, applied or refused or uncertain, keeps the invariant |
| `ArticleCommits.StepKept` | internal/articles/service.go:66-194 | every step of every operation keeps the invariant |
| `ArticleTheorems.BodiesNeverDangle` | internal/articles/service.go:66-194 | over every run, each body a stored article names is in the body store |
| `ArticleTheorems.SlugIndexAlwaysExact` | internal/storage/azure/articles.go:319-400 | over every run, the slug rows are exactly the records of the stored articles, and no two articles share a slug |
| `ArticleTheorems.PublishedSlugsArePermanent` | internal/storage/azure/articles.go:530-552 | once public, a slug stays the same article's at every later moment, targets its current canonical slug, and no other article has it |
| `ArticleTheorems.LegacyRowsOnlyShrink` | internal/storage/azure/articles.go:333-352 | no operation ever adds a row in the old layout |
| `ArticleOutcomes.PublishGoesAhead` | internal/articles/service.go:144-174 | the metadata Publish builds never fails validation: a stored draft is refused only without a draft body, for a slug that is already an alias, or on a clock behind the article's dates |
| `ArticleOutcomes.WithdrawGoesAhead` | internal/articles/service.go:176-194 | Withdraw reaches the repository exactly for a published article on a clock not behind its dates |
| `ArticleOutcomes.SaveGoesAhead` | internal/articles/service.go:102-142 | a save reaches the repository exactly when the new texts are valid and the clock is not behind the article's dates |
| `ArticleOutcomes.CreateGoesAhead` | internal/storage/azure/articles.go:30-42 | a creation reaches the repository's read exactly for an ID that fits into a row key and a time since 1970 |
| `ArticleOutcomes.UpdateGoesAhead` | internal/storage/azure/articles.go:319-375 | an update of a stored article is refused by the repository's read exactly for a missing article, another ETag, or the permanence check; then exactly the slugs of both versions are looked at |
| `ArticleOutcomes.NothingReads` | internal/articles/service.go:144-180 | Publish and Withdraw report a missing article and a failed read |
| `ArticleOutcomes.SaveReads` | internal/articles/service.go:102-114 | before its upload a save is refused for a failed read, texts that do not normalise, or an alias as its slug, in this order |
| `ArticleOutcomes.StepCarries` | internal/storage/azure/articles.go:402-498 | a client's own step leaves its request and desired article alone; only its commit marks its batch as applied |
| `ArticleOutcomes.AppliedMeansCommitted` | internal/storage/azure/articles.go:376-400 | the history flag of a client is set exactly when the run contains its effective commit |
| `ArticleOutcomes.SuccessWasStored` | internal/storage/azure/articles.go:402-498 | after success the answered article and all its slug records were in the table while the call ran |
| `ArticleOutcomes.SavesAnswerTruthfully` | internal/storage/azure/articles.go:402-498 | CreateDraft and SaveDraft: unless the answer is ErrCommitUnknown, the batch took effect if and only if the answer is success |
| `ArticleHiding.WrongFailureIsRestored` | internal/storage/azure/articles.go:456-474 | over every run: a definite failure is wrong only as an unspecified driver error, answered to a Publish or Withdraw of a version that others can restore, and on steady clocks only if that version was published and updated at the very time of the call |
| `ArticleHiding.NamedErrorHadNoEffect` | internal/storage/azure/articles.go:402-498 | any other error than that and ErrCommitUnknown means that the batch had no effect, whatever the clocks |
| `ArticleOutcomes.CompatWritersAreRelied` | internal/storage/azure/articles.go:333-352 | compatibility-mode operations do to article rows what the migration relies on |
| `ArticleOutcomes.NoLostUpdate` | internal/storage/azure/articles.go:319-400 | two updates that took effect never replaced the same version |
| `ArticleReconcile.UncertainIsReconciled` | internal/storage/azure/articles.go:402-498 | after a batch that was not refused, in every mode and for creation and update: if the reads after it succeed and nobody else writes the article or its slugs, the answer is success exactly if the batch took effect or would change nothing, else the driver's error, and never ErrCommitUnknown |
| `ArticleReconcile.UnknownNeedsTrouble` | internal/storage/azure/articles.go:402-498 | over every run: ErrCommitUnknown is answered only after a failed read or an interfering write |
| `ArticleReconcile.UncertainGetsAnswer` | internal/storage/azure/articles.go:402-498 | and such reads exist and come to an end with that answer |
| `ArticleEndings.RefusedIsNamed` | internal/storage/azure/articles.go:376-400 | over every run: which error each refusal of the batch is answered with; a conflict means a taken slug, except that a creation which then finds its ID reports a conflict |
| `ArticleEndings.UploadFails` | internal/storage/azure/bodies.go:51-69 | the same for a refused upload, and for one that the check afterwards does not find or cannot look for |
| `ArticleEndings.SuccessHasSeenTheSlugs` | internal/storage/azure/articles.go:476-498 | over every run: before a success the client has found every slug of the new version reserved as it needs it, and every slug that the new version gave up free |
| `ArticleEndings.BodiesAreCleanedUp` | internal/articles/service.go:88-141 | over every run: a success deletes the draft body that a save replaced unless it is published, a definite failure the uploaded body unless it was lost, an unknown outcome nothing; each deletion is of that body alone and happens once |
| `ArticleWrites.UpdateStores` | internal/articles/service.go:102-194 | over every run: the row that an effective SaveDraft, Publish or Withdraw stores, field by field, from the row that the service read, the texts it was given, the body it uploaded and the clock it read |
| `ArticleWrites.CreateStores` | internal/articles/service.go:66-100 | an effective CreateDraft adds the new article with the body it uploaded, under an ID that had no row |
| `ArticleWrites.PublishedIs` | internal/articles/service.go:144-174 | a publication has slug, title, summary, area, cover and body of the draft, the old aliases in order with a replaced slug at the end, and the time of the call as its date |
| `ArticleClocks.HidesExactly` | internal/storage/azure/articles.go:456-474 | from any consistent table that holds the row, some run misleads a call that replaces it at this time if and only if a query finds the row, the clock is in order, and publishing the same draft again can bring the version back |
| `ArticleClocks.HidesExactlyOnSteadyClocks` | internal/articles/service.go:144-194 | on clocks that never go back: if and only if the call reads the time of the last update and republishing at that time gives the stored version again |
| `MemoryArticles.Repository.Create` | internal/storage/memory/articles.go:26-48 | refuses with validation, conflict or slug-taken in that order and otherwise stores the article under the next ETag, keeping slugs disjoint and the draft index right |
| `MemoryArticles.Repository.Update` | internal/storage/memory/articles.go:130-162 | refuses with validation, not-found, conflict, permanence or slug-taken in that order and otherwise replaces the article under the next ETag |
| `MemoryArticles.Repository.SlugOwnedByOther` | internal/storage/memory/articles.go:193-203 | finds exactly whether another article reserves the slug |
| `MemoryArticles.Repository.AnyTaken` | internal/storage/memory/articles.go:205-212 | whether any slug of the article belongs to another one |
| `MemoryArticles.Repository.Get` | internal/storage/memory/articles.go:50-61 | the stored article with its ETag, or not-found |
| `MemoryArticles.Repository.List` | internal/storage/memory/articles.go:93-128 | in any map order: the first articles with the status beyond the cursor, with their ETags, and a cursor if and only if something is left |
| `MemoryArticles.Repository.GetBySlug` | internal/storage/memory/articles.go:63-74 | returns the article with this draft slug, if any |
| `MemoryArticles.Repository.GetPublishedBySlug` | internal/storage/memory/articles.go:76-91 | returns the only article with this public slug, in any search order |
| `Refinement.StopsIffTaken` | internal/storage/azure/articles.go:354-375 | a slug row stops a service update exactly when another article owns the slug |
| `Refinement.FreeIffNotTaken` | internal/storage/azure/articles.go:43-50 | the slug rows that Create adds are all free exactly when no other article owns a slug of the new one |
| `Refinement.ServiceMadeProduced` | internal/articles/service.go:102-194 | what SaveDraft, Publish and Withdraw make of a stored article keeps its ID, its creation time and, unless it republishes, its publication |
| `Refinement.PublishedAgrees` | internal/storage/azure/articles.go:108-124 | both find the same article under a public slug, and nothing elsewhere |
| `SoloRuns.WriteAnswers` | internal/storage/azure/articles.go:319-400 | every failure-free run of a Create or Update alone, whatever the order of its slug reads, ends with the answer of the memory repository, and its batch took effect exactly if that is a success |
| `SoloRuns.StepSolo` | internal/storage/azure/articles.go:402-441 | each step of such a run keeps what decides that answer |
| `SoloRuns.Finishes` | internal/storage/azure/articles.go:30-65 | from every moment of such a run there is a way to its end |
| `RepositoryTraces.WriteSimulates` | internal/storage/azure/articles.go:319-400 | a Create or Update on related repositories gives equal answers, all errors included, and leaves them related under the next ETags |
| `RepositoryTraces.CompatListSimulates` | internal/storage/azure/articles.go:229-306 | List in compatibility mode returns the page of the memory repository, with its cursor and corresponding ETags |
| `RepositoryTraces.CurrentListSimulates` | internal/storage/azure/articles.go:156-219 | List on a migrated table returns the same page, and the same cursor whenever there is one |
| `RepositoryTraces.TurnSimulates` | internal/storage/memory/articles.go:26-228 | one call of any kind: equal answers, and what is stored stays related |
| `RepositoryTraces.EmptyRelated` | internal/storage/memory/articles.go:22-24 | two empty repositories are related |
| `RepositoryTraces.SimulatesMemory` | internal/storage/memory/articles.go:26-228 | over every sequence of Create, Update, Get, GetPublishedBySlug and List calls both repositories give equal answers, not-found and validation included, up to the names of their ETags |
| `RepositoryTraces.WriteIsAnswered` | internal/storage/azure/articles.go:319-400 | and every such write has an answer |
| `RowKeys.ArticleRowKey` | internal/storage/azure/schema.go:212-222 | the loop builds the key, or refuses unsafe IDs and times before 1970 |
| `RowKeys.ArticleKeyReads` | internal/storage/azure/schema.go:212-222 | a key reads back: 20 digits of 2^64 - 1 less the nanoseconds, a colon, the complemented bytes of the ID in hexadecimal, a z |
| `RowKeys.ContactKeyReads` | internal/storage/azure/schema.go:294-300 | the same time, a colon and the ID |
| `RowKeys.PaddedOrder` | internal/storage/azure/schema.go:221-221 | zero-padded decimals sort like numbers |
| `RowKeys.TieOrder` | internal/storage/azure/schema.go:217-221 | complemented hexadecimal bytes ended by z sort IDs in reverse |
| `RowKeys.ArticleKeyOrder` | internal/storage/azure/articles.go:308-313 | row keys sort before each other exactly as listings do: newer first, greater ID first |
| `RowKeys.ArticleKeyInjective` | internal/storage/azure/schema.go:212-222 | two articles share a key only if ID and creation time are equal |
| `RowKeys.ContactKeyOrder` | internal/storage/azure/schema.go:294-300 | contact keys sort newest first, then by ascending ID |
| `RowKeys.KindsDisjoint` | internal/storage/azure/schema.go:212-250 | current, legacy, slug and marker keys never coincide |
| `Paging.BoundedLimit` | internal/storage/azure/cursor.go:7-18 | negative limits are refused, 0 means 25, more than 100 means 100 |
| `Paging.TopUnique` | internal/storage/memory/articles.go:93-128 | the first n items in listing order are determined by the set |
| `Paging.SortItems` | internal/storage/memory/articles.go:109-114 | sorting in place gives the same items in listing order |
| `Paging.ListInMemory` | internal/storage/memory/articles.go:93-128 | copy, sort, start after the cursor, cut: exactly the page, with a cursor if and only if something is left |
| `Paging.PageCovers` | internal/storage/memory/articles.go:214-228 | a page beyond a cursor lists exactly what lies between that cursor and the next |
| `Paging.VisitedInOrder` | internal/storage/azure/articles.go:156-219 | following cursors visits nothing twice, and pages follow each other in order, whatever others change in between |
| `Paging.StableVisitedOnce` | internal/storage/azure/articles.go:156-219 | whatever is stored throughout the traversal is visited exactly once |
| `Paging.KeysetVisitsOnce` | internal/storage/memory/contacts.go:57-101 | a client that follows cursors to the end sees what is stored the whole time exactly once, and nothing twice, however others change the set between calls |
| `Listing.PreferredAgain` | internal/storage/azure/articles.go:266-285 | the second row of an article replaces the legacy row by the current one and changes nothing else |
| `Listing.EvictedStaysOut` | internal/storage/azure/articles.go:286-296 | a row of an article that was cut off is cut off again |
| `Listing.Consider` | internal/storage/azure/articles.go:246-296 | one turn of the scan keeps the first n articles seen so far, or reports rows that conflict |
| `Listing.ListCompat` | internal/storage/azure/articles.go:229-306 | for any row order and page split of a consistent table: the first articles beyond the cursor, each once and current rows preferred, with a cursor if and only if something is left; for any table without an error no row is misplaced, and each article is shown in the state of all its rows at its place |
| `Listing.CompatListsLikeMemory` | internal/storage/azure/articles.go:229-306 | that page is the one the memory repository returns for the same articles |
| `CurrentListing.TakePage` | internal/storage/azure/articles.go:179-204 | a physical page adds its current rows, skips legacy ones and fails on a misplaced one |
| `CurrentListing.ListCurrent` | internal/storage/azure/articles.go:156-219 | whatever the service returns per call: the first current rows in order; an error exactly if a call made no progress or brought a misplaced row; a cursor exactly if the last call returned a continuation |
| `CurrentListing.EmptyRestExactly` | internal/storage/azure/articles.go:193-213 | some service makes a cursor lead to nothing exactly if the current rows number one page and no misplaced row comes before the last of them |
| `CurrentListing.CursorMeansMore` | internal/storage/azure/articles.go:206-213 | whatever the service does, with any other number of current rows there is a cursor if and only if something is left |
| `CurrentListing.NowhereHonestly` | internal/storage/azure/articles.go:206-213 | when the service returns no continuation at the end, a cursor leads to nothing exactly if the current rows number one page and the last row is not current |
| `CurrentListing.MigratedCursorMeansMore` | internal/storage/azure/articles.go:156-219 | so on a migrated table with such a service there is a cursor if and only if something is left |
| `CurrentListing.CursorWithNothingLeft` | internal/storage/azure/articles.go:206-213 | both ways in which that happens: after the very last row, and before a legacy row |
| `CurrentListing.FilterSelectsBeyond` | internal/storage/azure/articles.go:162-168 | the row-key filter selects exactly the current articles beyond the cursor, in listing order |
| `CurrentListing.CurrentVisitsOnce` | internal/storage/azure/articles.go:156-219 | following its cursors to the end, spurious ones included, visits what is stored the whole time exactly once and nothing twice, however others change the table |
| `Migration.MoveSameView` | internal/storage/azure/migration.go:243-256 | the batch that moves a row shows every reader the same articles and leaves an equal current row |
| `Migration.MigrateRow` | internal/storage/azure/migration.go:243-256 | with any failure: what readers find is kept, and success means the legacy row is gone; alone, for any pattern of failures, exactly which of them it overcomes; if the reads after a failed batch succeed, success is reported exactly if the row has moved |
| `Migration.Reconcile` | internal/storage/azure/migration.go:258-291 | the reads after a failed batch reach the right verdict and finish a move left half done; alone, for any pattern of failures, the verdict is success exactly if the current key holds the same state and the legacy row is found gone or is removed for certain |
| `Migration.MergeableKept` | internal/storage/azure/migration.go:258-291 | alone, no migration creates or removes a state that stands in the way of a legacy row, wherever it stops |
| `Migration.Pass` | internal/storage/azure/migration.go:142-186 | a pass that succeeds leaves no legacy row, also with other writers, and alone counts exactly those it moved; alone and without failures it succeeds exactly if no legacy row meets another state at its current key |
| `Migration.PersistMarker` | internal/storage/azure/migration.go:215-241 | the marker is set only when no legacy row is left; when the outcome is uncertain and can be looked up, success is reported exactly if it is set; alone and without failures it is set exactly unless a foreign one is there |
| `Migration.Converge` | internal/storage/azure/migration.go:130-193 | it ends; at every stop all articles are there and legacy rows have only gone away; success means that the marker is set and, unless the run only trusted it, that no legacy row is left and, alone, that exactly the rows moved were counted; alone and without failures it succeeds if and only if it trusts the marker, or the marker is not foreign and no legacy row meets another state at its current key; a repair scans whatever the marker says |
| `Migration.StopAndResume` | internal/storage/azure/migration.go:130-193 | stopped wherever one driver makes it stop and run again with another that does not fail, it reaches the table of an uninterrupted run with a third, if and only if the table at the start can be migrated; at the stop the two rows of an article still agree |
| `CacheModel.EvictKeepsNewest` | internal/web/public/cache.go:122-128 | the eviction loop keeps the longest run of most recently used entries that fits |
| `CacheModel.InsertBounded` | internal/web/public/cache.go:113-129 | insert keeps both bounds, touches no other kept entry, and a value that fits survives its own eviction |
| `CacheModel.SameGeneration` | internal/web/public/cache.go:60-84 | equal generations mean no invalidation since the fill began, up to multiples of 2^64 |
| `CacheModel.StepSound` | internal/web/public/cache.go:50-135 | every section keeps map and list in bijection, the byte count, both bounds, and every entry filled after the last invalidation covering its key, exactly unless it stores a misjudged fill |
| `CacheModel.NeverStale` | internal/web/public/cache.go:50-111 | over every interleaving with fewer than 2^64 invalidations, a call that starts now gets a fill of its key that began after every invalidation covering it |
| `CacheModel.MisjudgedIsServed` | internal/web/public/cache.go:82-84 | a fill that is a positive multiple of 2^64 invalidations behind, one of them covering its key, is stored if it fits, and is what the cache then serves |
| `CacheModel.RunSoundExactly` | internal/web/public/cache.go:50-111 | over runs of any length, the entries are fresh throughout exactly if no step stores such a fill |
| `CacheModel.FreshExactly` | internal/web/public/cache.go:50-111 | then a call that starts now gets a fresh fill, except exactly if it joins a fill that it misjudges |
| `CacheModel.WrappingRunServesStale` | internal/web/public/cache.go:82-84 | a run from the empty cache with 2^64 invalidations that serves a stale value |
| `CacheVisits.HitIsYoung` | internal/web/public/cache.go:50-59 | over every run: a visit is a hit exactly if its key was stored less than the TTL ago and not removed since, and it is given the value stored last |
| `CacheVisits.OldIsFilledAgain` | internal/web/public/cache.go:53-71 | a key stored at least the TTL ago is filled again, or a running fill of it is waited for |
| `CacheVisits.StoredIsServed` | internal/web/public/cache.go:73-88 | a page that was stored is served to the visits after it until the TTL is over, unless its key is invalidated or another fill succeeds |
| `CacheVisits.OneFillAtATime` | internal/web/public/cache.go:60-71 | a visit during a running fill of its key and generation waits for that fill and begins no other |
| `CacheVisits.ListedByUse` | internal/web/public/cache.go:50-59 | the recency list is in order of last use |
| `HtmlCache.Unlink` | internal/web/public/cache.go:131-135 | removing a list element leaves the others in order |
| `HtmlCache.Cache.RemoveEntry` | internal/web/public/cache.go:131-135 | takes the removal step of the model in place |
| `HtmlCache.Cache.InsertEntry` | internal/web/public/cache.go:113-129 | takes the insertion step, eviction loop included |
| `HtmlCache.Cache.EvictOver` | internal/web/public/cache.go:122-128 | the eviction loop in place takes the model's eviction |
| `HtmlCache.Cache.Enter` | internal/web/public/cache.go:50-71 | takes the first section of GetOrFill: hit, join or lead |
| `HtmlCache.Cache.Leave` | internal/web/public/cache.go:73-88 | takes the second section: publish the result, store it if it is still current |
| `HtmlCache.Cache.InvalidateKeys` | internal/web/public/cache.go:91-100 | one new generation and exactly the named entries removed |
| `HtmlCache.Cache.InvalidatePrefix` | internal/web/public/cache.go:102-111 | one new generation and exactly the entries with the prefix removed, in any map order |
| `PublicSite.SavingIsInvisible` | internal/articles/service.go:118-141 | saving a draft changes nothing a visitor can see |
| `PublicSite.FootprintComplete` | internal/web/public/articles.go:341-353 | when a change alters what a page is rendered from, the notification covers that page's key; changes without notification alter nothing |
| `PublicSite.PublicArticleChanged` | internal/web/public/articles.go:341-353 | the loops invalidate exactly those keys, in order, on the cache in place |
| `PublicSite.LatestCards` | internal/web/public/articles.go:357-384 | the paging loop returns the first cards of the area in listing order |
| `PublicSite.FollowedInOrder` | internal/web/public/articles.go:357-384 | the pages that the loop reads are in listing order, however others change the articles between the reads |
| `PublicSite.LastingCardShown` | internal/web/public/articles.go:357-384 | an article that stays listed as it is during those reads is among the cards, unless enough cards come before it |
| `PublicSite.ReadsUnique` | internal/web/public/renderer.go:223-250 | a page's content is determined by what it is read from |
| `PublicSite.NoticeExactly` | internal/web/public/articles.go:341-353 | a notification covers the home page, the sitemap, every index page, the old and the new area and the detail pages of all old and new slugs, and nothing else |
| `VisitorView.ListsShow` | internal/articles/service.go:226-240 | the lists consist of the published articles, an area's list of those in the area, each with the published slug, title, summary, area and cover, the last publication as its date and no draft body |
| `VisitorView.PagesShow` | internal/web/public/renderer.go:223-250 | how much of the list a page shows: the first three, the next six, or all |
| `VisitorView.DetailShows` | internal/articles/service.go:211-224 | the detail page of a slug exists exactly if a published article has it, and shows that article field by field |
| `VisitorView.AliasLeadsOn` | internal/articles/service.go:211-224 | an alias finds the article as it is published now |
| `VisitorView.PublishIsSeen` | internal/articles/service.go:144-224 | over every run: after an effective Publish the detail page of the draft's slug shows the texts and the body that were last saved |
| `PublicSite.KeyOfInjective` | internal/web/public/articles.go:22-28 | two pages never share a cache key |
| `SiteRuns.StepKept` | internal/web/public/cache.go:50-111 | visits, fills, changes and notifications keep the joint invariant |
| `SiteRuns.ServedPageIsCurrent` | internal/web/public/articles.go:341-353 | over every interleaving, a cached page is what an uncached render shows now once the changes that altered it have been notified |
| `SiteRuns.JoinedFillIsCurrent` | internal/web/public/cache.go:62-70 | a visit that waits for a running fill gets one that nothing relevant has changed since |
| `SiteRuns.FewNotificationsFine` | internal/web/public/cache.go:60-84 | fewer than 2^64 notifications are enough for both |
| `ArticleSite.CommitActs` | internal/storage/azure/articles.go:376-400 | a batch that takes effect makes exactly the change of its operation to the stored articles |
| `ArticleSite.ProtocolActs` | internal/articles/service.go:66-194 | every run of the protocol acts on the site by a sequence of changes that `SiteRuns` allows, one for each effective batch |
| `Compiler.WrapText` | internal/articles/compiler.go:156-205 | the marks loop accepts exactly distinct, well-formed marks within the link limit and nests them in order |
| `Compiler.CompileNode` | internal/articles/compiler.go:91-209 | a node is accepted exactly when it is well formed in its position and depth, node and link limits hold; then HTML, counters and plain text are as specified |
| `Compiler.CompileChildren` | internal/articles/compiler.go:96-110 | the same for a list of children |
| `Compiler.CompileDocument` | internal/articles/compiler.go:45-77 | a document is accepted if and only if its tree is well formed with at most 32 levels, 5000 nodes and 256 links, its text is not blank and neither text exceeds 512 KiB; its plain text is that of `PlainText` |
| `Schema.SchemaExactly` | internal/articles/compiler.go:111-209 | the checks by position accept exactly the trees of a grammar: which nodes stand inside which, and what each carries |
| `PlainText.BlockParts` | internal/articles/compiler.go:121-159 | the plain text of a node is the texts of its innermost blocks in order, each followed by its own number of line breaks |
| `PlainText.PlainTextIs` | internal/articles/compiler.go:61-76 | the plain text of a document is these texts and line breaks without the white space around them; at least two line breaks separate two blocks, and without them it is the document's text |
| `PlainText.TwoParagraphs` | internal/articles/compiler.go:121-130 | two paragraphs are separated by exactly one empty line |
| `RoundTrip.LexSpell` | internal/articles/compiler.go:91-209 | the emitted text splits back into the tags and characters it was made of |
| `RoundTrip.HtmlReadsBack` | internal/articles/compiler.go:91-209 | reading the HTML of a well-formed document gives the document back, up to joining adjacent unmarked texts and canonical links |
| `RoundTrip.HtmlTextAndAnchors` | internal/articles/compiler.go:91-209 | the unescaped text is the document's text in order, and anchors never nest |
| `RateLimit.BucketSet.Sweep` | internal/web/adminapi/rate_limit.go:77-81 | the loop removes exactly the idle keys other than the pinned one |
| `RateLimit.BucketSet.EvictOldest` | internal/web/adminapi/rate_limit.go:110-126 | evicts a least recently seen key, never the pinned one, if there is one |
| `RateLimit.BucketSet.AllowKey` | internal/web/adminapi/rate_limit.go:76-108 | one call takes the step of the specification in place |
| `RateLimit.AllowBounded` | internal/web/public/contact_security.go:149-179 | the map never exceeds its bound and the pinned key is never removed |
| `RateSweeps.SweepUnobservableExactly` | internal/web/adminapi/rate_limit.go:76-108 | whether any sequence of calls to a new limiter tells that it forgets idle keys: exactly if it has room besides the pinned key and either fails closed when full or forgets a key before its bucket would be full |
| `RateSweeps.PatientSweepUnobservable` | internal/web/adminapi/rate_limit.go:77-81 | a patient limiter that does not fail closed gives the same answers as one that never forgets, and no others |
| `RateSweeps.NeverFullUnobservable` | internal/web/adminapi/rate_limit.go:83-85 | so does one that fails closed, as long as the map that forgets nothing is never full |
| `RateSweeps.FullFailClosedObservable` | internal/web/adminapi/rate_limit.go:83-85 | otherwise it shows: filled with new keys it allows another one after an idle time |
| `RateSweeps.ImpatienceObservable` | internal/web/adminapi/rate_limit.go:77-81 | an impatient limiter shows it by allowing two full bursts of one key an idle time apart |
| `RateSweeps.LimitersInUse` | internal/web/public/contact.go:25-28 | the same decided for the limits in use, those of the contact form and of the login |
| `RateLimit.AllowedExactly` | internal/web/adminapi/rate_limit.go:76-108 | which calls are allowed, in terms of the map before: none while a limiter that fails closed is full; else a known key with a whole token, or a new key for which there is room or somebody to evict |
| `RateLimit.AllowLevel` | internal/web/adminapi/rate_limit.go:76-108 | a call is allowed exactly when it is not refused for lack of room and its key has a whole token; it takes one token of its own key and nothing from others |
| `RateLimit.RateBound` | internal/web/adminapi/rate_limit.go:76-108 | between any two moments a key that is not evicted is allowed at most capacity plus elapsed time over refill interval calls |
| `Contacts.Repository.List` | internal/storage/memory/contacts.go:57-101 | the page of all contacts beyond the cursor, of which the matching ones are returned, the cursor being its last contact |
| `Contacts.ListsExactly` | internal/storage/azure/contacts.go:232-243 | of the scanned contacts exactly those in the state, due for review, scheduled for deletion and found by the text, as far as each is asked for, in order |
| `Contacts.Repository.Delete` | internal/storage/memory/contacts.go:124-139 | deletes exactly this contact if the ETag matches, or reports not-found or conflict |
| `Contacts.PageStep` | internal/contacts/service.go:194-207 | deleting the due contacts of a page leaves exactly the undue ones up to the next cursor, which lies further on |
| `Contacts.PurgeDue` | internal/contacts/service.go:188-216 | it ends, deletes precisely the contacts whose deletion is scheduled for the cutoff or earlier, returns their number and leaves all others |
| `Contacts.Scan` | internal/contacts/service.go:218-236 | visits every contact exactly once |
| `Contacts.Dashboard` | internal/contacts/service.go:91-114 | every count is the number of contacts in that state, scheduled for deletion, or due for review |
| `ContactPages.List` | internal/storage/azure/contacts.go:88-146 | for any cursor and whatever the service returns: the matching ones of the scanned contacts beyond the boundary, a cursor exactly for a continuation, and an error exactly on a repeated continuation or one without a contact to start from |
| `ContactPages.ScansExactly` | internal/storage/azure/contacts.go:116-138 | for any cursor, the contacts scanned of a page are exactly those beyond its boundary, in order |
| `ContactPages.FailsExactly` | internal/storage/azure/contacts.go:102-141 | with a cursor that List gave out, the error comes exactly on a repeated continuation or a first page that has one but no contacts |
| `ContactPages.ListSpans` | internal/storage/azure/contacts.go:88-146 | what is scanned lies exactly between the two cursors, and the new cursor is again one that List gives out |
| `ContactPages.LastingScannedOnce` | internal/storage/azure/contacts.go:88-146 | following the cursors to the end while others change contacts scans every lasting contact exactly once |
| `ContactPages.ScannedInOrder` | internal/storage/azure/contacts.go:88-146 | nothing is scanned twice, and later pages come after earlier ones |
| `ContactPages.LastingListedOnce` | internal/storage/azure/contacts.go:88-146 | a contact that stays as it is and matches the whole time is on exactly one page |

## Left out

- The Azure SDK drivers, retries, credentials and the classification of their errors: they appear only as steps that may fail before or after their effect.
- A batch that commits after the reconciliation read: excluded by the assumption that a mutation's outcome is settled when its call returns.
- The bound of 100 operations and the size bound of a batch: a batch that breaks them is refused like any other, with the validation error.
- Deleting a body reconciles an uncertain outcome, but the service ignores the answer, so the model keeps only the effect.
- RepositoryTraces.SimulatesMemory: creating an article whose ID is no safe storage segment, or whose time is before 1970 or after 2262, is left out, as only the Azure repository refuses it; so are updates that no service operation makes of the version with the expected ETag, and cursors that no listing gave out. The calls come one after another and no driver call fails; runs with failures and interleavings are what the protocol's theorems are about. Page numbers are not compared.
- Agreement of GetBySlug: the memory repository indexes draft slugs, the Azure repository all of them.
- Several reads of one fill are not listed one by one: a fill may read at any moments between its start and its end, and what it renders is fixed only if nothing it depends on changed meanwhile.
- Index pages are read with an exact next cursor, as the compatibility and memory listings give it; a spurious cursor of listCurrent would show as a link to an empty page.
- Publish or Withdraw ending in ErrCommitUnknown sends no notification; `SiteRuns` covers operations whose success is known, and only the TTL bounds staleness after the others (`CacheVisits.HitIsYoung`).
- Waiters of a fill that panics: a fill is taken to return.
- Flights are entries of a list addressed by number where the code has pointers, and the body store and the table of the protocol are values of the transition system rather than objects: aliasing is not modelled there.
- CurrentListing.ListCurrent, Listing.ListCompat and ContactPages.List: the table is taken to stay the same during one call; it may change between calls.
- Listing.ListCompat: the physical pages are given, so a continuation that does not advance, which the code refuses, is modelled for listCurrent and the migration only.
- The migration's count of scanned rows is not kept; its count of migrated rows is.
- The migration's scan of a pass is taken to end after some number of physical pages, chosen by the environment.
- ArticleRowKey: times after the year 2262, whose UnixNano is not defined, are outside its precondition.
- BucketSet: keys are taken to be non-empty, as the keyed digests that callers pass are; token arithmetic is on real numbers, so rounding of floating point is not covered.
- CompileDocument: starts from the decoded node tree; JSON decoding and the size of the raw document are left out, the sanitizer is taken to accept what the compiler emits, and safeHref is an arbitrary function.
- Contacts.Repository.List: what a search text finds is an arbitrary function of the contact; lower-casing and substring search are left out.
- Contact creation, update and the single-step transitions, sessions, the HTTP handlers, templates, SEO output and configuration: they would add only easy members.
- Entities of other types in the articles partition: the scans filter them out by their type before the modelled code sees them.
