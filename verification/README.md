# Verified models of the stateful core

This Dafny project models five stateful parts of the repository and proves what they promise over
whole runs.

* **The POS offline bundle.** `Packing` describes how stored objects are laid out in size-limited
  packs; `BundleTables` the routing tables; `OfflineBundle` the build itself, an object whose fields
  are `state.json`, the uploaded files and the visible manifests, and whose run may die between any
  two writes; `BundleReruns` runs the build more than once, after crashes and when it is already
  visible; `BundleClient` is what a till reads back; `Fnv` the FNV-1a hash that routes a diagram
  (draft-eastlake-fnv, section 2), as the builder and as the browser client compute it.
* **The crawl queue and its workers.** `CrawlQueue` holds the queue, its claim order and its
  operations; `Crawler` is the state machine of any number of workers that interleave at every queue
  operation, of rounds and of crashes; `CrawlWorker` makes the steps of a worker and the start of a
  round with the queue's operations; `CrawlTermination` bounds the claims and the steps;
  `CrawlCompletion` says when the loop drains the queue; `CrawlExamples` holds two crawls that the
  priority filter defeats.
* **The repository truth guard.** `LedgerText` is the ledger as text, `TruthGuard` the verifier over
  a commit graph, `LedgerCodec` an encoding of ledger entries that it can work with, `TruthHistory`
  what verification proves about history and how recording makes it succeed.
* **The catalog import.** `CatalogRows` and `LiveTable` are the records and the live table with its
  unique index on normalised keys; `CatalogImport` the batched upsert by natural key and the pruning;
  `DryRun` the in-memory store; `BundleFilter` the complete-only filter and the import after it.
* **The parse pass.** `ParsePass` claims and parses cached pages; `Backfill` stamps vehicle
  identities onto scraped rows.

Code that changes state is a class with methods proved against functions of the old state; the
functions' properties are lemmas. A crash is a budget of writes after which a run stops. Everything
that comes from outside (stored bytes, page links, robots rules, JSON, digests, the clock, the
outcome of a parse) is a parameter.

## What the code does not do

The models follow the code where it differs from what its documentation says or what one might
expect. Each of these is a lemma below.

* Rerunning a build whose manifest is already visible can break that manifest, because the JSON files
  are compressed again with a new timestamp. A rerun that dies leaves the visible manifests valid if
  and only if each JSON file it had writes for came out with the listed size and digest
  (`BundleReruns.Rerun`); for every catalogue with something to pack there are two runs that break it
  (`RerunBreaksVisible`). A build that is not visible never breaks a visible one.
* A diagram has an image exactly when the own `object_key` of one of its image rows is a page of some
  row of the bundle, or was packed by an earlier run (`ImagesServed`). A row that lists other pages is
  packed and cannot be found (`PublishPagedImage`).
* The completion loop is documented as "crawl, retry failures, repeat until done". With a priority
  filter, and no more pending pages than a claim scans, it stops after a round if and only if some
  page is still pending (`PriorityLoopStops`), even when pages of the priority set have failed
  (`FailedPageIsNotRetried`, a whole run).
* Not every round ends. A worker's empty claim and its recount can lead back to the same state, again
  and again, if and only if there is a priority filter and the claim misses an eligible pending row,
  which takes more than 50,000 pending rows (`SpinsExactly`, `SpinsForEver`). A round ends if and only
  if it can reach no such state (`RoundIsFinite`): always without a filter, and always with one while
  at most 50,000 rows are pending (`RoundEndsWithinScan`). For every number of links above that,
  `WideSiteSpins` is a run of a site whose start page has so many, in which the worker goes on for ever
  when the recount reads rows in the order they were inserted.
* Recording a change and then staging it back leaves a ledger-only edit, which the guard refuses
  (`StagedBackIsRefused`).
* The dry run keys records by their raw values, the live table by normalised ones. They report the
  same insertions exactly when no two records differ only in null, empty or zero key columns
  (`InsertedAgree`).
* `--batch-size` below zero together with a positive `--limit` claims every pending page, parses only
  the limit, and leaves the others PROCESSING (`ClaimsEnd`).

## Model

| member | source | states |
|---|---|---|
| Fnv.Fnv1a32 | data-pipeline/scripts/build_pos_offline_bundle.py:58-64 | the byte-by-byte loop computes the hash, always below 2^32 |
| Fnv.XorBits | data-pipeline/scripts/build_pos_offline_bundle.py:62 | each bit of the exclusive or is set exactly when the two bits differ |
| Fnv.ClientsAgree | apps/web/lib/pos/offline/format.ts:59-66 | the browser client's signed 32-bit arithmetic gives the builder's hash on every text |
| Fnv.ReferenceValues | data-pipeline/scripts/build_pos_offline_bundle.py:58-64 | the published FNV-1a values of the empty text and of "a" |
| Packing.EntriesTile | data-pipeline/scripts/build_pos_offline_bundle.py:344-350 | the entries of a pack cover its bytes without gap or overlap, and each selects exactly its object's bytes |
| Packing.FirstPack | data-pipeline/scripts/build_pos_offline_bundle.py:346-354 | the first pack is the keys taken until one would overflow it, and the rest is packed as from an empty pack |
| Packing.DrainSplit | data-pipeline/scripts/build_pos_offline_bundle.py:346-350 | every pack is non-empty, is closed only when the next object would exceed the target, and not before |
| Packing.DrainKeepsKeys | data-pipeline/scripts/build_pos_offline_bundle.py:338-354 | every key is packed exactly once, in order, in consecutively numbered packs |
| Packing.DrainKeepsBytes | data-pipeline/scripts/build_pos_offline_bundle.py:338-354 | the packs together hold exactly the bytes of the objects |
| Packing.PacksFit | data-pipeline/scripts/build_pos_offline_bundle.py:346-350 | a pack exceeds the target only when it is one object larger than the target |
| Packing.NeighboursExceedTarget | data-pipeline/scripts/build_pos_offline_bundle.py:346-350 | any two consecutive packs together exceed the target |
| Packing.PackCount | data-pipeline/scripts/build_pos_offline_bundle.py:338-354 | there are at most 2 * total / (target + 1) + 1 packs |
| Packing.GreedyIsOptimal | data-pipeline/scripts/build_pos_offline_bundle.py:338-354 | no division of the objects, in their order, into packs that fit uses fewer packs |
| Packing.ResumeFrom | data-pipeline/scripts/build_pos_offline_bundle.py:321-326 | packing what any number of recorded packs left over gives exactly the other packs of an uninterrupted run |
| Packing.CrashResumeEquivalence | data-pipeline/scripts/build_pos_offline_bundle.py:291-354 | after any sequence of crashing runs the recorded packs are a first part of an uninterrupted run's, and all of them once a run ends |
| Packing.EachKeyPackedOnce | data-pipeline/scripts/build_pos_offline_bundle.py:321-354 | a run on top of any recorded packs keeps them, packs no key twice, and packs every object of its catalogue when it ends |
| BundleTables.LocatedSlices | data-pipeline/scripts/build_pos_offline_bundle.py:321-336 | each located key's pack, offset and length select exactly its stored bytes, and every packed key is located |
| BundleTables.CutAllReads | data-pipeline/scripts/build_pos_offline_bundle.py:364-371 | the slices of a page list, one after another, are the stored pages |
| BundleTables.PartsOfLast | data-pipeline/scripts/build_pos_offline_bundle.py:367-372 | a diagram's route has the pages of its last row, and the filter flag of any of its rows |
| BundleTables.ShardOfLast | data-pipeline/scripts/build_pos_offline_bundle.py:364 | a vehicle's shard has the pages of its last row |
| BundleTables.ImagesKeepParts | data-pipeline/scripts/build_pos_offline_bundle.py:373-377 | entering images changes no part list and no flag |
| BundleTables.ImageRoute | data-pipeline/scripts/build_pos_offline_bundle.py:373-377 | a diagram has an image route exactly when an image row of it has its own key packed, and then that key's location |
| BundleTables.ImageOfLast | data-pipeline/scripts/build_pos_offline_bundle.py:374-377 | of several image rows of a diagram that are packed under their own key the last one decides |
| OfflineBundle.CollectKeys | data-pipeline/scripts/build_pos_offline_bundle.py:310-317 | the keys are the distinct pages, each at its first use |
| OfflineBundle.InMasterIs | data-pipeline/scripts/build_pos_offline_bundle.py:304-305 | the search rows of known vehicles are a filter, row by row and in order |
| OfflineBundle.BundleHolds | data-pipeline/scripts/build_pos_offline_bundle.py:304-308 | a bundle holds exactly the search rows of known vehicles, the part lists and the images within the limit |
| OfflineBundle.SumBytesIs | data-pipeline/scripts/build_pos_offline_bundle.py:395 | the total of a manifest is the sum of its file sizes |
| OfflineBundle.RouteParts | data-pipeline/scripts/build_pos_offline_bundle.py:367-372 | the bucket files split the part-list table by the hash of the id |
| OfflineBundle.RouteImages | data-pipeline/scripts/build_pos_offline_bundle.py:373-377 | and still do after the images are entered |
| OfflineBundle.VisibleStay | data-pipeline/scripts/build_pos_offline_bundle.py:328-398 | writing files of a build that is not visible leaves every visible manifest matching its files |
| OfflineBundle.RewritingKeepsVisible | data-pipeline/scripts/build_pos_offline_bundle.py:359-379 | writing the first k JSON files of a visible build again keeps the visible manifests valid if and only if each came out with the size and digest listed |
| BundleReruns.RunRepeatedly | data-pipeline/scripts/build_pos_offline_bundle.py:281-400 | running the build again and again with any budgets of writes: the recorded packs are a first part of one uninterrupted run's, and exactly those once a run has ended |
| BundleReruns.PackingKeepsVisible | data-pipeline/scripts/build_pos_offline_bundle.py:328-354 | the packing stage of a rerun leaves the visible manifests valid |
| BundleReruns.Rerun | data-pipeline/scripts/build_pos_offline_bundle.py:281-400 | one more run of a visible build, from the state before it: how many JSON files it writes, whether it ends, that the visible manifests are then valid, and that after a death they are if and only if those files came out as listed |
| BundleReruns.RerunPacksNothing | data-pipeline/scripts/build_pos_offline_bundle.py:321-326 | a rerun of a catalogue that was fully packed packs nothing |
| BundleReruns.RerunBreaksVisible | data-pipeline/scripts/build_pos_offline_bundle.py:359-365 | for every catalogue with something to pack, a run that ends and one that dies after which the visible manifest is wrong |
| OfflineBundle.RowsLocated | data-pipeline/scripts/build_pos_offline_bundle.py:364-371 | once packing ends no lookup of a vehicle, part-list or image page can miss |
| OfflineBundle.RecordKeepsStep | data-pipeline/scripts/build_pos_offline_bundle.py:328-335 | recording an uploaded pack keeps every recorded pack stored and located |
| OfflineBundle.RunsAgree | data-pipeline/scripts/build_pos_offline_bundle.py:291-354 | chained over runs that died anywhere, what `Build` leaves is a first part of one uninterrupted run's packs, and exactly those when a run ends |
| OfflineBundle.Builder.Flush | data-pipeline/scripts/build_pos_offline_bundle.py:328-336 | a pack is recorded only after its upload; dying in between leaves the state as it was |
| OfflineBundle.Builder.PackAll | data-pipeline/scripts/build_pos_offline_bundle.py:338-354 | the chunked fetch-and-flush loop records the packs of the plan with two writes each, or a first part of them if it dies |
| OfflineBundle.Builder.Resume | data-pipeline/scripts/build_pos_offline_bundle.py:291-326 | a run continues the recorded build of its release, or starts a new one, with the keys that no recorded pack holds |
| OfflineBundle.Builder.PublishFiles | data-pipeline/scripts/build_pos_offline_bundle.py:357-379 | the JSON files are written in order, as many as the run has writes for; once all are, every file is stored as listed |
| OfflineBundle.Builder.Build | data-pipeline/scripts/build_pos_offline_bundle.py:281-400 | at every crash point: recorded packs are stored, visible manifests match their files, nothing outside the current build is written, and exactly which files are; a run ends if and only if it has a write for everything, and then its manifest lists every file with its size and digest and their sum |
| BundleClient.PartsRoundTrip | apps/web/lib/pos/offline/catalog.ts:483-524 | a till that hashes the id itself reads back, for the last row of a diagram, all the pages the row lists, in order, or its own object if it lists none, with the filter flag of its rows |
| BundleClient.OtherBucketsMiss | apps/web/lib/pos/offline/format.ts:68-70 | no other route file mentions the diagram |
| BundleClient.ShardRoundTrip | apps/web/lib/pos/offline/catalog.ts:483-511 | a till reads back, for the last row of a vehicle, all the pages the row lists, in order, or its own object if it lists none |
| BundleClient.NothingElseAnswers | apps/web/lib/pos/offline/catalog.ts:483-524 | an id without a row reads back as nothing |
| BundleClient.ImageRoundTrip | apps/web/lib/pos/offline/catalog.ts:552-571 | an image lookup answers exactly when an image row of the diagram has its own key packed, with the stored bytes of such a row |
| BundleClient.LastImage | apps/web/lib/pos/offline/catalog.ts:552-571 | of several such image rows the last one is read back |
| BundleClient.ImagesServed | data-pipeline/scripts/build_pos_offline_bundle.py:304-377 | which diagrams have an image, from the rows of the catalogue: the own key of an image row within the limit is listed by some row of the bundle, or is the key of one that lists no pages, or was packed before |
| BundleClient.PublishPagedImage | data-pipeline/scripts/build_pos_offline_bundle.py:373-377 | a run that publishes an image under its page which no till can find |
| CrawlQueue.PendingSorted | data-pipeline/data_pipeline/amayama_catalog_auto.py:2277-2295 | the claim order lists every pending row once, sorted by level ascending (breadth-first), descending (deep-first), or vehicle pages first and then descending (hybrid), then by attempts and age |
| CrawlQueue.ClaimIsLeastEligible | data-pipeline/data_pipeline/amayama_catalog_auto.py:2298-2363 | a claim takes the eligible pending row that comes first by the level order of its mode, fewest attempts and lowest row number |
| CrawlQueue.ClaimFindsNothing | data-pipeline/data_pipeline/amayama_catalog_auto.py:2326-2363 | a claim finds nothing if and only if no pending row is eligible, without a filter or up to the scan limit |
| CrawlQueue.HybridPrefersVehicles | data-pipeline/data_pipeline/amayama_catalog_auto.py:2280-2293 | hybrid mode hands out another page only when no eligible vehicle page is pending |
| CrawlQueue.EmptyClaimEmptyRecount | data-pipeline/data_pipeline/priority_chassis.py:311-339 | after an empty claim over at most 50,000 pending rows the recount reports none, so the worker stops |
| CrawlQueue.FindCandidate | data-pipeline/data_pipeline/amayama_catalog_auto.py:2332-2360 | the scan in batches of 500 up to 50,000 finds the first eligible row in that range |
| CrawlQueue.QueueDb.Enqueue | data-pipeline/data_pipeline/amayama_catalog_auto.py:2247-2274 | the URL is queued afterwards, once; every existing row stays as it is, and a new one is PENDING without attempts and last among equals |
| CrawlQueue.QueueDb.ClaimNext | data-pipeline/data_pipeline/amayama_catalog_auto.py:2298-2391 | the row that comes first by the level order of the mode, attempts and age leaves the pending ones, PROCESSING with one more attempt, and no other row changes |
| CrawlQueue.QueueDb.MarkVisit | data-pipeline/data_pipeline/amayama_catalog_auto.py:2422-2460 | VISITED results if and only if the visit succeeded, PENDING if and only if it failed with attempts left; only this row changes, and only its status |
| CrawlQueue.QueueDb.RequeueFailed | data-pipeline/data_pipeline/amayama_catalog_auto.py:2463-2502 | no FAILED, PROCESSING or BLOCKED_CF row is left, no other row changes, and it makes no difference which rows were stale |
| CrawlQueue.QueueDb.PruneOutOfScope | data-pipeline/data_pipeline/amayama_catalog_auto.py:2729-2740 | exactly the in-scope rows survive, unchanged, and the others are counted |
| CrawlWorker.OpenQueue | data-pipeline/data_pipeline/amayama_catalog_auto.py:3235-3278 | prune, reclaim, requeue and seed leave the queue that the state machine starts a round with, which drops nothing when the queued pages are reachable ones |
| CrawlWorker.CollectLinks | data-pipeline/data_pipeline/amayama_catalog_auto.py:2903-2918 | the loop over the links of a page keeps exactly those in scope that its page kind may lead to; a refused one hides no other |
| CrawlWorker.TakeStep | data-pipeline/data_pipeline/amayama_catalog_auto.py:2817-2945 | the queue operations of each step of a worker do to the queue and to the worker what the state machine's step does |
| Crawler.ChildrenAre | data-pipeline/data_pipeline/amayama_catalog_auto.py:2903-2918 | what is queued of a page is exactly its links that are in scope and that its page kind may lead to |
| Crawler.AfterRoundIs | data-pipeline/data_pipeline/amayama_catalog_auto.py:3441-3485 | the decision after a round, from the rows: which of the four ways it goes, and exactly when |
| Crawler.LinksMove | data-pipeline/data_pipeline/amayama_catalog_auto.py:2903-2920 | every step keeps: the links of a VISITED page are rows, because they are enqueued before it is marked |
| Crawler.RobotsMove | data-pipeline/data_pipeline/amayama_catalog_auto.py:2852-2855 | every step keeps: only robots-refused pages are BLOCKED and only allowed ones VISITED |
| Crawler.VisitedStays | data-pipeline/data_pipeline/amayama_catalog_auto.py:2817-2945 | no step of a worker and no start of a round changes a VISITED row |
| Crawler.NothingPruned | data-pipeline/data_pipeline/amayama_catalog_auto.py:3235-3282 | a restart of a crawl with an in-scope start page prunes nothing, so attempts are never reset |
| Crawler.PagesMove | data-pipeline/data_pipeline/amayama_catalog_auto.py:2920-2924 | every step keeps the page count equal to the growth in VISITED rows, up to pages about to be counted |
| Crawler.InvariantStep | data-pipeline/data_pipeline/amayama_catalog_auto.py:2798-2947 | one step of any worker, any start of a round and any crash keep the whole invariant |
| Crawler.InvariantAlways | data-pipeline/data_pipeline/amayama_catalog_auto.py:2952-3011 | every run keeps it |
| Crawler.ExclusiveClaims | data-pipeline/data_pipeline/amayama_catalog_auto.py:2330-2378 | no two workers hold the same URL, and the PROCESSING rows are exactly the held URLs |
| Crawler.RoundEnd | data-pipeline/data_pipeline/amayama_catalog_auto.py:2817-2849 | a round that ends leaves no PROCESSING row and nothing to claim, and returns the number of newly VISITED rows |
| Crawler.NoStrandedWork | data-pipeline/data_pipeline/amayama_catalog_auto.py:2835-2849 | although workers leave one by one, a round that ends leaves no PENDING row, or no eligible one under a filter |
| Crawler.DrainedIsComplete | data-pipeline/data_pipeline/amayama_catalog_auto.py:3404-3488 | when the loop reports the queue drained, the rows are exactly the URLs reachable from the start page, each step a link on an allowed page that is in scope and that the page may lead to; the allowed ones are VISITED, the others BLOCKED |
| CrawlCompletion.UnfilteredRoundDrains | data-pipeline/data_pipeline/amayama_catalog_auto.py:3474-3479 | after a round without a filter the loop reports the queue drained if and only if no page is FAILED or challenged |
| CrawlCompletion.SmoothRoundCompletes | data-pipeline/data_pipeline/amayama_catalog_auto.py:3404-3488 | however the crawl went before, one round in which no request fails or is challenged completes it: the loop stops with every reachable page VISITED or BLOCKED |
| Crawler.PriorityLoopStops | data-pipeline/data_pipeline/amayama_catalog_auto.py:3441-3463 | with a priority filter the loop stops after a round if and only if some page is pending, up to the scan limit |
| CrawlExamples.FailedPageIsNotRetried | data-pipeline/data_pipeline/amayama_catalog_auto.py:3441-3463 | a run from the empty queue that ends a round with a FAILED page of the priority set, after which the loop stops whatever its number of rounds |
| CrawlTermination.ClaimsAreAttempts | data-pipeline/data_pipeline/amayama_catalog_auto.py:2365-2374 | the claims ever made are exactly the attempts the rows record |
| CrawlTermination.ClaimsBounded | data-pipeline/data_pipeline/amayama_catalog_auto.py:2422-2478 | after R rounds, crashes included, no row has more than max(1, limit) + R - 1 attempts, and claims are at most that many per row |
| CrawlTermination.MeasureStep | data-pipeline/data_pipeline/amayama_catalog_auto.py:2817-2945 | every step of a worker lowers a measure of the claims, links and waits left, unless it leads to where a worker can go on for ever |
| CrawlTermination.RoundIsFinite | data-pipeline/data_pipeline/amayama_catalog_auto.py:2817-2945 | on a finite site a round ends, in any interleaving and within the measure, if and only if it can reach no state in which a worker can go on for ever; no other bound would do |
| CrawlTermination.RoundEndsWithinScan | data-pipeline/data_pipeline/amayama_catalog_auto.py:2817-2849 | a round without a filter ends, and so does one with a filter that never has more than 50,000 rows pending |
| CrawlTermination.NeverStuck | data-pipeline/data_pipeline/amayama_catalog_auto.py:2817-2945 | while a worker has not left, some worker can take a step |
| CrawlTermination.SpinsExactly | data-pipeline/data_pipeline/priority_chassis.py:311-339 | an empty claim and a recount can lead back to the same state if and only if an eligible row is pending that the claim does not find, which needs more than 50,000 pending rows |
| CrawlTermination.SpinsWithSample | data-pipeline/data_pipeline/priority_chassis.py:311-339 | for a given sample they do if and only if the claim finds nothing and the filter accepts a row of the sample |
| CrawlTermination.SpinsForEver | data-pipeline/data_pipeline/amayama_catalog_auto.py:2832-2849 | such a worker can take any number of steps and change nothing |
| CrawlExamples.WideSiteSpins | data-pipeline/data_pipeline/amayama_catalog_auto.py:2298-2363 | for every number of links above 50,000 a run from the empty queue reaches a state in which every sample of the first inserted rows leads back to it, and there is such a sample |
| LedgerText.AppendedLines | scripts/project_truth_guard.py:162-172 | appending keeps every line and makes the entry the last one, also after an unfinished or oddly ended last line |
| LedgerText.LinesAre | scripts/project_truth_guard.py:209-211 | the lines of a text hold no line break and are each followed by one, except a last unfinished line |
| LedgerText.OneSplit | scripts/project_truth_guard.py:209-211 | no other lines split the text so |
| LedgerText.LastEntryLineIs | scripts/project_truth_guard.py:179-182 | the entry read is the last line that is not blank |
| TruthGuard.Guard.Compare | scripts/project_truth_guard.py:257-274 | the failure list is empty if and only if the commit is recorded as the guard demands |
| TruthGuard.Guard.VerifyRef | scripts/project_truth_guard.py:214-291 | the recursive verifier with its visited set computes the verdict function, with its exit codes |
| TruthHistory.AcceptedIsJustified | scripts/project_truth_guard.py:228-287 | a commit passes by its own record if and only if it is a root, changes nothing, or its last ledger entry names its parent, digest, change id and each changed file once, the last-change file repeats it, and the ledger strictly extends the parent's |
| TruthHistory.ExamineIs | scripts/project_truth_guard.py:228-274 | every other finding, exactly when the commit is such: lost ledger lines or a ledger-only edit (21), a source change without an entry (20), an entry the guard cannot read, an entry that does not match |
| TruthHistory.VerifySound | scripts/project_truth_guard.py:214-291 | a verified commit reaches, by second parents with the same tree, a root, an unchanged commit, or one whose last entry names its parent, digest, change id and files and extends the parent's ledger; what each merge was made into is in the history of what it merged |
| TruthHistory.VerifyExact | scripts/project_truth_guard.py:214-291 | on a history without cycles a commit is verified if and only if merges that keep the tree of their second parent lead to a justified commit; the cycle guard never fires |
| TruthHistory.LedgerGrows | scripts/project_truth_guard.py:234-238 | along verified first parents the ledger only grows by appending, by at least as many lines as there are commits that change source and are justified by their own record |
| TruthHistory.EntriesStay | scripts/project_truth_guard.py:234-238 | every earlier commit's ledger lines are still there, at their places |
| TruthHistory.Recorder.AppendLedger | scripts/project_truth_guard.py:162-172 | both managed files are written and staged |
| TruthHistory.Recorder.Record | scripts/project_truth_guard.py:185-206 | recording without a source change does nothing, otherwise it appends one entry for the staged change |
| TruthHistory.RecordedCommitVerifies | scripts/project_truth_guard.py:185-291 | record, then commit or merge, is verified when the ledger on disk keeps HEAD's lines |
| TruthHistory.RecordThenVerify | scripts/project_truth_guard.py:185-291 | record, then commit, is verified if and only if the ledger on disk keeps HEAD's lines or, without a source change, the managed files are HEAD's |
| TruthHistory.ManyRecordsThenVerify | scripts/project_truth_guard.py:162-291 | any number of stagings and records before the last record do no harm |
| TruthHistory.StagedBackIsRefused | scripts/project_truth_guard.py:240-247 | recording a change and then staging it back is refused |
| TruthHistory.CheckRelease | scripts/project_truth_guard.py:298-331 | the gate as it runs, with a fresh verification of HEAD, computes the exit code |
| TruthHistory.ReleaseIs | scripts/project_truth_guard.py:298-331 | the gate opens if and only if the app is registered, not blocked, its required ancestor is set and in HEAD's history and, for a deliverable build, the tree is clean and HEAD verified; the exact reason for each exit code |
| TruthHistory.ReleasedIsJustified | scripts/project_truth_guard.py:298-331 | a deliverable release comes from a clean tree with the content of a justified commit, and parents lead from HEAD to the required ancestor |
| LedgerCodec.LawfulCodecExists | scripts/project_truth_guard.py:162-182 | an encoding of entries exists that reads back from both layouts, one line each |
| CatalogRows.SameKey | data-pipeline/data_pipeline/import_catalog.py:58-82 | two records have the same key if and only if every key column has the same value or is left empty in both, in the sense of its unique index |
| CatalogRows.SameVehicle | data-pipeline/data_pipeline/import_catalog.py:65-73 | which vehicles are the same: null and '' are alike in VIN prefix and engine, also 0 in chassis and model, null and 0 in the year |
| CatalogRows.SameFitment | data-pipeline/data_pipeline/import_catalog.py:76-82 | which fitments are the same, column by column |
| CatalogRows.ProjectIs | data-pipeline/data_pipeline/import_catalog.py:85-86 | what is written of a record: every accepted column that is set, and nothing else |
| CatalogRows.LandedKeepsKey | data-pipeline/data_pipeline/import_catalog.py:58-86 | an update keeps a row's key whatever the client does to the columns it does not write |
| LiveTable.UpdatedIs | data-pipeline/data_pipeline/import_catalog.py:412-416 | an update by id changes only the row it names |
| LiveTable.WithoutKeepsSound | data-pipeline/data_pipeline/import_catalog.py:440-447 | deleting rows keeps keys and ids unique |
| CatalogImport.FetchAll | data-pipeline/data_pipeline/import_catalog.py:339-356 | paging until a short page reads the whole table once |
| CatalogImport.Dedupe | data-pipeline/data_pipeline/import_catalog.py:393-395 | the last row of each key, in order of first use |
| CatalogImport.InsertAll | data-pipeline/data_pipeline/import_catalog.py:408-411 | the unique index refuses no inserted chunk |
| CatalogImport.UpdateAll | data-pipeline/data_pipeline/import_catalog.py:412-416 | no update chunk is refused, and each named row gets its own update |
| CatalogImport.PlanLands | data-pipeline/data_pipeline/import_catalog.py:387-416 | inserts and updates together override the table by key |
| CatalogImport.BatchUpsert | data-pipeline/data_pipeline/import_catalog.py:371-417 | keys stay unique; every bundle key gets the written columns of its last row, others are untouched; inserted and updated count the distinct keys |
| CatalogImport.SameButNothingIsUpdated | data-pipeline/data_pipeline/import_catalog.py:387-406 | a record that differs from a live row at most in how it leaves key columns empty is updated, never inserted |
| CatalogImport.ImportEmptyEngine | data-pipeline/data_pipeline/import_catalog.py:371-417 | a vehicle with engine '' updates the live one whose engine is null: none inserted, one updated |
| CatalogImport.ImportTwice | data-pipeline/data_pipeline/import_catalog.py:371-417 | a second import of the same bundle inserts nothing and updates every key once, and the two leave the table as one could |
| CatalogImport.DeleteAll | data-pipeline/data_pipeline/import_catalog.py:440-447 | the chunked delete removes exactly the given rows |
| CatalogImport.Prune | data-pipeline/data_pipeline/import_catalog.py:450-498 | pruning removes exactly the rows whose key the bundle lacks |
| CatalogImport.PruneAndUpsert | data-pipeline/data_pipeline/import_catalog.py:501-548 | pruning and upserting leave exactly the bundle's keys |
| DryRun.MemoryStore.UpsertTable | data-pipeline/data_pipeline/import_catalog.py:146-165 | the store ends with the last record of each raw key; insertions are the new keys, and the three counters sum to the records |
| DryRun.InsertedAgree | data-pipeline/data_pipeline/import_catalog.py:54-82 | both imports insert the same number if and only if no two records differ only in how they leave key columns empty |
| DryRun.NoEmptyKeyValues | data-pipeline/data_pipeline/import_catalog.py:58-82 | records without '' or 0 in key columns never collide |
| DryRun.LastRowsAgree | data-pipeline/data_pipeline/import_catalog.py:146-165 | without collisions both keep the same last row of each key |
| DryRun.DryRunPredictsLive | data-pipeline/data_pipeline/import_catalog.py:146-165 | the live keys are the dry run's, normalised, and the live rows its rows, projected |
| DryRun.ImportTable | data-pipeline/data_pipeline/import_catalog.py:515-538 | a dry run and a live import into an empty table report the same insertions if and only if nothing collides |
| BundleFilter.KeptAre | data-pipeline/data_pipeline/bundle_filter.py:102-111 | the kept vehicles are those of the given chassis, one for each natural key |
| BundleFilter.FilterCompleteBundle | data-pipeline/data_pipeline/bundle_filter.py:61-166 | the fitments are exactly those with a chassis, a box and a diagram path, every vehicle has one of its chassis, and the vehicles are one for each natural key of such a chassis, with their set key columns but no year before 1980 |
| BundleFilter.FilteredVehicles | data-pipeline/data_pipeline/bundle_filter.py:98-111 | every filtered vehicle's chassis has a complete fitment |
| BundleFilter.ImportComplete | data-pipeline/data_pipeline/import_catalog.py:501-548 | after filter, prune and upsert the live keys are the filtered bundle's, and every live vehicle's chassis has a live fitment with a box and a diagram path |
| ParsePass.PendingRest | data-pipeline/data_pipeline/cache_parse_worker.py:547-556 | after the first n pending rows are taken, the others are pending in the same order |
| ParsePass.PendingInOrder | data-pipeline/data_pipeline/cache_parse_worker.py:547-556 | the pending rows are a filter of the queue, row by row and in order |
| ParsePass.ParseQueue.ClaimBatch | data-pipeline/data_pipeline/cache_parse_worker.py:544-572 | a claim takes the first pending rows up to its limit and marks exactly those PROCESSING |
| ParsePass.ParseQueue.RunPass | data-pipeline/data_pipeline/cache_parse_worker.py:811-860 | the pass ends, parses exactly the first rows up to the limit, marks each by its outcome, and counts them |
| ParsePass.ParseQueue.RecordOutcome | data-pipeline/data_pipeline/cache_parse_worker.py:824-851 | each outcome's status, counts and counters |
| ParsePass.PassLeaves | data-pipeline/data_pipeline/cache_parse_worker.py:811-860 | what a pass leaves of each row: DONE with its diagrams and parts, DONE, EMPTY or ERROR by what parsing yielded, PROCESSING if it was only claimed, else as before |
| ParsePass.PassRecords | data-pipeline/data_pipeline/cache_parse_worker.py:811-860 | the counters of a pass agree with the table it leaves: sums of diagrams and parts, numbers of DONE, EMPTY and ERROR rows |
| ParsePass.TallySums | data-pipeline/data_pipeline/cache_parse_worker.py:828-851 | the counters account for every parsed page once |
| ParsePass.ClaimsEnd | data-pipeline/data_pipeline/cache_parse_worker.py:811-860 | every claimed row ends DONE, EMPTY or ERROR if and only if the batch size is not negative or the limit reaches all rows; a positive limit is never passed |
| Backfill.MergeIdentityInto | data-pipeline/data_pipeline/cache_parse_worker.py:275-292 | the loop over the hint keys computes the merge |
| Backfill.HintedIs | data-pipeline/data_pipeline/cache_parse_worker.py:275-291 | which hint replaces which value, column by column, with the noise-engine rule |
| Backfill.EnrichedIs | data-pipeline/data_pipeline/amayama_catalog_auto.py:1587-1626 | what enriching leaves in each column: set ones stay, the example URL goes, the first decoding of the chassis fills in the others |
| Backfill.IdentityHintsAre | data-pipeline/data_pipeline/cache_parse_worker.py:150-156 | the hints of an identity: its own set hint columns, and what the first decoding of its chassis has in the others |
| Backfill.MergedOverrides | data-pipeline/data_pipeline/cache_parse_worker.py:282-284 | chassis, VIN prefix, grade, market and vid of the identity always end in the merge, whatever enrichment adds |
| Backfill.DueIs | data-pipeline/data_pipeline/cache_parse_worker.py:299-330 | a row is due if and only if it is of the vehicle (its context's vid, else its payload's, else its URL's) and its context or its payload lacks the chassis, up to case, or the known VIN prefix |
| Backfill.ResolvedIs | data-pipeline/data_pipeline/cache_parse_worker.py:342-349 | whose hints a backfill of one vehicle uses |
| Backfill.OwnedRow | data-pipeline/data_pipeline/cache_parse_worker.py:419-431 | a backfill leaves every readable row of a known vehicle with its chassis and VIN prefix in both blobs, and unchanged if it had them |
| Backfill.UnownedRow | data-pipeline/data_pipeline/cache_parse_worker.py:419-431 | and changes no row of an unknown vehicle |
| Backfill.VisitSettles | data-pipeline/data_pipeline/cache_parse_worker.py:308-330 | a stamped row is no longer due for its vehicle and was not made due for another |
| Backfill.NothingLeft | data-pipeline/data_pipeline/cache_parse_worker.py:419-431 | after a backfill no row is due for any identity |
| Backfill.StampedOnce | data-pipeline/data_pipeline/cache_parse_worker.py:419-431 | a row that is due is stamped once, with its own vehicle's hints |
| Backfill.SecondBackfillUpdatesNothing | data-pipeline/data_pipeline/cache_parse_worker.py:419-431 | a second backfill with the same identities updates no row |
| Backfill.Backfiller.BackfillVid | data-pipeline/data_pipeline/cache_parse_worker.py:333-401 | afterwards every readable row of the vehicle carries the hints in both blobs, no other row has changed, and the count is the number of rows that changed |
| Backfill.Backfiller.BackfillAll | data-pipeline/data_pipeline/cache_parse_worker.py:419-431 | afterwards every readable row of a known vehicle carries its identity in both blobs, no other row has changed, and the counts are those of the changed rows and of the vehicles they belong to |

## Left out

* Network, storage, database and browser clients, retries inside a client, request signing, threads
  and process supervision: operations are atomic and their outcomes are parameters.
* The text of paths, JSON, gzip, SHA-256 and git's diffs: identifiers are structured values, the
  encodings are functions given to the model; `Lawful` states what JSON guarantees about an entry,
  `Truthful` what git says about ancestry.
* The manifest's counts, time and format fields; a negative `--limit-images`.
* Packs of one build after the release's objects changed their bytes under the same key: stored
  objects are immutable in the model.
* Crawl: the page cap, the health check's waiting, checkpoints, the Patchright worker, row times (the
  stale rows are a parameter) and URL normalisation; links, levels, scope, robots rules and the
  priority filter's token matching are functions.
* The reset of a start page's attempts after pruning: `NothingPruned` shows that it needs rows that
  the crawl itself never enqueues.
* The guard on shallow clones, where a parent is missing; the domains and other entry fields that
  verification does not read.
* Import: part categories, stock items, diagram assets and bundle validation; row ids are numbers and
  the columns an update does not write are kept or nulled as the client decides; JSON values are
  null, text or integers.
* The filter's hierarchy branch and the diagram flags, which depend on Megazip modules.
* Idempotence of the filter: removing years before 1980 after deduplicating can make vehicles equal.
* Parse pass: several parse processes, which one claim can hand the same page (its test reads a
  cumulative change counter); bundle refreshes; error texts; the re-queueing of changed pages.
* HTML parsing, URL classification, VIN and chassis tables.
