# A model of Attic's work protocols

Attic turns web pages into documents: jobs are claimed by workers under expiring
leases, moved through stages, completed, and mailed; saved pages are captured,
classified and indexed; archives are exported and restored. This project models
those protocols in Dafny and proves what every interleaving of their steps keeps.
`dafny verify dfyconfig.toml` checks all of it.

What the original does in place on a map, a row or an object is a class here, whose
methods are proved against specification functions; what several goroutines,
processes or transactions do together is a state machine over atomic steps, and the
theorems are about all its runs. Results of rendering, of the model provider, of
formatting, of the mail relay, of the search engine and of storage are parameters, so
that a theorem covers every sequence of them.

| file | models |
|---|---|
| Domain, Ordering | statuses, the stage graph, the claim order |
| JobStore, MemoryStore | the in-memory job store: specification and class |
| LeaseProtocol | fencing, versions, stage traces and attempts over all runs |
| PostgresStore, AdapterSimulation | the guarded row transitions, and their agreement with the map |
| Delivery | the classification of a mail conversation and the email lease |
| Processor, Worker | source recovery, and the claim-process-persist-commit loop with the artifacts |
| Library, Captures, LibraryStore | capture leases, enrichment, bookmarks and the versioned search index |
| LibraryEffects | what each transaction writes, and what a search then finds |
| Restore, RestoreStore | the repeatable merge of an archive |
| Migrations | concurrent ordered migration |
| Encoding, Pagination | base64, decimal numbers, cursors and pages |
| Recovery | one browser shared by automation and a person |
| Budget | the lock-free byte budget |
| Sanitize | the tree-to-tree sanitizer |
| LineWriter | lines of 76 characters |

Assumed throughout: tokens and identifiers that are drawn are fresh, and each store has
one clock. Job and item identifiers are byte strings.

## What does not hold as promised

The code was followed where it and a promise differ. Each case has a concrete
counterexample and the exact condition.

- A stage report or a completion through a lease that was lost because the job was
  queued again or finished is answered by PostgreSQL with a storage failure instead of
  a lost lease: the row's token or stage is NULL and is read into a plain string.
  Nothing is changed in either store (`AdapterSimulation.OperationSimulates`,
  `AdapterSimulation.FinishedRowDisagrees`).
- A renewal truncates the requested duration to microseconds in PostgreSQL, so the two
  adapters agree exactly for whole microseconds (`AdapterSimulation.RenewalsAgreeOnWholeMicros`,
  `AdapterSimulation.OddRenewalDisagrees`).
- Restoring an archive twice can add an edited reading: two entries share a url, and the
  job of one entry's edited reading is the identity under which the other entry's
  edition was restored. `Restoring.SharedUrlAddsReading` makes such an archive and says,
  whatever the digest, for which job identifiers it does so. `Restoring.RestoreTwice`
  gives the guard that decides, `Restoring.RestoreTwiceSame` what a caller can check of
  the archive beforehand; `Restoring.ResumedReadings` and `Restoring.ResumedSame` say the
  same of a restore that was interrupted.
- A cursor does not give back a position with an empty identifier or with a creation time
  outside 64-bit nanoseconds around 1970 (`Pagination.CursorRoundTrip`). A walk along the
  cursors may then be refused, lose jobs (`Pagination.FarTimeLosesJobs`) or repeat a page
  for ever, as it does with two jobs created at the zero time
  (`Pagination.ZeroTimesNeverEnd`). It gives the listing exactly if the cursor of every
  page end leads on to the job after it (`Pagination.WalkExactly`).
- `migrations/README.md:20` promises that startup rejects gaps in the recorded history;
  the check only asks that every recorded row is known (`Migrations.GapsAccepted`,
  `Migrations.AcceptedPrefix`). A startup that finds a gap executes the missing migration
  after the later one (`Migrations.StartupFillsGaps`, `Migrations.GapExample`). The
  theorems about concurrent runs are about histories without gaps, which they keep
  without gaps.

## Model

| member | source | states |
|---|---|---|
| Domain.PersistingIsLast | internal/domain/types.go:168-188 | in a trace of allowed transitions, once persisting is shown every later stage is persisting |
| Domain.RouteToPersisting | internal/domain/types.go:168-188 | every allowed trace from fetching to persisting, from its last fetching on and without repeats, is the full route or the route of a reviewed article |
| Domain.TransitionsExactly | internal/domain/types.go:168-188 | the pairs of stages that may follow each other, written out |
| Domain.RoutesAreLegal | internal/domain/types.go:168-188 | both routes can be taken |
| ClaimQueue.SelectFirst | internal/postgres/store.go:511-590 | the row selected by creation time and identifier is before every other candidate, and none is selected exactly if there is none |
| ClaimQueue.FirstUnique | internal/memory/store.go:204-267 | the first candidate is unique, so the order in which a map is visited does not matter |
| ClaimQueue.FirstIsOldest | internal/postgres/store.go:511-590 | the first candidate is the one created first, of several the one with the least identifier |
| MemoryStore.SweptAll | internal/memory/store.go:204-267 | once every job has been visited and each reclaimed or selected as the sweep does, in whatever order, the map is the expired map and the selection its first due job; that the loop gets there is stated by Store.Sweep |
| MemoryStore.Store.ClaimNext | internal/memory/store.go:204-267 | the method over the map equals the specification: reclaim expired leases, lease the first due job, touch no other; nothing is claimed exactly if no job is queued and due or left with an expired lease, and the lease has the requested length or five minutes |
| MemoryStore.Store.Sweep | internal/memory/store.go:204-240 | the loop, in whatever order it meets the jobs, ends in the one state and with the one selection |
| MemoryStore.Store.RenewLease | internal/memory/store.go:269-296 | renewal succeeds exactly for the current lease of a leased job, adds the requested time or five minutes to its expiry and shows the lease its new version; every refusal changes nothing |
| MemoryStore.Store.SetStage | internal/memory/store.go:298-323 | a stage is set exactly through the current lease of a processed job and along the stage graph; every refusal changes nothing |
| MemoryStore.Store.Complete | internal/memory/store.go:325-361 | completion succeeds exactly with usable content through the current lease in persisting, and makes the job ready with its artifact and ends the lease; every refusal changes nothing |
| MemoryStore.Store.Requeue | internal/memory/store.go:363-385 | through the current lease, and only through it, the job is queued again for the given time and the lease ends |
| MemoryStore.Store.Fail | internal/memory/store.go:387-414 | through the current lease, and only through it, the job fails with its normalised category and the lease ends |
| LeaseProtocol.StepKeepsInv | internal/memory/store.go:204-414 | every step keeps the invariant: job shape, distinct lease tokens, a token set exactly while a lease is held, live leases showing their job |
| LeaseProtocol.OneLiveLease | internal/memory/store.go:204-414 | in every reachable state at most one lease per job is live |
| LeaseProtocol.LiveMeansUsable | internal/memory/store.go:269-414 | a lease is live exactly if some operation through it can still succeed |
| LeaseProtocol.LostForGood | internal/memory/store.go:269-414 | in every interleaving a superseded or finished lease stays lost, and every operation through it is refused and leaves the store unchanged |
| LeaseProtocol.VersionsNameStates | internal/memory/store.go:204-414 | over any run versions never decrease, equal versions mean the unchanged job, and a terminal job never changes |
| LeaseProtocol.ClaimTraceLegal | internal/memory/store.go:298-323 | while one claim lasts, the stages its job shows follow the stage graph |
| LeaseProtocol.CompletedClaimRoute | internal/domain/types.go:168-188 | from a claim to a successful completion the job took one of the two routes after its last fetching |
| LeaseProtocol.AttemptsBounded | internal/application/worker.go:161-184 | in every run of workers a job is claimed at most maxAttempts times plus its lease expiries |
| LeaseProtocol.ReportedFailuresEnd | internal/application/worker.go:161-184 | a job whose lease never expired is claimed at most maxAttempts times and is terminal after maxAttempts recorded failures |
| PostgresTransactions.Store.ClaimNext | internal/postgres/store.go:511-590 | the transaction equals the row specification: expire deliveries, reclaim, lease the first due row; nothing is claimed exactly if no row is queued and due or left with an expired lease |
| PostgresTransactions.Store.RenewLease | internal/postgres/store.go:592-632 | renewal succeeds exactly for the current lease of a leased row and adds the requested time in whole microseconds, or five minutes; row and lease object agree with the row specification |
| PostgresTransactions.Store.SetStage | internal/postgres/store.go:634-688 | a stage is set exactly through the current lease of a processed row and along the stage graph, with the failing read of NULL columns |
| PostgresTransactions.Store.Complete | internal/postgres/store.go:690-777 | the completion succeeds exactly with usable content through the current lease in persisting; column by column the row is then ready, with its own destination or else the configured one, and due to be mailed exactly if there is either; a refusal changes nothing |
| PostgresTransactions.Store.Requeue | internal/postgres/store.go:779-811 | the guarded update succeeds exactly through the current lease and queues the row again for the given time |
| PostgresTransactions.Store.Fail | internal/postgres/store.go:813-873 | the guarded update succeeds exactly through the current lease and records the normalised category |
| PostgresTransactions.Store.ClaimDelivery | internal/postgres/delivery.go:12-58 | expired deliveries are given up, then the next email is leased, one being found whenever one is due; a row without its PDF aborts the whole transaction |
| PostgresTransactions.Store.FinishDelivery | internal/postgres/delivery.go:60-111 | only the holder of the delivery token records a result: an accepted email is delivered without failure, a rejected one has failed, a transient failure is tried again after half a minute for each of fewer than three sends, everything else has failed as a timeout |
| AdapterSimulation.ClaimSimulates | internal/postgres/store.go:511-590 | from related stores both adapters claim the same job under the same lease and stay related |
| AdapterSimulation.OperationSimulates | internal/postgres/store.go:592-873 | renew, set stage, complete, requeue and fail keep the stores related; their outcomes and leases are equal exactly if the database does not read NULL columns |
| AdapterSimulation.FinishedRowDisagrees | internal/postgres/store.go:634-688 | the concrete disagreement: a stage reported after the job failed is a lost lease in memory and a storage failure in the database |
| AdapterSimulation.RenewalsAgreeOnWholeMicros | internal/postgres/store.go:592-632 | renewed expiries agree exactly for whole microseconds |
| AdapterSimulation.OddRenewalDisagrees | internal/postgres/store.go:592-632 | the concrete disagreement: a lease renewed for 1500 nanoseconds ends 500 nanoseconds later in memory than in the database |
| AdapterSimulation.StepsMatch | internal/postgres/store.go:511-873 | one step of any kind keeps both stores related, with the same leases handed out |
| AdapterSimulation.RunsMatch | internal/postgres/store.go:511-873 | over any run the two adapters stay related on every compared column and the rows keep the CHECK constraints |
| Smtp.OutcomeIsSafe | internal/delivery/smtp.go:93-139 | an outcome that permits another attempt, or rejects, is given only if the relay cannot have accepted (section 4.2.5 of RFC 5321); everything open is uncertain |
| Smtp.OutcomeExactly | internal/delivery/smtp.go:93-139 | rejected is a destination that cannot be or a reply from 500 on, transient every other end before the message was sent, a missing PDF, and a reply from 400 to 499 after it |
| DeliveryProtocol.StepKeepsInv | internal/postgres/delivery.go:12-119 | every step of workers, deliveries, owners and clocks keeps the email invariant |
| DeliveryProtocol.OperationKeepsRow | internal/postgres/store.go:592-873 | an operation on a job lease keeps the email invariant of its row and leaves the other rows alone |
| DeliveryProtocol.DeliveringStays | internal/postgres/store.go:592-873 | no job lease ever matches a row that is being delivered: every operation through one leaves all rows as they are |
| DeliveryProtocol.NeverTwice | internal/postgres/delivery.go:12-119 | between two requests of the owner an email is claimed at most three times and taken by the relay at most once |
| DeliveryProtocol.OnlyTheOwnerResends | internal/postgres/delivery.go:12-119 | an accepted, rejected, uncertain or expired delivery becomes pending again only by a request of the owner for another email; every other step leaves its row unchanged, but for the destination that a request joining a job may write |
| DeliveryProtocol.ReportsAreTrue | internal/postgres/delivery.go:60-111 | in every run an email shown as delivered was confirmed by the relay, and one shown as rejected was taken by none of its attempts |
| DeliveryProtocol.CompletedIsMailed | internal/postgres/store.go:755-764 | a completed job has its own destination or the configured one, is pending exactly if there is one, and unless paused or put off is found by the next delivery |
| DeliveryProtocol.OwnerMayAsk | internal/library/library.go:456-468 | the owner may ask for every stored PDF that is not under a lease, and retry a failed delivery with a destination |
| DeliveryProtocol.RequestIsMailed | internal/library/library.go:464-468 | an email its owner asks for is found by the next delivery |
| DeliveryProtocol.JoinedIsMailed | internal/library/library.go:488-492 | an email asked for while its job is under preparation is sent to that destination once the job is completed, even after a pause |
| DeliveryProtocol.PausedIsNotMailed | internal/library/library.go:514-519 | a pause stops every email that is not being sent |
| DeliveryProtocol.ConfirmedIsDelivered | internal/postgres/delivery.go:60-111 | in every reachable state a confirmed conversation that is finished while its claim lasts makes the email delivered, without failure |
| DeliveryProtocol.DeliveredStays | internal/postgres/delivery.go:12-119 | a delivered email stays delivered in every run without another request of the owner |
| Processor.Process | internal/processing/processor.go:99-221 | the method with its loop over sources equals the specification of a run, of which the next rows say what it answers |
| Processor.SearchSources | internal/processing/processor.go:150-221 | the loop with its running error, attempt and fallback variables equals the recursive search |
| Processor.OwnTextFirst | internal/processing/processor.go:99-149 | an edited reading and a saved page come before every source; what goes wrong with them is the answer, but for a soft error of the saved page |
| Processor.LaterSourceSucceeds | internal/processing/processor.go:150-193 | if every source before the k-th is kept, fails with one of the eight soft categories or is a blocked archive, and the k-th succeeds, the processor succeeds and tries no later source |
| Processor.OtherErrorEnds | internal/processing/processor.go:150-240 | any other error of a source whose time is not over is the answer, and no later source is tried |
| Processor.LastResorts | internal/processing/processor.go:194-221 | after all sources the last one kept is tried, after a soft error of it the browser; without success the answer is the error of the original, or of the first source tried, made retryable exactly if it is typed and an archive failed temporarily |
| Processor.TimeIsOver | internal/processing/processor.go:150-221 | a source that fails after the time is over ends the search with the same answer |
| Processor.ProcessIsLegal | internal/processing/processor.go:99-336 | for every sequence of outcomes no forbidden transition is requested, success comes only in the formatting stage, and the last request is the move into it |
| Artifacts.KeyNamesJob | internal/memory/store.go:456-482 | an artifact key determines its job, whatever the identifiers and file names |
| Artifacts.OpensExactly | internal/memory/store.go:484-506 | an artifact opens exactly with the bytes stored for it, if they have its length and checksum |
| Artifacts.ArtifactStore.Put | internal/memory/store.go:456-482 | what was stored is what Open returns |
| Artifacts.ArtifactStore.Delete | internal/memory/store.go:508-516 | deleting removes this key and no other |
| WorkerProtocol.StepKeepsSystem | internal/application/worker.go:73-159 | every step of the worker, of deletions and of expiries keeps ready jobs and stored bytes together |
| WorkerProtocol.CommitKeeps | internal/application/worker.go:115-159 | a commit makes the job ready only with the bytes it names still stored |
| WorkerProtocol.ReadyJobsOpen | internal/application/worker.go:73-159 | with one worker at a time the artifact of every ready job opens with matching length and checksum, whatever expires, fails or is deleted |
| WorkerProtocol.DeletionRemoves | internal/application/archive.go:238-266 | an undisturbed deletion removes the job and the bytes of its artifact, and nothing else |
| Workers.Worker.RunOnce | internal/application/worker.go:73-159 | the log of steps only grows, so that every run of the method continues a run of the protocol; nothing is due exactly if no job is ripe; an undisturbed run with a usable result commits; a committed run made its job ready with exactly its bytes stored, and without a commit no bytes are left over unless deleting failed |
| Workers.Worker.HandleProcessingError | internal/application/worker.go:161-184 | on the jobs as others leave them, a retryable failure below the attempt limit is Requeue with the linear delay and any other is Fail, with the resulting store, lease and result |
| Workers.Worker.Finish | internal/application/worker.go:86-159 | a lost lease changes no job; an error of the processor, an invalid result and an empty document are recorded, the last two as final with their category; every other result is judged as Persisting says |
| Workers.Worker.Persisting | internal/application/worker.go:115-159 | the verdict for every state of the jobs: a lost lease or a stage that cannot move to persisting ends the run, a storage failure is recorded as retryable, unfit content as final, and the job is committed exactly if the jobs, as others left them, still hold it in persisting under the lease; only then the bytes stay under its key |
| Workers.Worker.Committing | internal/application/worker.go:128-159 | with the bytes stored, the run is committed exactly if there is content and the jobs still accept it, ends at once if cancelled, and records the storage failure or the unfit content otherwise, with the bytes deleted |
| Workers.RecordedExactly | internal/application/worker.go:161-184 | an error is recorded exactly through a usable lease: a retryable one below the attempt limit queues the job again after a quarter of a second for each attempt, every other one makes it fail with its category |
| Workers.UndisturbedCommits | internal/application/worker.go:73-159 | with every clock before the expiry, stages reported up to formatting and nobody stepping in, the verdict on a usable result is the commit |
| Workers.Worker.ReadyOpens | internal/memory/store.go:484-506 | in every reachable state of the objects the artifact of a ready job opens |
| Catalogue.TagsKept | internal/library/enrichment.go:67-80 | applied tags keep the existing ones in place, contain exactly both lists, and add none twice |
| Catalogue.MergeTags | internal/library/enrichment.go:67-80 | the loop over suggestions with its seen set equals the recursive definition |
| LibraryProtocol.SaveEvolves | internal/library/library.go:167-250 | saving, from the app or from a bookmark source, changes nothing indexable without a new version |
| LibraryProtocol.RowStepEvolves | internal/library/workers.go:22-240 | edits, captures, enrichment, imports and deletions change nothing indexable without a new version, and removed items go to the deletion queue |
| LibraryProtocol.AcknowledgeKeepsIndex | internal/library/workers.go:161-172 | acknowledging the version that was read is right whatever was written meanwhile |
| LibraryProtocol.StepKeepsIndex | internal/library/workers.go:123-173 | every step keeps the invariant tying rows, index, queued tasks and deletion queue |
| LibraryProtocol.IndexAgrees | internal/library/workers.go:123-173 | in every interleaving indexed_version never exceeds version, equality means the index holds the current projection except the capture status, and every indexed item is live or queued for removal |
| LibraryProtocol.PassCatchesUp | internal/library/workers.go:123-173 | an undisturbed pass brings an item up to date or carries out one removal, and changes nothing else |
| CaptureLeases.StepKeepsLeases | internal/library/workers.go:22-94 | every step keeps capture tokens distinct and in step with the capturing status |
| CaptureLeases.CapturingMeansLeased | internal/library/workers.go:22-94 | an item is capturing exactly when it holds a token |
| CaptureLeases.StaleWorker | internal/library/workers.go:36-61 | a worker whose token is not current changes nothing by its failure or its page |
| CaptureLeases.LostForGood | internal/library/workers.go:22-94 | a lost capture lease never comes back, so that the later result has no effect in any run |
| CaptureLeases.Supersedes | internal/library/workers.go:26-30 | a stored page ends every lease on its item; a new claim ends every earlier one |
| CaptureLeases.OneHolder | internal/library/workers.go:22-94 | at most one worker per item can still have an effect |
| CaptureLeases.BlockedKeepsText | internal/library/workers.go:84-87 | a blocked page replaces neither the title nor non-empty text |
| CaptureLeases.PagesKept | internal/library/browser_capture.go:14-37 | a stored page is kept unchanged as long as its item exists, and importing it again changes nothing |
| CaptureLeases.EnrichmentKeepsTags | internal/library/enrichment.go:16-57 | a classification that took any time never undoes an edit: the current tags keep their places and only suggested ones follow |
| CaptureLeases.FoldersFollowBookmarks | internal/library/library.go:219-235 | in every run an item shows exactly the folders of the bookmarks filed under it |
| CaptureLeases.OwnerTextStays | internal/library/library.go:354-370 | in every run notes, an edited title and the tags present are changed by nothing but an edit of the item; tags are only added |
| CaptureLeases.AttemptsBounded | internal/library/workers.go:26-46 | in every run an item waiting for a capture has had fewer than three attempts since it was last requested |
| Libraries.Library.Consistent | internal/library/workers.go:22-240 | the tables of the class satisfy the invariants in every reachable state |
| Libraries.Library.PersistCapture | internal/library/workers.go:49-94 | the transaction equals its specification, with every early return; a stored page gives the item its text and title, field by field, except that a challenge page replaces neither and an edited title stays |
| Libraries.Library.CaptureOnce | internal/library/workers.go:22-46 | nothing is done exactly if every item that can be captured is locked by another transaction, and then nothing changes; with anything happening while the page is fetched, a result without the lease changes nothing, one with it stores the page in captures and item, and a failure puts the item off or, after three attempts, ends it; undisturbed the lease is held |
| Libraries.Library.IndexOnce | internal/library/workers.go:125-173 | a pass that reports an item indexed left the document it read in the index and acknowledged exactly that version; an undisturbed pass whose task is carried out and heard of does not fail |
| Libraries.Library.Conclude | internal/library/workers.go:163-172 | the task is acknowledged exactly if the search engine has carried it out and was heard |
| Libraries.Library.Delete | internal/library/workers.go:197-240 | deletion removes the item with its captures, queues its removal from the index and leaves a tombstone |
| LibraryEffects.PageIsStored | internal/library/workers.go:49-94 | a page is stored exactly through the lease, or by an import, under a new capture and with its file; then text, title, status, token, enrichment and version are those of a stored page and no other row changes, otherwise nothing does |
| LibraryEffects.CaptureMissed | internal/library/workers.go:37-43 | without a page the item waits half a minute for its next attempt, three in all |
| LibraryEffects.CaptureBegins | internal/library/workers.go:26-30 | a claim leases the item for six minutes and counts the attempt |
| LibraryEffects.EditIsKept | internal/library/library.go:354-370 | an edit writes title, notes and tags and makes the title the owner's |
| LibraryEffects.NewPageIsSaved | internal/library/library.go:167-250 | a new page is saved as it was given, due to be captured, and filed under its bookmark |
| LibraryEffects.KnownPageIsKept | internal/library/library.go:167-250 | saving a page that is there keeps what its owner wrote and refreshes title and folders from the bookmark |
| LibraryEffects.FoldersAre | internal/library/library.go:219-235 | the folders of an item are those of the bookmarks filed under it |
| LibraryEffects.RemovedStaysRemoved | internal/library/library.go:167-250 | a browser does not bring back what the owner removed |
| LibraryEffects.DeletionIsWhole | internal/library/workers.go:197-240 | a deletion takes the item and its captures, leaves its bookmarks under no item, and leaves a tombstone |
| LibraryEffects.ClassificationIsWritten | internal/library/enrichment.go:16-57 | a classification of the version that was read is written with exactly its tags added; one of an older version is dropped |
| LibraryEffects.TextIsClassified | internal/library/enrichment.go:16-57 | an item with a new text is taken up for classification and gets it |
| LibraryEffects.CapturedIsFound | internal/library/workers.go:49-172 | after a stored page and an undisturbed pass the index has the text of the page |
| LibraryEffects.EditIsFound | internal/library/workers.go:125-172 | after an edit and an undisturbed pass the index has its title, notes and tags |
| LibraryEffects.SavedPageIsFound | internal/library/workers.go:22-172 | from the bookmark to the search: saved, captured and indexed without interference, a page is found by its text under its url |
| Restoring.CheckManifest | internal/library/transfer.go:335-384 | the manifest is accepted exactly if identifiers are present, short and distinct as required |
| Restoring.EntryOkExactly | internal/library/transfer.go:335-384 | the rules written out: identifiers present and at most 200 long, a job for an edited reading, no edition twice |
| Restoring.ItemAdds | internal/library/transfer.go:413-606 | a restored entry is present afterwards, at most one row is new, and nothing that was there is changed |
| Restoring.RestoreAdds | internal/library/transfer.go:252-294 | however far a restore gets, no existing title, note, tag or selected job is changed, and the counted entries are present |
| Restoring.ItemIsArchived | internal/library/transfer.go:413-606 | a new item has its archived row but for marks; every capture, edition, content and edited reading that is added is that of the archive, and jobs already there get no more than the edited reading |
| Restoring.NewRowKeeps | internal/library/transfer.go:413-478 | a new row has every field of the archived one with its suggested tags applied; an unfinished capture does not start again, and lease, job and index marks are fresh |
| Restoring.JobIsSelected | internal/library/transfer.go:595-606 | an item without a job gets the job of the edited reading or else the selected edition, and is due to be indexed; a job that is there stays |
| Restoring.SelectedEdition | internal/library/transfer.go:504-557 | the edition selected is the one the archive had selected, else its first |
| Restoring.FittingIsRestored | internal/library/transfer.go:413-606 | an entry is restored if its item is new or of the same kind and url, its captures are not those of another item, its restored jobs are free, and its new files can be read and stored |
| Restoring.RestoredFitted | internal/library/transfer.go:413-503 | a restored entry took no item of another kind or url and no capture of another item for its own |
| Restoring.IntactIsRestored | internal/library/transfer.go:252-294 | an intact archive of entries that share no identifier, url, capture or restored job is restored into an empty library without error, every entry present under its own identifier and nothing else there |
| Restoring.ItemAgain | internal/library/transfer.go:413-606 | restoring a present entry changes marks alone and at most adds its edited reading |
| Restoring.RestoreTwice | internal/library/transfer.go:252-611 | a second restore succeeds and leaves items, captures, editions, jobs and selections equal; edited readings too, exactly if each entry finds its reading under the job it resolves to |
| Restoring.RestoreTwiceSame | internal/library/transfer.go:252-611 | if no two entries share a url, a second restore changes marks alone |
| Restoring.SharedUrlAddsReading | internal/library/transfer.go:559-594 | for every digest and job identifier, an accepted archive of two entries with one url whose second restore adds an edited reading, exactly if the identity of the edition comes before that of the reading |
| Restoring.ResumedAlike | internal/library/transfer.go:250-294 | a restore interrupted after any number of entries and repeated comes to the items, captures, jobs, editions, contents and selections of an uninterrupted one, each entry at the same item; edited readings are compared by the next two rows |
| Restoring.ResumedReadings | internal/library/transfer.go:559-594 | the edited readings are those of an uninterrupted restore exactly if that one has every reading left after repeating the entries restored before the interruption |
| Restoring.ResumedSame | internal/library/transfer.go:250-294 | if no two entries share a url, an interrupted and repeated restore comes to the library of an uninterrupted one, edited readings included |
| Restoring.NewLinks | internal/library/transfer.go:275-287 | a bookmark that is added is that of the first link with its client and node, filed under the item its entry was restored to |
| Restoring.MappedAt | internal/library/transfer.go:252-274 | the map the links are looked up in leads from each entry to where it was placed |
| Restoring.LinksTwice | internal/library/transfer.go:275-287 | bookmark sources already there are left as they are, also by the same restore |
| Restorers.Restorer.RestoreItem | internal/library/transfer.go:413-606 | the transaction with its loops equals the specification and rolls back on every error |
| Restorers.Restorer.Restore | internal/library/transfer.go:252-294 | the method commits item by item as specified; an error leaves bookmarks and tombstones as they were, and success adds exactly the links and tombstones of the archive |
| Restorers.Restorer.FillItem | internal/library/transfer.go:479-593 | captures, editions and the edited reading are filled in as the recursive specification says, with the job they select |
| Migrations.ValidateHistory | internal/postgres/migrations.go:203-226 | the loops accept exactly the histories whose rows are known migrations under their names |
| Migrations.AcceptsKnownPrefix | internal/postgres/migrations.go:203-226 | a runner accepts a recorded prefix exactly if it knows all of it |
| Migrations.GapsAccepted | internal/postgres/migrations.go:203-226 | a history with a gap is rejected exactly if it has a row that is unknown besides |
| Migrations.AcceptedPrefix | internal/postgres/migrations.go:203-226 | an accepted history is a prefix of the list exactly if it has no gap |
| Migrations.StartupFillsGaps | internal/postgres/migrations.go:148-307 | a startup that begins with any accepted history, gaps or not, executes everything missing in the order of the list and succeeds, so that what is missing before a recorded migration is executed after it |
| Migrations.GapExample | internal/postgres/migrations.go:203-226 | the concrete history, second of two migrations recorded without the first, that is accepted and then has the first executed |
| Migrations.TransactKeeps | internal/postgres/migrations.go:269-307 | a transaction leaves history and executed migrations or adds the next one to both |
| Migrations.OlderRunnerFails | internal/postgres/migrations.go:203-226 | a runner older than the history fails and changes nothing else |
| Migrations.AdvancesExactly | internal/postgres/migrations.go:269-307 | a transaction advances its runner exactly if it learns of the commit, knows everything recorded and brings SQL for what is missing |
| Migrations.HistoryStaysPrefix | internal/postgres/migrations.go:148-307 | in every interleaving the history is a prefix of the list and grows, and a successful runner finds its whole list recorded |
| Migrations.ExecutedOnce | internal/postgres/migrations.go:269-307 | no migration is executed twice |
| Migrations.Database.Transaction | internal/postgres/migrations.go:269-307 | the locked transaction equals the specification |
| Migrations.Database.Run | internal/postgres/migrations.go:148-172 | a startup that succeeds among any transactions of others has its whole list recorded, one that knows less than is recorded fails, and one whose transactions commit succeeds as long as nothing is recorded that it does not know |
| Base64.RoundTrip | internal/application/archive.go:439-449 | decoding what was encoded gives it back |
| Base64.PaddedBack | internal/sanitize/sanitize.go:384-393 | the padded form is read back strictly |
| Decimal.FormatParses | internal/application/archive.go:440-455 | a written number is read back exactly if it fits 64 bits |
| Pagination.CursorRoundTrip | internal/application/archive.go:439-458 | a cursor gives back its position exactly if the identifier is not empty and the time fits 64-bit nanoseconds around 1970 |
| Pagination.ListingUnique | internal/memory/store.go:97-135 | there is at most one listing in descending time and identifier |
| Pagination.ListingIs | internal/memory/store.go:97-135 | for every store, filter and position there is exactly one listing |
| Pagination.ListedExactly | internal/memory/store.go:97-135 | listed are the jobs of the status, if one is asked for, that are older than the position, if there is one |
| Pagination.NewestFirst | internal/memory/store.go:97-135 | a listing goes from the newest to the oldest, equal times by descending identifier |
| Pagination.RestIsListing | internal/memory/store.go:130-135 | what comes before the cursor of the k-th job is exactly the rest of the listing |
| Pagination.List | internal/memory/store.go:97-128 | the filter, the sort and the cut give a page of the listing and whether there is more |
| Pagination.ListJobs | internal/application/archive.go:144-184 | a limit outside 1 to 100 and an unreadable cursor are refused, everything else answered with at most the limit, 25 by default, and the cursor of the last job |
| Pagination.WalkIsListing | internal/application/archive.go:144-184 | if every page end leads on, the pages of any walk along the cursors are together the listing, without gap or repetition |
| Pagination.WalkEnds | internal/application/archive.go:144-184 | if every page end leads on, following the cursors ends after finitely many pages |
| Pagination.WalkExactly | internal/application/archive.go:144-184 | for every store, filter and accepted limit, following the cursors ends and gives the whole listing exactly if the cursor of every page end but the last leads on to the next job, and then no walk gives anything else |
| Pagination.CarriedMeets | internal/application/archive.go:439-458 | with creation times a cursor can carry, every page end leads on exactly if none but the last has an empty identifier |
| Pagination.FarTimeLosesJobs | internal/application/archive.go:439-458 | the concrete store whose walk loses a job, its creation time being out of range |
| Pagination.ZeroTimesNeverEnd | internal/application/archive.go:439-458 | the concrete store of two jobs created at the zero time: its first page follows itself and no walk ends |
| RecoveryProtocol.StepKeepsOk | internal/recovery/recovery.go:90-350 | every command, expiry and goroutine step keeps the session invariant |
| RecoveryProtocol.OneBrowser | internal/recovery/recovery.go:134-157 | at every moment all sessions but the current one are over with their browser closed |
| RecoveryProtocol.TakeoverCancels | internal/recovery/recovery.go:113-132 | every automated input that starts after a person took control carries a cancelled context |
| RecoveryProtocol.NoMoreAutomation | internal/recovery/recovery.go:251-315 | after a takeover at most the one input already decided on still starts |
| RecoveryProtocol.CommandsInOrder | internal/recovery/recovery.go:119-131 | accepted commands are carried out in order, none twice, with at most sixteen waiting |
| RecoveryProtocol.AutomationActs | internal/recovery/recovery.go:259-306 | left alone, automation observes, asks the model and comes to the input it decided on with a context that is not cancelled, up to four times |
| RecoveryProtocol.InputIsMade | internal/recovery/recovery.go:300-302 | the input that was decided on is made |
| RecoveryProtocol.AutomationHandsOver | internal/recovery/recovery.go:307-309 | automation that is over hands the browser to a person |
| RecoveryProtocol.CommandIsServed | internal/recovery/recovery.go:318-327 | a waiting command is carried out next, and a save command tries to save |
| RecoveryProtocol.PageIsSaved | internal/recovery/recovery.go:351-400 | a page that can be read is saved, then the browser is closed and the session is over |
| RecoveryProtocol.SessionEnds | internal/recovery/recovery.go:78-112 | a close, the end of its time or of the manager cancels a session; after the end of the manager every new one is cancelled from the start |
| Recoveries.Manager.StartLocked | internal/recovery/recovery.go:134-157 | a session is opened exactly if there is none, or the current one is over and another source or a retry asks; else it is joined, or refused as busy |
| Recoveries.Manager.CloseSession | internal/recovery/recovery.go:107-112 | a close ends the running session of its source, and is refused exactly if there is none |
| Recoveries.Manager.Command | internal/recovery/recovery.go:90-132 | a command takes control and cancels the step under way; it is refused exactly if no session of its source is running, and finds it busy exactly if sixteen commands are waiting |
| Recoveries.Manager.Schedule | internal/recovery/recovery.go:90-350 | any schedule keeps the invariant and at most one open browser |
| Budget.StepKeepsOk | internal/acquisition/proxy.go:220-243 | every atomic step of any writer keeps counter, written bytes and reservations in balance |
| Budget.BudgetKept | internal/acquisition/proxy.go:220-243 | in every interleaving the counter is the bytes written plus reservations in flight and never exceeds the budget; at rest it is the bytes written |
| Budget.Proxy.Write | internal/acquisition/proxy.go:220-243 | the compare-and-swap loop among the steps of others returns fewer bytes than given only with an error; alone it writes exactly what budget and connection allow |
| Budget.Proxy.Advance | internal/acquisition/proxy.go:220-243 | each atomic step on the counter equals its specification |
| Text.AsciiIsSound | internal/sanitize/sanitize.go:241-348 | what is assumed of character classes and address parser holds of ASCII and a parser that knows one address |
| Text.ImageStays | internal/sanitize/sanitize.go:365-394 | an accepted inline image is written in one form, which is accepted unchanged |
| Text.RelStays | internal/sanitize/sanitize.go:436-457 | accepted rel words are accepted unchanged when read again |
| Text.CheckRel | internal/sanitize/sanitize.go:436-457 | the loop over words equals the definition |
| Text.IntegerStays | internal/sanitize/sanitize.go:459-468 | a bounded integer is written in one form, which is accepted unchanged |
| Sanitizer.AttributesClean | internal/sanitize/sanitize.go:241-348 | the attributes kept are sorted, unique and exactly the validated first values of their keys |
| Sanitizer.AttributesHarmless | internal/sanitize/sanitize.go:241-468 | what each kept attribute can be, said without the validation: accepted addresses, small images in one form, short texts, known words, integers in range |
| Sanitizer.AttributesStay | internal/sanitize/sanitize.go:241-348 | sanitized attributes are sanitized to themselves |
| Sanitizer.SanitizeAttributes | internal/sanitize/sanitize.go:241-348 | the loop with its seen map, and the sort, give those attributes |
| Sanitizer.NodesBecomeClean | internal/sanitize/sanitize.go:186-240 | the output contains only allowed elements in no namespace with clean attributes, images with a source and empty void elements |
| Sanitizer.SanitizeTwice | internal/sanitize/sanitize.go:186-240 | sanitizing is idempotent |
| Sanitizer.HarmlessIsKept | internal/sanitize/sanitize.go:241-468 | every harmless value is accepted and kept as it is |
| Sanitizer.UnchangedExactly | internal/sanitize/sanitize.go:186-348 | the documents that are left as they are, are exactly the harmless ones, and whatever comes in a harmless one comes out |
| Sanitizer.NodesKeepText | internal/sanitize/sanitize.go:186-240 | the text of the output is the input text without exactly the hidden subtrees, in document order |
| Sanitizer.NodesKeepMarkup | internal/sanitize/sanitize.go:186-240 | written out, the output is the input with hidden subtrees cut out, foreign tags removed around what they contain, and every allowed element kept in its place with its validated attributes |
| Sanitizer.AcceptedExactly | internal/sanitize/sanitize.go:470-492 | the input is accepted exactly if some of the text that is kept is visible |
| Lines.UnwrapWrap | internal/delivery/smtp.go:179-201 | removing the breaks gives back the input |
| Lines.LinesFit | internal/delivery/smtp.go:179-201 | no line is longer than the 76 characters of section 6.8 of RFC 2045, whatever the input, with or without breaks of its own |
| Lines.LinesFull | internal/delivery/smtp.go:179-201 | of an input without breaks every line but the last has exactly 76 characters |
| Lines.AttachmentReadBack | internal/delivery/smtp.go:158-169 | an attachment encoded and wrapped is read back by a reader that skips line breaks |
| Lines.LineWriter.Write | internal/delivery/smtp.go:179-201 | without an error everything given is written, wrapped; after an error what is written is the beginning of that |
| Lines.LineWriter.WriteAll | internal/delivery/smtp.go:179-201 | any splitting of the same bytes gives the same text |

## Left out

- AdapterSimulation.RunsMatch: a zero `now` is replaced by the clock in PostgreSQL and renewals are truncated, so the map adapter is compared on the event with these two normalised; storage of timestamps at microsecond precision is not modelled.
- RecoveryProtocol.StepKeepsOk: validation of an action's coordinates and text is not modelled; an invalid action is refused before it reaches a session. Messages, screenshots and addresses of a session are left out.
- Sanitizer.SanitizeTwice: the URL parser and the Unicode classes are parameters, taken to be idempotent on their own output (`Text.Sound`); parsing and rendering of HTML are left out, and so is the merging of adjacent text nodes by a second parse.
- Pagination.ListJobs: summaries, redaction and the spelling of a status are left out; a cursor counts as blank if it consists of ASCII blanks.
- LibraryProtocol.IndexAgrees: the search engine carries out its tasks in the order they were queued. A request that is delivered after its sender lost the advisory lock is left out, and so are restores into a running library that reuse a deleted identifier.
- Libraries.Library.IndexOnce: the order by update time in which items that are behind are taken is left open; any order is covered.
- Workers.Worker.RunOnce: one worker at a time; a stale worker may delete bytes under a key it shares with its successor.
- Restorers.Restorer.Restore: reading the ZIP file, its size limits, media types and languages is left out, and so is the loss of the database between two transactions except as an interruption.
- Budget.BudgetKept: bytes of a transfer under way are counted when it returns; they were reserved before it began.
- Migrations.HistoryStaysPrefix: concurrent runs from a history with gaps are not covered, as the invariant is the prefix; creating the history table, discovering the files and removing their transaction wrapper are left out; a failure of any of them ends a runner like a rolled back transaction.
- DeliveryProtocol.NeverTwice: rows of delivery attempts, which are a log, are left out.
- CreateOrReuse, RequestDelete and CreateRetry of the job stores: only creation of a queued job, its removal, and the owner's requests for another email are modelled.
- Integer widths of versions and attempt counts; they grow by one and never wrap in the model.
- Cancelled contexts of the stores' own methods and failing database connections: an operation then has no effect.
- Trimming of artifact file names and symbolic links; keys are job and file name as in the memory adapter.
- Capture of pages, the DOM scripts, Chromium, DNS and address policy, HTTP routing, settings and user interface: foreign systems and plumbing.
- Prompts and answers of the model provider, PDF formatting and inspection: only their outcomes matter to the protocols.
- Cleanup of capture files after deletion and storage statistics: they would only add easy members.
