# Akasha: the write paths, planning and retrieval, in Dafny

Akasha keeps the truth about its memories in Postgres and a rebuildable vector index beside it. No transaction spans
the two stores, so every write path is a protocol of single statements and single index calls that can stop anywhere.
This project models those protocols call by call, and the list processing and arithmetic around them, and proves what
they keep over every run. `dafny verify dfyconfig.toml` checks the whole project.

## The two stores

`Store.dfy` holds the tables the write paths touch and the index as one value `Db`; each function in it is the effect of
one SQL statement, one transaction or one vector call. Ids come from sequences that only grow, so an id is never used
twice, also after a rollback. `Protocol.dfy` is the machine: an attempt is one execution of `writeCanonicalMemory`,
`refreshCanonicalMemoryIndex`, `sweepOne` or `restoreOne` on one record, and stands at the call it makes next. A step
lets one attempt make its call. The call may take effect or not, and may answer, report an error or be the last thing
before a crash; a call that reports an error may still have taken effect. Attempts on different records interleave
freely, with updates, claims, archiving and outbox sweeps between any two calls.

Two things restrict a run. Attempts on the same record do not overlap, and a record is not archived while an attempt on
it is under way (a sweeper working on old chunks can undo a finished refresh; the leases proved in `Leases.dfy` are what
keeps sweepers apart). Nothing else is assumed: rollback and compensation calls may fail too. `Scenarios.dfy` holds runs
from empty stores: an ordinary write, which stays out of every window, and one run into each state below from which
nothing repairs a record.

`Deployment.dfy` is the imperative side: a class `Stores` with the tables as fields and one method for each statement or
vector call, and on top of it `WritePaths`, `Unarchive`, `Compaction` and `Outbox` follow the source's own code with its
loops, catch blocks and counters. Beside its tables a `Stores` carries the machine's state and the log of its steps;
`Valid()` says that the tables are exactly what the logged run of the machine made of them. Every method keeps
`Valid()`, so every execution of the code is a run of the machine and all that `Guarantees.dfy` proves about runs holds
of it. Two counters say how its calls went: `faults` counts those that did not answer, `hidden` those among them that had
taken effect all the same; `missed` lists the marks of archive rows among them. With these the contracts say both directions: an operation completes if and only if every one
of its calls answers, and what a failed one leaves behind depends on them.

Words used below:

- *in step*: every chunk of the record has a recorded point id, the index holds that point with the record, organization
  and text of the chunk, and the index holds no other point of the record;
- *scheduled*: some ingest job of the record is pending with a retry time, or is failed and waits for an operator;
- *window*: one of the places, listed at `Protocol.Loses` and `Guarantees.OpensWindow`, where an attempt that ends there
  can leave a record neither in step nor scheduled. Where a single call decides it, the exact condition is proved;
- *gap*: the history variable of the machine that holds the records last left in a window and not settled since.

## The other parts

`Chunker` proves the streaming window loop equal to a closed form and then the closed form's properties. `RateLimiter`
proves the token bucket with deletion of stale buckets equal to one that never deletes, the rate bound and the exactness
of `retryAfterMs`. `Duplicates`, `Semantic` and `CompactionPlan` cover the duplicate detectors, Cauchy-Schwarz, the
planning of a compaction and its candidates. `Retrieval` covers the fusion and the ranking of what the index and the
repository answer. `VectorAdapters` proves that the Qdrant adapter and the pgvector adapter refine one abstract map.
`Reindex` proves the two-pass rebuild against its closed form for every batch size. `GoalRuns` is the repository of goal
runs as a transactional state machine. `LikePattern` proves the escaping of LIKE patterns against the definition of LIKE
in section 9.7.1 of the PostgreSQL documentation. `Leases`, `RetryBudget`, `CleanupBudget` and `Accounting` are about runs
of sweepers. `BareRefresh` is the refresh where no ingest jobs are configured.

Scores, similarities and the bucket's tokens are reals, time is integer milliseconds in the protocol and real in the bucket.

## Where the plain claim fails

The code is modelled as it is. Where a property one would expect does not hold, the condition under which it does is
proved, for all inputs:

- The README (line 62) promises that a write records its intent before it touches the vector store. Between the chunk
  insert and that mark a crash leaves a record nobody will index: `Guarantees.CutWriteIsSafeIff`, reached in
  `Scenarios.CutWriteReached`.
- A restore creates no ingest job, so one that dies before its points are recorded is never repaired:
  `Guarantees.CutRestoreIsSafeIff`, reached in `Scenarios.CutRestoreReached`.
- A sweep of a record without chunks closes the job without deleting the record's stale points:
  `Guarantees.EmptySweepInStepIff`, reached in `Scenarios.EmptySweepReached`.
- A sweeper that starts after its job has been completed by somebody else, and dies after its delete, leaves the record
  without points and, exactly if nothing was scheduled before, without repair: `Guarantees.StaleClaimLosesPoints`. A write
  slower than its first retry delay is enough to get there: `Scenarios.StaleClaimReached`. A late sweeper also writes back
  its old attempt count: `RetryBudget.FailureCountsIff`.
- A cleanup sweeper decides on the count it claimed while the row counts for itself; they part when a mark came between,
  as after a delete mark whose answer was lost: `CleanupBudget.FailureMarkFitsIff`. With a limit of one attempt, a failed
  cleanup inside the compaction itself uses the budget up without giving up: `CleanupBudget.ApplyMarkFitsIff`.
- A refresh without ingest jobs schedules nothing, so one cut short is repaired only if a job happened to be scheduled:
  `BareRefresh.CutBareRefreshIsSafeIff`.
- A memory whose ingest job cannot be created stays behind without chunks and without anything scheduled, because that
  call is made outside the catch block (src/store/canonical-indexing.ts:546-556). If exactly one call of a write fails,
  and had no effect, the record is still there if and only if that call was the job's: `WritePaths.WriteCanonicalMemory`.
- Points upserted but not recorded when their record is archived are listed in no outbox row and stay for good:
  `Guarantees.UnrecordedPointLeaksIff`.
- A failed restore whose compensation answers leaves both stores as they were exactly if no call took effect behind its
  error: `Unarchive.RestoreOne`. The worst case is the final mark: the record is compensated away and the row says
  it has been restored.
- An id given twice in one unarchive call is restored twice, because rows are looked up before the loop:
  `Unarchive.RepeatedIdIsRestoredTwice`. A later call never restores it again: `Unarchive.RestoredStaysRestored`.
- The kept record of a duplicate group is archived all the same when it has decayed: `CompactionPlan.KeptIsArchivedIff`.
- pgvector's upsert fails on a repeated point id exactly when both copies fall in one batch of 4000, where Qdrant takes
  the last one: `VectorAdapters.PgVectorTable.Upsert`.
- A reindex cut short between its passes takes the points of every record in scope and schedules nothing:
  `Reindex.CutReindexLosesPoints`.
- In `applyCompaction` an error of `markQdrantStatus` for a record without points (src/compact/apply-compaction.ts:233)
  ends the call without marking the run failed, unlike an error of the archiving statement. `Compaction.ApplyCompaction`
  says what the run row is after every way of ending; `Compaction.StaysPendingIff` when it stays pending; and
  `Scenarios.BareRowReached` is a record whose row lists no points and is never claimed by the outbox sweeper.

Two remarks in the code do not hold as written, and the code is followed. The comment at src/vector/pgvector-index.ts:210
counts eight parameters per row; the statement has fourteen, and 4000 rows of fourteen stay under the cap
(`VectorAdapters.BuildInsert`). The remark at src/compact/compact-memory.ts:37 that semantic deduplication subsumes the
exact one holds for records with equal non-zero vectors (`Semantic.EqualVectorsShareCluster`); records whose contents are
equal only after normalisation may have different vectors, and a record without an embedding is in no semantic group.

## Model

| member | source | states |
|---|---|---|
| Guarantees.CrashSafeOutsideWindows | src/store/canonical-indexing.ts:393-637 | In every run from empty stores, with any interleaving, errors and crashes anywhere, a live record that no attempt has been left on in a window is in step or scheduled whenever no attempt on it is under way |
| Scenarios.CompletedWrite | src/store/canonical-indexing.ts:520-637 | From empty stores every write all of whose calls answer stays out of the windows and ends in step, with exactly its texts stored and its job completed |
| Guarantees.CrashSafeIngest | src/compact/ingest-sweeper.ts:81-201 | The same per state: a live record outside the gap with no attempt under way is in step or scheduled; a sweep that settles it takes it out of the gap |
| Guarantees.SafeDuringRepair | src/store/canonical-indexing.ts:419-500 | At every single step of a refresh or a sweep the record is in step or scheduled, not only when it ends |
| Guarantees.SweepRestores | src/compact/ingest-sweeper.ts:87-157 | From any invariant state, however the record was left, a sweep that runs through brings a record with chunks back in step, out of the gap, with its job completed |
| Guarantees.CompletionMeansInStep | src/jobs/ingest-job-repository.ts:112-129 | Whenever the completion mark of any write, refresh or sweep answers, the record is in step at that moment |
| Guarantees.CutWriteIsSafeIff | src/store/canonical-indexing.ts:552-580 | A write that dies in the chunk insert or the write-ahead mark leaves the record safe if and only if the insert did not take effect, or the mark did |
| Scenarios.CutWriteReached | src/store/canonical-indexing.ts:562-580 | A run from empty stores after which the write's record is live, at rest, out of step and unscheduled |
| Guarantees.CutRestoreIsSafeIff | src/compact/unarchive-compaction.ts:167-292 | A restore that dies before its points are recorded leaves the record safe if and only if the chunk insert did not take effect, or the recording of the point ids did |
| Scenarios.CutRestoreReached | src/compact/unarchive-compaction.ts:226-239 | The same for a restore that dies embedding its chunks |
| Guarantees.EmptySweepInStepIff | src/compact/ingest-sweeper.ts:94-108 | A sweep that finds no chunks leaves the record in step if and only if the index held no point of it |
| Scenarios.EmptySweepReached | src/compact/ingest-sweeper.ts:94-108 | The same for a refresh to empty content that dies before its delete, followed by its sweep |
| Guarantees.StaleClaimLosesPoints | src/compact/ingest-sweeper.ts:110-125 | A sweep that dies after its delete leaves the record out of step, and scheduled if and only if it was scheduled before it started |
| Scenarios.StaleClaimReached | src/jobs/ingest-job-repository.ts:204-245 | The same for a job claimed while its write was still running and swept after it completed |
| Guarantees.ArchivedIsNeverLive | src/store/memory-archive-repository.ts:286-294 | In every reachable state the ids of live and archived records are disjoint and no record is archived twice |
| Guarantees.ArchivingLosesNothing | src/store/memory-archive-repository.ts:231-316 | Archiving takes exactly that record, if it is live in the organization and not updated since plan time, and adds one row holding the record's own fields; otherwise nothing changes |
| Guarantees.EditedIsNotArchived | src/store/memory-repository.ts:592-602 | A record edited after a plan was made is not archived by that plan, and carries the edit and its time |
| Guarantees.EditStaysInOrganization | src/store/memory-repository.ts:592-602 | An edit meant for a record of another organization changes nothing |
| TableInvariant.NeverConflicts | src/db/migrate.ts:211 | In sound tables the conflict clause on run and record never fires for a live record, so a deleted row is never dropped |
| Guarantees.InStepRowListsAll | src/store/memory-archive-repository.ts:263-283 | The archive row of a record that was in step lists every point the index holds of it |
| Guarantees.UnrecordedPointLeaksIff | src/store/memory-archive-repository.ts:252-261 | A point of an archived record is listed in no row at all if and only if its chunk is gone or does not record it |
| Guarantees.CleanupNeverForgotten | src/store/memory-archive-repository.ts:318-363 | In every reachable state an indexed point listed by an archive row belongs to a row that is pending with a retry time or failed, so a row marked deleted has none left |
| ProtocolInvariant.StepKeepsInv | src/store/canonical-indexing.ts:393-637 | Every step of the machine, whatever its outcome, keeps the invariant that ties records, chunks, jobs, rows, points, attempts and the gap |
| Backoff.DelayIsMonotoneAndCapped | src/jobs/retry-backoff.ts:8-16 | A later attempt never waits less than an earlier one, and the five-minute cap is reached exactly from the ninth attempt on |
| Backoff.NextRetryDelayMs | src/jobs/retry-backoff.ts:8-16 | The delay lies between one second and five minutes for every attempt count |
| Backoff.DelaysAre | src/jobs/retry-backoff.ts:8-16 | The delays in full: one second, doubling up to four minutes sixteen after eight attempts, and five minutes from the ninth on |
| Deployment.Stores.CreateIngestJob | src/jobs/ingest-job-repository.ts:59-73 | Inserts a pending job without a retry time; the execution is that step of the machine and nobody else's attempt moves |
| Deployment.Stores.MarkCompleted | src/jobs/ingest-job-repository.ts:75-90 | Closes the job and no more |
| Deployment.Stores.MarkQdrantCompleted | src/jobs/ingest-job-repository.ts:112-129 | Completes the vector side of the job and clears its retry time |
| Deployment.Stores.MarkQdrantAhead | src/jobs/ingest-job-repository.ts:131-158 | The write-ahead mark: pending, attempt 0, retry after one second |
| Deployment.Stores.RescheduleRefresh | src/store/canonical-indexing.ts:502-515 | The job of a failed refresh goes back to pending, attempt 0, and is retried after one second |
| Deployment.Stores.RecordSweepFailure | src/compact/ingest-sweeper.ts:158-201 | A failed sweep stores one attempt more and either the retry time that count gives or, at the limit, that it has been given up |
| Deployment.Stores.ClaimPendingForRetry | src/jobs/ingest-job-repository.ts:204-245 | Claims the earliest due rows no other transaction has locked, as many as the limit allows, pushes exactly their retry times by the visibility window and changes nothing else |
| Deployment.EarliestJobsAre | src/jobs/ingest-job-repository.ts:228-236 | The jobs a claim takes are due and not locked; one is left only if the limit is reached, and none of those taken is due after it |
| Deployment.Stores.InsertChunkRows | src/store/canonical-indexing.ts:751-841 | Stores exactly one row for each text under the ids from the next one on, the i-th with index i, the i-th text and no point, and returns those texts by id |
| Deployment.Stores.ReplaceChunkRows | src/store/canonical-indexing.ts:209-263 | One transaction: the record's chunks are replaced by one row for each text, numbered and in order, and a pending job due after one second is inserted, or neither |
| Deployment.Stores.UpdatePointIds | src/store/canonical-indexing.ts:137-164 | Records exactly the given point ids on their chunks |
| Deployment.Stores.BeginSweep | src/store/canonical-indexing.ts:327-365 | Loads exactly the record's chunk texts by id |
| Deployment.Stores.DeletePointsOfRecord | src/vector/vector-index.ts:37-40 | Removes the record's points within its organization and no others |
| Deployment.Stores.Upsert | src/vector/vector-index.ts:30 | Puts one point per loaded chunk, with the record, organization and text |
| Deployment.Stores.DeleteUpserted | src/vector/vector-index.ts:32 | Removes the points the attempt put in, by id, and but for a write only those of its organization |
| Deployment.Stores.AddMemory | src/store/memory-repository.ts:174-302 | A fresh record appears with the given fields, and its attempt is open only if the call answered |
| Deployment.Stores.DeleteRecordRow | src/store/memory-archive-repository.ts:576-589 | Deletes the record in its organization with its chunks and jobs |
| Deployment.Stores.RestoreToCanonical | src/store/memory-archive-repository.ts:519-574 | Inserts a fresh record with the row's fields, source and timestamps |
| Deployment.Stores.MarkRowUnarchived | src/store/memory-archive-repository.ts:591-602 | Stamps the row as restored |
| Deployment.Stores.ApplyCompactionRecord | src/store/memory-archive-repository.ts:231-316 | The single statement that deletes a record with its cascades and inserts its row, pending, with its recorded points and, if there are any, due at once; answers which row and which points |
| Deployment.Stores.DeleteArchivedPoints | src/compact/apply-compaction.ts:244-246 | Removes the recorded points of the given rows, within their organization |
| Deployment.Stores.MarkQdrantStatus | src/store/memory-archive-repository.ts:318-363 | Sets the status, counts the attempt and sets a retry time half a minute away for a pending row, none for another; a row may be marked deleted only once a delete of its points answered or it lists none |
| Deployment.Stores.ClaimPendingQdrantCleanup | src/store/memory-archive-repository.ts:420-455 | Claims the earliest due rows older than the grace period that are not locked, each once, and pushes exactly their retry times |
| Deployment.EarliestRowsAre | src/store/memory-archive-repository.ts:420-455 | The rows a cleanup claim takes are pending, due, past the grace of a minute, not locked and list points; one is left only if the limit is reached, and none taken comes after it by retry time and then by age |
| WritePaths.WriteCanonicalMemory | src/store/canonical-indexing.ts:520-637 | A write completes if and only if all its calls answer, and then has stored the record and, under consecutive ids, one chunk for each text, the i-th with index i and the i-th text, with their points in step; any other leaves the record, outside the gap, in step or scheduled; after a single failing call without effect the record is gone, except exactly if that call was to create its job |
| WritePaths.StoreChunks | src/store/canonical-indexing.ts:562-589 | From the chunk insert to the embeddings: stands before the upsert with the stored rows loaded, or before the rollback |
| WritePaths.InsertAndAnnounce | src/store/canonical-indexing.ts:562-580 | Chunks are stored and, if there are any, announced before anything touches the index |
| WritePaths.IndexChunks | src/store/canonical-indexing.ts:609-620 | Upsert, record, mark; on an error says exactly whether there are points to take out again |
| Deployment.EarliestOf | src/jobs/ingest-job-repository.ts:228-236 | ORDER BY and LIMIT: as many as the limit allows, each once, and none of them after one that was left |
| WritePaths.CloseWritten | src/store/canonical-indexing.ts:622 | Closing the job of a write that got there leaves the record in step with its texts stored in order |
| WritePaths.RollBack | src/store/canonical-indexing.ts:625-636 | Whatever its calls answer, the attempt is over and no other one has moved; if they answer, the record is gone |
| WritePaths.RefreshCanonicalMemoryIndex | src/store/canonical-indexing.ts:393-518 | A refresh completes if and only if all its calls answer, and then leaves the record in step and with exactly one chunk for each new text, the i-th with index i and the i-th text; one that fails or dies leaves it, outside the gap, in step or scheduled |
| WritePaths.ReplaceAndClear | src/store/canonical-indexing.ts:419-455 | New chunks and their pending job are stored before the old points go; on an error says whether there is a job to put back |
| WritePaths.IndexRefreshed | src/store/canonical-indexing.ts:476-495 | Upsert, record and mark of a refresh, each ending at its own place on an error |
| WritePaths.RecordRefreshed | src/store/canonical-indexing.ts:480-491 | A failed recording of point ids takes the new points out before the error is passed on |
| BareRefresh.RefreshWithoutJobs | src/store/canonical-indexing.ts:438-495 | Without ingest jobs a refresh answers if and only if all its calls do, and is then in step with exactly one chunk for each new text, numbered and in order; otherwise the stores stand after some of its effects and nothing is scheduled that was not |
| BareRefresh.CutBareRefreshIsSafeIff | src/store/canonical-indexing.ts:438-495 | Cut off after n effects it is in step exactly if complete, or without chunks and points |
| BareRefresh.UndoneIsOut | src/store/canonical-indexing.ts:487-491 | With its new points taken out again it is out of step |
| WritePaths.SweepOne | src/compact/ingest-sweeper.ts:81-201 | A sweep completes if and only if the job is still there and all calls answer, and then leaves a record with chunks in step; otherwise it is given up exactly when the claimed count plus one reaches the limit, and after a single failing call the job says so: failed, or pending with the retry time of its new count; no record or job comes or goes |
| WritePaths.TrySweep | src/compact/ingest-sweeper.ts:87-157 | Delete, upsert, record, mark in that order; an error ends at the bookkeeping with the job as claimed |
| WritePaths.RunIngestSweep | src/compact/ingest-sweeper.ts:51-79 | The earliest due jobs are claimed and each is swept once; the three counters are the sizes of the three outcomes and, unless the process dies, add up to scanned; if all calls answer, every claimed job is completed |
| Unarchive.UnarchiveCompaction | src/compact/unarchive-compaction.ts:84-165 | One outcome per id in order; what was live before is never touched whatever fails; a restored id adds one fresh record with the archived fields and, in step, one chunk for each text of its content, numbered and in order, and marks the row; for distinct ids, if each failed restore cost a single failing call and none had a hidden effect, the restored records are all that was added; nothing fails if all calls answer |
| Unarchive.RestoreOne | src/compact/unarchive-compaction.ts:167-292 | The rest of both stores never changes; a restore succeeds if and only if all its calls answer and then adds exactly the row's record; a compensated failure leaves the stores as they were if and only if nothing took effect behind an error |
| Unarchive.UnarchiveNext | src/compact/unarchive-compaction.ts:110-156 | One id of the loop keeps what is promised of all outcomes so far, and fails or dies only if a call did |
| Unarchive.TryRestore | src/compact/unarchive-compaction.ts:190-262 | Says for every outcome where the attempt stands, which points are in the index and whether the row is marked |
| Unarchive.CompensateFailedRestore | src/compact/unarchive-compaction.ts:353-395 | It is done if and only if its calls answer; then the record is gone and, if the points were known to be in the index, so are they; no archive row changes |
| Unarchive.RestoreStaysLocal | src/compact/unarchive-compaction.ts:167-292 | No step of a restore touches another record's chunks, jobs or points, or any row but its own |
| Unarchive.RepeatedIdIsRestoredTwice | src/compact/unarchive-compaction.ts:104-142 | A repeated id whose attempts do not fail is restored as two different live records with equal fields |
| Unarchive.AllRestored | src/compact/unarchive-compaction.ts:104-142 | If every call answers, an id is restored if and only if its row was there, of the organization and not restored yet |
| Unarchive.RestoredStaysRestored | src/store/memory-archive-repository.ts:591-602 | After any further run a row marked as restored is still marked, so no later call restores it |
| Compaction.ApplyCompaction | src/compact/apply-compaction.ts:146-316 | A completed run archived exactly the candidates live in the organization and not updated since plan time, one row each in order, counts each candidate once, and counts as failed cleanups exactly its rows still to be cleaned, up to marks that took effect behind an error; with none failed none of their points is left; no run gives up on a row: each is deleted, pending with a retry time, or without points; a run cut short archived a prefix and nothing else, and its run row says what RowTells says of the call that failed; a completed key is answered from its run row |
| Compaction.ArchiveAndClose | src/compact/apply-compaction.ts:193-291 | The part of it after the run row is there: the loop, and the call that closes the row as completed or failed |
| Compaction.StaysPendingIff | src/compact/apply-compaction.ts:228-239 | A pending run row stays pending after a throw if and only if the call that threw was a status mark, the creation of the row, or a closing of it without effect |
| Scenarios.BareRowReached | src/compact/apply-compaction.ts:229-239 | An archived record without chunks has a pending row without points that is never due |
| Compaction.ArchiveCandidates | src/compact/apply-compaction.ts:201-281 | The loop: what has moved is always a prefix of the eligible candidates, archived plus skipped is the candidate count, qdrantFailed is the number of new rows not marked deleted up to hidden effects, and no row is given up on |
| Compaction.ApplyCandidate | src/compact/apply-compaction.ts:201-281 | One candidate moves exactly when it is eligible; an error of the archiving call may hide that it moved; the new row is deleted, pending with a retry time, or without points |
| Compaction.CleanUpRow | src/compact/apply-compaction.ts:229-280 | Ends clean if and only if its calls answer, with the row marked deleted; otherwise the row is never failed, after a failed vector delete it is pending with a retry time unless a mark took effect behind its error, and after that one failing call it is retried half a minute later |
| Compaction.RunTable.CreateCompactionRun | src/store/memory-archive-repository.ts:151-205 | A known idempotency key returns its row unchanged, a new one inserts a pending run exactly if the statement took effect, under an id no other run has; no other row changes |
| Compaction.RunTable.CompleteCompactionRun | src/store/memory-archive-repository.ts:365-391 | Writes status and counters of this run only, exactly if the statement took effect |
| Outbox.RunOutboxSweep | src/compact/outbox-sweeper.ts:42-76 | The earliest due rows are claimed and each ends in exactly one way, the counters add up to scanned also across organizations, and all are cleaned if and only if every call answers; a row counted cleaned has none of its points left, one counted failed is failed and one counted retried is pending for half a minute later, each with one attempt more than claimed, unless the call that was to mark it did not answer |
| Outbox.GroupRowsByOrganization | src/compact/outbox-sweeper.ts:78-88 | The groups are exactly the rows of each organization, in order |
| Outbox.SweepBatch | src/compact/outbox-sweeper.ts:90-124 | One delete call carrying exactly the batch's points and its organization, then one mark per row; cleaned only if both answered; every row has become what it was counted as, unless the call that was to mark it did not answer |
| Outbox.FlattenPointIds | src/compact/outbox-sweeper.ts:126-128 | Exactly the points listed by some row |
| Outbox.MarkRowFailure | src/compact/outbox-sweeper.ts:148-191 | Given up exactly when the claimed count plus one reaches maxAttempts; if no call fails, exactly that mark has been made, and the row has that status, one attempt more and the retry time, if any, that goes with it; an error of the mark is swallowed; only this row changes |
| Outbox.SweepRow | src/compact/outbox-sweeper.ts:105-121 | A row is counted cleaned only with its delete answered and its mark deleted stored; any other has become what it was counted as, unless its mark did not answer |
| Leases.ClaimsAreLeases | src/jobs/ingest-job-repository.ts:23 | In every run with any number of sweepers, two claims of one job with no mark on it in between are at least the visibility window apart |
| Leases.SettledIsNotClaimed | src/jobs/ingest-job-repository.ts:204-245 | A completed, failed or deleted job is not claimed again unless it is marked first |
| Leases.CleanupClaimsAreLeases | src/store/memory-archive-repository.ts:18 | The same lease for the cleanup outbox |
| Leases.MarksAreCounted | src/store/memory-archive-repository.ts:318-363 | The attempt count of an archive row is the number of its marks in the run, and nothing else moves it |
| RetryBudget.RetriesAreBounded | src/compact/ingest-sweeper.ts:158-201 | In every run whose sweeps start on rows as they are, a job's attempt count is the number of its recorded failures, never exceeds maxAttempts and reaches it exactly when the job is given up |
| RetryBudget.ClaimedSweepIsFresh | src/jobs/ingest-job-repository.ts:204-245 | A sweep begun after its claim, with no mark on the job in between, starts on the row's own count |
| RetryBudget.LeasedRetriesAreBounded | src/compact/ingest-sweeper.ts:158-201 | Hence the budget holds in every run in which sweepers hold the leases of the jobs they sweep |
| RetryBudget.FailureCountsIff | src/compact/ingest-sweeper.ts:159-168 | A recorded failure raises the count by one if and only if the sweeper's snapshot still agrees with the row |
| CleanupBudget.CleanupsAreBounded | src/compact/outbox-sweeper.ts:148-191 | In every run whose marks follow the rule on the row as it is, a row has at most maxAttempts recorded failures, and that many exactly when it is failed |
| CleanupBudget.FailureMarkFitsIff | src/compact/outbox-sweeper.ts:154-157 | A mark decided on a claimed count keeps the budget if and only if the row's own count leads to the same decision |
| CleanupBudget.ApplyMarkFitsIff | src/compact/apply-compaction.ts:266-271 | The compaction's own pending mark follows the rule if and only if the limit is above one |
| CleanupBudget.ClaimedMarkIsFresh | src/store/memory-archive-repository.ts:420-455 | A mark after its claim, with no other in between, is decided on the row's own count |
| CleanupBudget.LeasedCleanupsAreBounded | src/compact/outbox-sweeper.ts:148-191 | Hence for limits above one the budget holds in every run in which sweepers hold the leases of the rows they mark |
| Chunker.ChunkText | src/chunk/chunk-text.ts:54-91 | The streaming loop emits exactly the windows of the closed form, and rejects bad parameters in the source's order |
| Chunker.PushChunk | src/chunk/chunk-text.ts:93-112 | Appends the slice of the text from the first token to the last |
| Chunker.TokensAreRuns | src/chunk/chunk-text.ts:66 | The tokens are exactly the maximal runs of non-space characters, and every such character is in one |
| Chunker.MoreWindowsIff | src/chunk/chunk-text.ts:79-88 | There is a further window exactly when the one before does not reach the last token |
| Chunker.NeighboursShareOverlap | src/chunk/chunk-text.ts:60-84 | Neighbouring windows share exactly the overlap, and every window but the last is full |
| Chunker.EveryTokenCovered | src/chunk/chunk-text.ts:54-91 | Every token is in some window |
| Chunker.NothingIsDropped | src/chunk/chunk-text.ts:54-91 | Every non-space character of the text is inside some chunk |
| Chunker.NoChunkInsideAnother | src/chunk/chunk-text.ts:54-91 | A later chunk starts later and ends later than an earlier one |
| Chunker.MeetsWriteContract | src/store/canonical-indexing.ts:1018-1048 | Every chunk meets what the chunk insert demands: consecutive indices, ordered offsets, text between them, not blank |
| Chunker.NoChunksIffBlank | src/chunk/chunk-text.ts:87-89 | A text has no chunks if and only if it is blank |
| RateLimiter.Limiter.CheckKey | src/app/middleware/rate-limit.ts:51-101 | Decision and new state are those of the bucket machine, sweep included |
| RateLimiter.Limiter.SweepStaleBuckets | src/app/middleware/rate-limit.ts:144-155 | Deletes exactly the buckets idle for a window |
| RateLimiter.CreateTokenBucketLimiter | src/app/middleware/rate-limit.ts:33-48 | Rejects the options the source rejects, in its order, and starts empty |
| RateLimiter.SweepingIsInvisible | src/app/middleware/rate-limit.ts:61-101 | With a clock that does not go back, every decision equals that of a limiter that never deletes a bucket |
| RateLimiter.BucketsAreRecent | src/app/middleware/rate-limit.ts:144-155 | After every check each stored bucket was touched within the last two windows |
| RateLimiter.RateBound | src/app/middleware/rate-limit.ts:66-87 | Between any times s and e a key is allowed at most capacity + (e - s) * capacity / windowMs requests |
| RateLimiter.RetryAfterIsExact | src/app/middleware/rate-limit.ts:89-99 | After a denial, whatever other keys do, the key's request d milliseconds later is allowed if and only if d has reached retryAfterMs |
| RateLimiter.RemainingIsExact | src/app/middleware/rate-limit.ts:66-87 | After an allowed request exactly remaining more of the key would be allowed at the same instant |
| Semantic.CosineSimilarity | src/compact/semantic-duplicates.ts:26-55 | One pass over both vectors gives their cosine, 0 for a zero vector, and rejects different lengths |
| Semantic.DotAt | src/compact/semantic-duplicates.ts:43-51 | The dot product grows with each coordinate by the other vector's; with its value 0 on the zero vector this leaves one function |
| Semantic.CosineIs | src/compact/semantic-duplicates.ts:52-55 | The cosine of two non-zero vectors, times their lengths, is their dot product |
| Semantic.CauchySchwarz | src/compact/semantic-duplicates.ts:26-55 | The square of the dot product is at most the product of the squared norms |
| Semantic.CosineRange | src/compact/semantic-duplicates.ts:26-55 | Cosine similarity lies in [-1, 1] |
| Semantic.SelfCosine | src/compact/semantic-duplicates.ts:26-55 | A non-zero vector has similarity 1 to itself |
| Semantic.FindSemanticDuplicates | src/compact/semantic-duplicates.ts:57-115 | The nested loops compute the greedy clustering and its groups, with the source's errors |
| Semantic.ClustersPartition | src/compact/semantic-duplicates.ts:74-97 | The clusters partition the embedded records; each member reaches the threshold against its cluster's first record and no member of a later cluster does against an earlier first record |
| Semantic.ClusteringFailsIff | src/compact/semantic-duplicates.ts:74-97 | Clustering fails if and only if two of the vectors differ in length |
| Semantic.EqualVectorsShareCluster | src/compact/semantic-duplicates.ts:74-97 | Records with equal non-zero vectors share a cluster for every threshold up to 1 |
| Duplicates.KeepRule | src/compact/detect-duplicates.ts:35-42 | A group keeps the highest importance and then the lowest id, and archives the rest of its cluster in that order |
| Duplicates.FindExactContentDuplicates | src/compact/detect-duplicates.ts:21-44 | The Map of growing buckets yields one group for each class of two or more, in order of first appearance |
| Duplicates.GroupedIffSameContent | src/compact/detect-duplicates.ts:21-44 | Two records are in one group if and only if their normalised contents are equal |
| Sorting.SortByIsSorted | src/compact/detect-duplicates.ts:39 | Sorting by a comparator gives the same elements in order |
| Sorting.SortByIsStable | src/search/retrieve-memory.ts:79-83 | Elements that compare equal stay in the order in which they came |
| CompactionPlan.PlanCandidates | src/compact/compact-memory.ts:52-99 | From loaded records to candidates: distinct, each justified, and a record is a candidate if and only if its group archives it or it scores below the decay threshold |
| CompactionPlan.FindDuplicates | src/compact/compact-memory.ts:61-67 | Semantic groups replace exact ones, and either way every record is in at most one group behind one of at least its importance |
| CompactionPlan.BothDetectorsFit | src/compact/compact-memory.ts:61-67 | Both detectors put distinct records in disjoint groups, each archived one behind a kept one that precedes it |
| CompactionPlan.PlanIsSound | src/compact/apply-compaction.ts:322-352 | A duplicate names a kept record of its group with at least its importance that is not itself archived as a duplicate; a decay candidate scores below the threshold and is no duplicate |
| CompactionPlan.KeptIsArchivedIff | src/compact/apply-compaction.ts:341-349 | The kept record of a group is archived if and only if it has decayed below the threshold |
| CompactionPlan.CollectArchiveCandidates | src/compact/apply-compaction.ts:322-352 | Each id once, duplicates before decay, and every archived member and decayed record is there |
| CompactionPlan.FindDecayCandidates | src/compact/decay-score.ts:66-93 | Exactly the records below the threshold with their scores, most decayed first |
| CompactionPlan.NoPinnedLoaded | src/store/memory-repository.ts:410-450 | A compaction load holds only rows of its scope and organization, none archived and none pinned to a goal run active at load time |
| CompactionPlan.LeftOutOfLoad | src/store/memory-repository.ts:410-450 | A row of the scope that is neither archived nor pinned is left out of a load only if newer ones fill the limit |
| CompactionPlan.NoPinnedCandidate | src/store/memory-repository.ts:426-433 | No stored row with the id of a candidate is pinned to a run that was active at load time |
| CompactionPlan.PlanCompaction | src/compact/tool-handlers.ts:89-110 | From stored rows through the load to the candidates: exactly the planned ones of the load, none of them pinned |
| CompactionPlan.LoadedAreDistinct | src/store/memory-repository.ts:410-450 | A load of rows with distinct ids has distinct ids, as planning demands |
| Retrieval.RetrieveMemory | src/search/retrieve-memory.ts:38-120 | Whatever the index answers, the results are the first limit of the ranking of the last answer for each id, hydrated or lexical; scores, ranks and recency are exactly those of the hits, the matches and the records found; distinct, project before user, fused scores in [0, 1]; a record that follows another is worse than it in scope, kind, source, genericness, age or one of the scores, or equal in all of them with a lower id |
| Retrieval.BetterStandsFirst | src/search/rank-results.ts:131-162 | Of two ranked records the one that is nowhere worse and somewhere better stands first: project before user, decision before summary before fact, decided before written before said, specific before generic, later before earlier, higher vector or lexical score before lower or none |
| Retrieval.WeightsAre | src/search/rank-results.ts:8-35 | The weights of kind, source and genericness: 50 and 25 points between kinds, 15 and 15 between sources, 35 off for a generic note, 45 for the least of all |
| Retrieval.RecencyIs | src/search/rank-results.ts:417-430 | A record loses one point for each full day it is older than the newest, until it has lost all twenty-five |
| Retrieval.ScoresAreWorth | src/search/rank-results.ts:432-461 | A source's score is worth fifty points in proportion, and no score none |
| Retrieval.HitIdsInOrder | src/search/retrieve-memory.ts:285-301 | A hit of a record not seen before adds its id right behind those seen before it |
| Retrieval.LastAnswerCounts | src/search/retrieve-memory.ts:80-88 | Of several answers with one id the last one counts |
| Retrieval.UniqueMemoryRecordIds | src/search/retrieve-memory.ts:285-301 | The record ids of the hits, each once |
| Retrieval.MaxVectorScoresByRecordId | src/search/retrieve-memory.ts:303-320 | Each record's best score over its hits |
| Retrieval.ScoreLexicalRecords | src/search/retrieve-memory.ts:336-355 | Exactly the records that match at all, with their scores |
| Retrieval.RankMap | src/search/retrieve-memory.ts:366-376 | Ranks are the positions in the list, from 1 |
| Retrieval.FusedIsUnit | src/search/retrieve-memory.ts:378-408 | Fused scores lie in [0, 1] |
| Retrieval.FusedIs | src/search/retrieve-memory.ts:378-408 | A score in range counts in full for the first of its source, and for the k-th by 61 parts of 60 + k |
| Retrieval.FusionKeepsOrder | src/search/retrieve-memory.ts:378-392 | Fusion never reverses two scores of one source, and separates them exactly when the better one is above zero |
| Retrieval.ProjectBeforeUser | src/search/rank-results.ts:131-162 | Every project record outscores every user record for all source scores in range, kinds, source types, penalties and ages |
| Retrieval.RankingIsCanonical | src/search/rank-results.ts:194-213 | The ranking does not depend on the order in which candidates were found |
| Retrieval.OneAnswer | src/search/retrieve-memory.ts:75-119 | What is promised of a retrieval leaves exactly one ranking for each input |
| Retrieval.NewestUpdatedAt | src/search/rank-results.ts:188-192 | The latest update among the records found |
| VectorAdapters.BuildQdrantMust | src/vector/qdrant-index.ts:42-66 | The clauses select exactly the points of the filter's trimmed organization, unless that is empty, with the trimmed type of every scope and its trimmed id or, for a project scope with a project key, the trimmed key; it is rejected exactly for a blank organization, no scopes, a bad scope or a blank key, the first of these counting |
| VectorAdapters.TrimStrips | src/vector/organization-id.ts:55-64 | Trimming takes the spaces at both ends and nothing else; a value is blank exactly if it is all spaces |
| VectorAdapters.BuildPgVectorSelect | src/vector/pgvector-index.ts:307-370 | WHERE and its numbered placeholders select exactly the points the raw filter asks for in the same words, with the same rejections; every placeholder is bound, the vector is the first and the limit the last |
| VectorAdapters.BuildInsert | src/vector/pgvector-index.ts:216-262 | One statement stays within 65535 parameters and its placeholders insert exactly the batch |
| VectorAdapters.ParamsRoundTrip | src/vector/pgvector-index.ts:222-243 | The fourteen parameters of a row determine its point |
| VectorAdapters.PgVectorTable.Upsert | src/vector/pgvector-index.ts:190-305 | All batches or none; what it leaves is what one upsert of all points leaves; it succeeds if and only if no statement fails and no id repeats within a batch |
| VectorAdapters.UpsertedRow | src/vector/pgvector-index.ts:216-262 | After an upsert an id that was in it holds its last row |
| VectorAdapters.KeptRow | src/vector/pgvector-index.ts:216-262 | and any other id what it held before |
| VectorAdapters.DistinctIdsMakeDistinctBatches | src/vector/pgvector-index.ts:64 | Distinct ids always succeed, and up to one batch only they do |
| VectorAdapters.PgVectorTable.Delete | src/vector/pgvector-index.ts:413-427 | The port's delete: given ids within the given organization, same errors in both adapters |
| VectorAdapters.PgVectorTable.DeleteByRecordIds | src/vector/pgvector-index.ts:429-449 | The port's delete by record |
| VectorAdapters.QdrantCollection.Upsert | src/vector/qdrant-index.ts:88-109 | The same map update in one request |
| VectorAdapters.QdrantCollection.Delete | src/vector/qdrant-index.ts:134-156 | The selector, a list of ids or a filter, removes the same points with the same errors as the SQL adapter |
| VectorAdapters.QdrantCollection.DeleteByRecordIds | src/vector/qdrant-index.ts:158-189 | The filter on record ids removes the same points as the SQL adapter |
| Reindex.TwoStores.ReindexCanonicalMemory | src/store/canonical-indexing.ts:639-709 | It answers if and only if all its calls do, and then leaves the closed form, the same for every batch size, and counts the chunks in scope; a failure touches only index entries and point ids of records in scope |
| Reindex.TwoStores.ClearAll | src/store/canonical-indexing.ts:654-660 | The first pass clears the records of every chunk in scope; cut short, those of a prefix |
| Reindex.TwoStores.IndexAll | src/store/canonical-indexing.ts:669-706 | The second pass indexes and records every chunk in scope once |
| Reindex.PageIsNext | src/store/canonical-indexing.ts:265-325 | Each page is the next stretch of the ids in scope, so paging visits each once in id order and ends |
| Reindex.VisitedIff | src/store/canonical-indexing.ts:265-325 | A chunk is visited exactly if its record is there, of the organization, and in one of the scopes by type and id |
| Reindex.BatchSize | src/store/canonical-indexing.ts:741-749 | A batch size below 1 is rejected, one up to 5000 taken as it is, a greater one cut to 5000; 500 is the default |
| Reindex.ReindexedIsInStep | src/store/canonical-indexing.ts:670-706 | After a reindex every record with a chunk in scope is in step, also when it spans pages |
| Reindex.CutReindexLosesPoints | src/store/canonical-indexing.ts:666-669 | Cut short between its passes, a reindex leaves each record in scope out of step, and scheduled only if it was before |
| GoalRuns.Repository.RecordIteration | src/goal-run/goal-run-repository.ts:128-216 | Commits counter, iteration and links together or leaves all tables as they were; the links go to exactly the listed memories of the run's organization; a failing statement changes nothing, and only a COMMIT whose answer is lost leaves changes behind a failure; when none fails it is refused exactly for a missing, foreign or closed run |
| GoalRuns.Repository.StartRun | src/goal-run/goal-run-repository.ts:92-126 | A fresh active run without iterations, or nothing unless the answer was lost |
| GoalRuns.Repository.CloseGoalRun | src/goal-run/goal-run-repository.ts:293-324 | Closes an active run of the organization once; otherwise nothing changes unless the answer was lost |
| GoalRuns.ReachableIsSound | src/goal-run/goal-run-repository.ts:128-216 | In every reachable state the iterations of a run carry exactly the indices 1 to its count, and it has a closing time exactly when it is not active |
| GoalRuns.ClosedRunsAreFinal | src/goal-run/goal-run-repository.ts:293-324 | Whatever follows, the row and the iterations of a closed run never change |
| LikePattern.MatchesIffOccurs | src/store/memory-repository.ts:1088-1090 | A text matches the pattern built for a value if and only if the value occurs in it, whatever characters it has |
| LikePattern.MatchesIffOccursFolded | src/store/memory-repository.ts:343-348 | Under ILIKE, for every folding of single characters that spares the special ones, if and only if it occurs up to case |
| LikePattern.EscapedIsLiteral | src/store/memory-repository.ts:1088-1090 | Escaped text in front of any pattern matches exactly itself |

## Left out

Weaker than the source in a named respect:

- Deployment.Stores.ClaimPendingForRetry: rows locked by other transactions are a parameter; the transactions holding them are not modelled.
- WritePaths.WriteCanonicalMemory: the guarantee after a failure is per record and outside the gap; the secret scan and the blank-content check before the first call are not modelled.
- WritePaths.RefreshCanonicalMemoryIndex: with ingest jobs; BareRefresh has the variant without them. The chunks are embedded before the first call and enter as their texts.
- BareRefresh.RefreshWithoutJobs: with a chunk repository that replaces in one transaction; the fallback of a delete and an insert for one that cannot is left out. Nobody else changes the stores meanwhile.
- WritePaths.SweepOne: the bookkeeping's own error after a failed sweep counts as the outcome the source returns, as in the source, although the row may not say so.
- Unarchive.UnarchiveCompaction: the three summary counts are not returned.
- Unarchive.RestoreOne: a point id recorded by a restore names the record; payload fields of the point beyond record, organization and text are not modelled.
- Compaction.ApplyCompaction: the rate limit (a check before the insert, not atomic with it), dry runs, the promotion list and the counts of deleted and pending points are left out; acquireScopeLock is not called by the source.
- Outbox.RunOutboxSweep: the order of a Map's groups is left open; every order is covered.
- RetryBudget.RetriesAreBounded: sweeps must start on the row as it is; LeasedRetriesAreBounded derives that from the leases, FailureCountsIff says what happens otherwise.
- CleanupBudget.CleanupsAreBounded: marks must be decided on the row as it is; LeasedCleanupsAreBounded derives that from the leases, FailureMarkFitsIff says what happens otherwise.
- Guarantees.CleanupNeverForgotten: archiving a record while an attempt on it is under way is outside the machine; such an attempt can put points in the index that no row lists.
- Reindex.TwoStores.ReindexCanonicalMemory: over a canonical store that does not change meanwhile; reindexing is not a step of the machine, so its overlap with ingest is not covered.
- CompactionPlan.PlanCandidates: normalisation of content and the decay score are any functions; the promotion list and the texts of the plan are left out.
- Retrieval.RetrieveMemory: lexical scores, generic-text detection and the index's approximate search are any answers; the reasons listed beside a score are left out.
- VectorAdapters.PgVectorTable.Upsert: vectors and payload texts are opaque values; the type checks of each field and ensureCollection are left out.
- LikePattern.MatchesIffOccursFolded: folding is character by character; foldings that change the length of a text are not modelled.

Not modelled:

- HTTP server, MCP wiring, CLI, configuration, bearer and OAuth checks, metrics, logging: plumbing.
- Embedding providers, entity extraction and secret scanning: deterministic functions outside both stores; an embedding call is a step that may fail.
- Timers of the sweeper loops: claims and sweeps may happen at any time.
- One clock reading per operation: where the source reads the clock for each call of an operation, the model uses one value; between operations clocks are arbitrary, also backwards, except in the rate limiter.
- Order and repetition inside stored point id arrays: they are sets.
- Trimming of organization ids in the write paths; it is modelled in the vector adapters.
- JavaScript's rounding: scores, similarities and tokens are reals.
- Goal run get and list, memory search, tags, entities and the graph: reads, or tables no property here depends on.
- Deleting or archiving a single memory through the governance routes: other callers of the repository.
