# EgressView Hub: proofs about its stores, restores, queues and roll-ups

EgressView Hub keeps what agents and routers report in SQLite, backs that database up, restores
it when it is damaged, and rolls its rows up for charts. This project models the protocols inside
it and proves what they keep, over every run, every failing file operation and every crash.
`dafny verify dfyconfig.toml` checks all of it.

A table is a map from primary key to row, and a SQL statement is one set or map operation. Code
that waits is modelled as atomic steps between its waits, in any interleaving. A function of the
source that updates state is a class here, whose methods are proved against functions on values;
the main results are lemmas about those functions and the runs built from them. Clocks, random
values and callbacks are parameters or unconstrained.

| module | source | about |
|---|---|---|
| `Retries`, `AgentIngest`, `AgentRollup`, `AgentIngestStore` | `src/agent-ingest-store.js` | uploads in chunks that die and come back, the hourly roll-up, budgeted retention |
| `Files`, `DbRestore` | `src/db-restore.js` | the startup restore, with every call allowed to fail and a crash allowed anywhere |
| `DbReplace`, `BackupRestore`, `BackupFlights` | `src/backup.js` | replacing a live database, the safety backup and rollback, one backup and one restore at a time |
| `DbWorkerHost` | `src/db-worker-host.js` | requests to a thread that hangs, dies and is replaced |
| `AgentIdentities` | `src/agent-identities.js` | code, request, approval, one-time claim, rotation, revocation |
| `BackupInventory` | `src/backup-inventory.js` | the prune planner |
| `AgentAppDaily`, `ConnectionBuckets` | `src/agent-app-daily.js`, `src/connection-buckets.js` | folding hours into days, counting flows per window |
| `BeaconDetector` | `src/beacon-detector.js` | medians, gaps and the span guard |
| `PlaceholderRows` | `src/agent-placeholder-rows.js` | moving a row in table and cache at once |
| `EnrichmentQueue` | `src/enrichment-queue.js` | two priorities, one runner |
| `PaxHeaders`, `Provenance`, `Decimals` | `scripts/verify-offline-bundle.js`, `scripts/build-provenance.js` | the tar header walk, the DSSE encoding |

## Where a promise does not hold as stated

- Resending an upload. The comment at `src/agent-ingest-store.js:156-161` takes a resend to be
  harmless. `RetriesConvergeIff` says exactly when it is, after whichever chunks the attempts die:
  when at no chunk end a refused report would close the row its id has by then. Two batches where
  one does: `DIVERGENT`, a report from an unknown collector, then a storable one under the same id,
  whose resend writes what was refused; and `FAILING`, whose resend completes the row with a value
  that breaks a column check. That error is outside the `try` (`src/agent-ingest-store.js:311-320`,
  `363-371`), so the chunk is rolled back and the upload fails, every time it is sent again. Only a
  direct caller of `storeBatch` can send either; the upload route refuses such a report before
  (`src/agent-ingest-schema.js:56-84`, `src/routes/agents.js:693`), and with the reports it lets
  through retries converge and nothing is rejected (`AcceptableUploadsConverge`).
- A batch resent while its first copy is still being stored. Both are stored; the one that ends
  last finds the primary key of its receipt taken and fails, although all its rows are in (the
  result `Conflict` of `StoreBatch`).
- The daily fold. A past day without hourly rows is never marked as folded, so with one day per
  tick it is chosen again on every tick. `DayIsCaughtUpIff` says exactly when the ticks of a day
  get to today: when every outstanding day that another outstanding day follows has hourly rows.
  One day without rows is enough to stop the fold (`OneEmptyDayStallsTheFold`), on that day and on
  every later one while the rows before it are kept (`GapBlocksEveryDay`). And a day that has ended
  is not rebuilt once anything was folded for it, so what arrives late in its last hours is left
  out unless it lies in what was folded (`DayOverIsExactIff`).
- Opening the database thread. `open` leaves what is pending with the thread held if and only if
  nothing is pending (`OpenIsSafeIff`). Otherwise the host no longer notices the death of the
  thread the requests were posted to (`OpenOrphans`); its reply or their own timers still settle
  them, once (`OrphansStillSettle`).
- A router window is folded once, unless retention ran with a clock far ahead of a later pass's and
  the process was started again in between (`ClockFarBackFoldsAgain`).
- The roll-up covers its source while the hourly rows are trimmed if and only if each upload that
  arrives then is recent or feeds an hour with a recent sighting (`LateUploadUncoversIff`); before
  and after that, uploads of any age are harmless. The upload route checks ages when a request
  starts (`src/agent-ingest-schema.js:119-139`), and a pass takes its bound from the clock later,
  so the condition can fail by the time between the two.
- The tar walk ends if and only if no size leads it back to a header it has read
  (`EndsIffNeverReturns`). A first size field of "-0000001000" keeps it for ever
  (`MinusOneBlockNeverEnds`); a first size of -1024 or less ends it at once (`BackwardFirstSize`);
  it is enough that no block reads as a size of -512 or less (`ForwardSizesEnd`).
- The host reported of a beacon is that of the group's first event; it depends on the order of the
  events unless all of them agree (`HostIsStableIff`).
- The planner's choice between the two kinds in its space phase is never taken: all unprotected
  migration snapshots are gone by then (`src/backup-inventory.js:209-211`), so the model's loop
  takes normal generations.
- The beacon detector's span guard never rejects anything that reaches it (`SpanGuardNeverRejects`).

## Model

| member | source | states |
|---|---|---|
| `AgentIngest.CompletingGrows` | src/agent-ingest-store.js:178-202 | A closing report changes the stored row, only forward, and a second copy of it no longer counts as closing |
| `AgentIngest.RowsOnlyFillUp` | src/agent-ingest-store.js:290-380 | Over every sequence of reports from any batches no stored row goes away, its identity and first time never change, its last time only grows, and counts, local endpoint and host name are written once |
| `AgentIngest.HandledOnceIsNoOpEverAfter` | src/agent-ingest-store.js:168-202 | A report handled against a row once is a duplicate that changes nothing ever after, whatever other reports came between and in whatever batch it returns |
| `Retries.AttemptsConvergeIff` | src/agent-ingest-store.js:382-387 | Work sent in chunks, each committed whole or rolled back, by attempts that die after any chunk and start over: they always converge if and only if no chunk that is in changes anything, or fails, when it comes again |
| `AgentIngest.RetriesConvergeIff` | src/agent-ingest-store.js:146-162 | However often an upload dies, and after whichever chunks, its tables are those of one uninterrupted attempt as far as the furthest got, and it fails only where that one would, if and only if at no chunk end a report refused before would close the row that the reports of its own id have left by then |
| `AgentIngest.AcceptableUploadsConverge` | src/agent-ingest-store.js:146-162 | With reports that pass the column checks, as the upload route lets through, retries always converge, no attempt fails and no report is refused |
| `AgentIngest.ResendChangesNothingIff` | src/agent-ingest-store.js:290-380 | Sending a list of reports, none of which throws, changes a table if and only if one of them, taken alone, would write; a change is never undone by a later report of the list |
| `AgentIngest.FullResendConvergesIff` | src/agent-ingest-store.js:389-409 | A batch that was stored and is sent again in full changes nothing and does not fail exactly when no report refused before is now the closing report of the row stored under its id |
| `AgentIngest.RefusedThenCompletesDiverges` | src/agent-ingest-store.js:363-371 | The batch `DIVERGENT`, sent twice, leaves other tables than sent once |
| `AgentIngest.RefusedThenThrowsFails` | src/agent-ingest-store.js:311-320 | The batch `FAILING` is stored the first time; sent again it breaks a column check in the completion, which is not caught, so the chunk is rolled back and the upload fails each time |
| `AgentIngest.RowsStayStorable` | src/db-migrate.js:758-790 | Over every sequence of reports whatever is stored keeps to the column constraints |
| `AgentIngest.AcceptedIff` | src/db-migrate.js:758-790 | A report of an unknown id opens a row exactly when every field is one the schema takes, each limit spelled out, and is refused otherwise |
| `AgentIngest.ByteCountIff` | src/db-migrate.js:778-790 | The text check on a byte count, length, digits, leading zero and text comparison, lets through exactly the decimal texts of the numbers of 64 bits |
| `AgentIngest.AcceptedRowSaysItsReport` | src/agent-ingest-store.js:339-363 | Every column of a row an upload opens holds the field of that name of its report, the batch id the envelope's, and no other row changes |
| `AgentIngest.CompletedRowSaysItsReport` | src/agent-ingest-store.js:178-202 | What a closing report leaves: its counts, the later end, its endpoint exactly when the stored one said nothing and its own does, its host name where there was none, and all else as it was |
| `AgentIngest.ClosesIff` | src/agent-ingest-store.js:168-202 | A report of a known id closes the row, or throws trying, exactly when it is of the same connection, the row has no counts, and it brings counts, a later end or a missing endpoint |
| `AgentIngest.WritingFeedsItsHour` | src/agent-ingest-store.js:264-281 | What is written feeds one hourly row, that of its app and endpoints in the hour of its last sighting, whose times widen to the row's; no other changes |
| `AgentRollup.RollupCoversEveryRun` | src/agent-ingest-store.js:264-281 | After any interleaving of uploads of any age, prune batches, hour pieces and aborted passes, every stored observation lies inside the hourly row of its current endpoint, app and last-seen hour, and every hourly row was last seen in its own hour; only what arrives while hours are trimmed must be harmless |
| `AgentRollup.TrimmingIsSafeIff` | src/agent-ingest-store.js:547-577 | From any sound tables: deleting hourly rows behind the bound uncovers nothing, whichever go, if and only if every observation's hourly row was seen at or after it |
| `AgentRollup.LateUploadUncoversIff` | src/agent-ingest-store.js:264-281 | An upload of any age during the trim: nothing is uncovered, whichever rows go, if and only if it writes nothing, or what it writes is recent, or its hour has a recent sighting already |
| `AgentRollup.LateOldUploadUncovers` | src/agent-ingest-schema.js:119-139 | Into empty tables any storable report older than the bound is such an upload, and the trim uncovers it: the age check is needed |
| `AgentRollup.RowsAddUp` | src/agent-ingest-store.js:511-545 | With any uploads between its transactions a pass accounts for every row: rows at the end plus rows deleted are the rows at the start plus the rows accepted |
| `AgentRollup.SweepIsExact` | src/agent-ingest-store.js:511-545 | Once a sweep is over, with any uploads between its batches: of the rows no upload mentioned meanwhile exactly those within the bound are there, as they were; so an expired row that is there was mentioned |
| `AgentRollup.PassKeepsRecentRows` | src/agent-ingest-store.js:511-577 | However a pass ends and whatever arrives, no row within the bound goes; it only fills up |
| `AgentIngestStore.TallyAddsUp` | src/agent-ingest-store.js:283-380 | Accepted plus duplicate plus rejected is the number sent, with any uploads and retention passes interleaved |
| `AgentIngestStore.RowsAreCountedOnce` | src/agent-ingest-store.js:283-380 | With uploads and retention passes interleaved, the rows there are plus those retention took are those before plus those this upload counts as accepted plus those the others do: no row is counted by two |
| `AgentIngestStore.TallyIsEffects` | src/agent-ingest-store.js:283-380 | Each count is what was done to the tables: accepted are the reports that opened a row, completed those that filled one in, duplicate those that met a row, rejected those that left none |
| `AgentIngestStore.OwnTurnsAreTheUpload` | src/agent-ingest-store.js:382-387 | Cut into chunks with others between, the upload's reports are all written, once, in order |
| `AgentIngestStore.UploadIsItsTurns` | src/agent-ingest-store.js:382-387 | The tables and counts of an upload that has not failed are what its own turns and those between them do, one after the other |
| `AgentIngestStore.UndisturbedIsAnAttempt` | src/agent-ingest-store.js:382-387 | With nobody between its chunks an upload is an attempt of the convergence theorem, failing where that one does |
| `AgentIngestStore.NoRefusalStoresAll` | src/agent-ingest-store.js:389-409 | With nothing rejected, the condition for a receipt, every report sent is stored, or was until retention took its row |
| `AgentIngestStore.AcceptableUploadIsNeverRefused` | src/agent-ingest-store.js:389-409 | An upload of acceptable reports counts no rejection, so it meets the condition for its receipt |
| `AgentIngestStore.AcceptedIdsAreNew` | src/agent-ingest-store.js:363-380 | An id reported as accepted was not stored for the agent before and is now, unless retention took its row meanwhile; one that became stored was reported, or another upload stored it |
| `AgentIngestStore.AcceptedRowsSayWhatWasSent` | src/agent-ingest-store.js:363-380 | Each id reported as accepted has a row that holds what a report of this upload says of it, or retention took it |
| `AgentIngestStore.ClosedRowsKeepTheirCounts` | src/agent-ingest-store.js:178-202 | A closing report's counts are in its row at the end of the upload, whatever others do meanwhile, or retention took the row |
| `AgentIngestStore.AgentIngestStore.StoreBatch` | src/agent-ingest-store.js:222-449 | With any uploads and retention passes between its chunks: a known batch is replayed from its receipt; an upload that dies has written exactly the chunks committed and no receipt; one whose report throws fails with the chunks before it written and that one rolled back; one that finishes has written all, counts everything, leaves a receipt with its counts only if nothing was rejected and no copy of it left one first, and the rows of the ids it accepted say what was sent |
| `AgentIngestStore.AdaptPruneBatch` | src/agent-ingest-store.js:468-472 | A batch slower than the target halves the size, one at least four times as fast doubles it, any other leaves it, within the two limits |
| `AgentIngestStore.AgentIngestStore.SweepObservations` | src/agent-ingest-store.js:511-545 | The observation phase removes only expired rows and exactly their links and counts them right; each batch has the size those before it led to, a full one is followed by a look at the clock, and `more` is answered exactly when such a look finds the time used up; else none is left |
| `AgentIngestStore.AgentIngestStore.TrimHours` | src/agent-ingest-store.js:550-577 | The hourly phase, hour by hour in pieces, removes only rows past the bound and, unless the clock stops it after a piece, all of them, though it stops looking at the first hour that starts at the bound |
| `AgentIngestStore.AgentIngestStore.DropReceipts` | src/agent-ingest-store.js:581-608 | The receipt phase never removes a receipt an observation points at and, unless the clock stops it after a piece, leaves no old unreferenced one |
| `AgentIngestStore.AgentIngestStore.PruneObservations` | src/agent-ingest-store.js:491-613 | A pass terminates for any clock, reports exactly the rows it removed, keeps the roll-up covering its source; `more` means that a reading of the clock, after a transaction and after the first reading, was at least the budget later, so with a clock that does not get there nothing expired is left; batches and pieces have the sizes the clock, the limits and the last pass make them |
| `DbRestore.PreparingIsSafe` | src/db-restore.js:150-228 | At every instant before the swap the bytes of the damaged main file, -wal and -shm are under their own or their second name and the main file is untouched |
| `DbRestore.SwapIsSafe` | src/db-restore.js:229-247 | The one rename puts a verified copy in place with no -wal or -shm beside it, and every damaged file still has its second name |
| `DbRestore.Restore.RestoreFromCandidates` | src/db-restore.js:150-259 | Under any failures, every state the disk passes through is safe, so every crash is; on success the first candidate that verified is in place; on failure the live files are as they were except those the error names; each candidate passed over could not be copied or did not verify, it gives up on one that verified only after a link, an unlink or the rename failed, the files named are those whose link back failed, and nothing is left behind that could be removed |
| `DbRestore.NothingFailedRestores` | src/db-restore.js:150-259 | If no call fails, the first candidate whose bytes pass is restored, and only if there is none does the start fail closed, with everything as it was and nothing left behind |
| `Files.FileSystem.Copy` | src/db-restore.js:160-168 | A copy may fail before or halfway; whatever it leaves, only the target's own bytes differ |
| `DbReplace.PreparingIsSafe` | src/backup.js:128-140 | Before the swap the old main file is untouched and each sidecar is under one of its two names |
| `DbReplace.SwapStandsAlone` | src/backup.js:136-141 | The swap puts the checked copy in place with no -wal or -shm beside it and changes no backup |
| `DbReplace.Replacement.Replace` | src/backup.js:120-160 | At every instant the old database is whole or a checked copy stands alone; an error before the swap leaves the old one with only the sidecars it names elsewhere; after a return the prepared copy of the source is in place; an error has a call that failed behind it, or a copy that does not pass, and the files it names are those whose move back failed |
| `DbReplace.NothingFailedReplaces` | src/backup.js:120-160 | If no call fails, the database is replaced exactly when the prepared copy passes the check; otherwise it is as it was; and none of the replacement's own names is left |
| `BackupRestore.BackupService.RunBackup` | src/backup.js:239-289 | A backup gets its name only with the checked snapshot in it, taken now or by the run joined; a failed one leaves no file under that name; nothing else changes at any instant; and if no call fails it is made exactly when there is a database, room, and a snapshot that passes |
| `BackupRestore.BackupService.Rollback` | src/backup.js:374-388 | A rollback that ends leaves the safety copy's bytes alone in place, or, without a database before, no sidecar and no main file but one that could not be removed; whatever happens the safety copy itself is kept |
| `BackupRestore.BackupService.RestoreFromFileOnce` | src/backup.js:338-396 | A refused restore changed nothing; any failure after the replacement began ends with the safety content in place unless the rollback failed, and then it is still in its backup; at every instant the database is as at the start or the safety backup is complete; if no call fails it ends as `Undisturbed` says: refused without a good source or a safety backup, else restored, or rolled back if what it prepares does not pass; and exactly the hooks of that ending are called, in their order |
| `BackupFlights.OneOfEachAtATime` | src/backup.js:168-183 | Over every interleaving at most one backup and one restore are under way and the flags name them, although a finished run clears the flag whoever set it |
| `BackupFlights.NoBackupOverlapsAReplacement` | src/backup.js:168-183 | Over every interleaving, while an existing database is replaced or rolled back no backup runs and its checked safety backup exists |
| `BackupFlights.ReplacingFollowsTheSafetyBackup` | src/backup.js:350-358 | Replacing an existing database begins only out of a settled wait for a backup that was made, with no backup under way |
| `BackupFlights.OnlyTheSafetyBackupStarts` | src/backup.js:168-183 | While a restore is in flight at most one backup starts, its own safety backup, and the run it waits for never changes |
| `BackupFlights.OneRunAtATime` | src/backup.js:177-182 | Until a backup has settled every caller gets that run and no other begins |
| `BackupFlights.CallsAreAnswered` | src/backup.js:168-183 | Over every run: a backup starts exactly when none is unsettled and no restore is under way, a restore exactly when none is; a bad source or a failed safety backup ends it, a restore without a database goes on without one |
| `BackupFlights.Flights.CreateBackup` | src/backup.js:168-183 | Refused during a restore unless for it, shared when one runs, else a new run |
| `DbWorkerHost.SettledExactlyOnce` | src/db-worker-host.js:49-169 | Over every interleaving of requests, replies, timeouts, thread deaths, closes and opens at any time each request is pending or was settled by exactly one call, without a thread nothing is pending, and what is pending was posted to a thread |
| `DbWorkerHost.OutcomesFollowEvents` | src/db-worker-host.js:61-169 | Over every run: a promise is resolved or rejected as the reply that settled it says, times out exactly by its own timer, is told the thread is gone exactly when the host let it go for another reason, and counts as closed exactly if it was a close |
| `DbWorkerHost.SettlesIff` | src/db-worker-host.js:61-169 | What is pending is settled by its own reply, by its own timer and whenever the host lets its thread go, and by nothing else |
| `DbWorkerHost.RequestsAreTakenIff` | src/db-worker-host.js:49-85 | A request is accepted exactly after an open with no close since, and then waits, with its timer armed, for the thread held or a new one |
| `DbWorkerHost.WaitsForTheThreadHeld` | src/db-worker-host.js:49-85 | If no open finds anything pending, whatever is pending was posted to the thread held, and that thread's failing settles it |
| `DbWorkerHost.OutcomesAreFinal` | src/db-worker-host.js:143-169 | A settled request keeps the outcome its settling event gave it through any further run |
| `DbWorkerHost.LateRepliesChangeNothing` | src/db-worker-host.js:126-155 | A reply settles no request but its own; and if no open found anything pending, a reply from a thread no longer held changes nothing |
| `DbWorkerHost.NothingPendingAfterClose` | src/db-worker-host.js:92-113 | After a close has ended nothing is pending, and nothing becomes so until a thread is opened |
| `DbWorkerHost.NothingWaitsForEver` | src/db-worker-host.js:71-82 | Over every interleaving a request's timer is armed if and only if the request is pending; a pending close still has its close call to end; and either of these settles what it was set for, once |
| `DbWorkerHost.OpenIsSafeIff` | src/db-worker-host.js:49-55 | In every sound state: after an open all that is pending belongs to the thread held if and only if nothing is pending |
| `DbWorkerHost.OpenOrphans` | src/db-worker-host.js:49-55 | Opened otherwise, every pending request belongs to a thread the host no longer holds and whose death it does not notice |
| `DbWorkerHost.OrphansStillSettle` | src/db-worker-host.js:71-82 | Such a request still waits for that thread's reply and for its own timer, and either settles it, once |
| `DbWorkerHost.DbWorkerHost.Run` | src/db-worker-host.js:61-85 | Refused when closed, a dead thread restarted, the request posted to the thread held |
| `DbWorkerHost.DbWorkerHost.Discard` | src/db-worker-host.js:158-169 | Every pending request is settled once and the thread forgotten |
| `AgentIdentities.CodesRequestsAndAgents` | src/agent-identities.js:113-272 | Over every run, restarts included: a code yields at most one request, a request at most one agent, and live codes and waiting requests never exceed their limits |
| `AgentIdentities.TokensAreHandedOutOnce` | src/agent-identities.js:292-311 | No request is handed a token twice and no token is handed out twice |
| `AgentIdentities.EveryHandOutHasItsTrail` | src/agent-identities.js:232-311 | Over every run each token that left did so by a claim of its approved request, with that request's own secret, and was made by that request's approval, with no restart in between |
| `AgentIdentities.DecisionsAreFinal` | src/agent-identities.js:232-319 | A decided request never changes, and every request keeps its code, host and secret |
| `AgentIdentities.CodeWorksIff` | src/agent-identities.js:113-212 | Over every run: a code yields a request exactly within ten minutes of its making, if no request has used it and fewer than five wrong attempts were recorded since, while fewer than twenty requests wait |
| `AgentIdentities.CodesAreKeptADay` | src/agent-identities.js:364-369 | Pruning forgets exactly the codes that stopped working more than a day before, and changes no other |
| `AgentIdentities.DecisionsAreTakenIff` | src/agent-identities.js:232-290 | A request can be approved until its ten minutes are over, and rejected until it is decided |
| `AgentIdentities.ClaimIsAnswered` | src/agent-identities.js:292-319 | What a claim is answered after any run, from its events: unknown without the request's own secret, the token of the approval if neither a claim nor a restart came since, and else what became of the request |
| `AgentIdentities.RetirementFollowsEvents` | src/agent-identities.js:232-357 | An agent is revoked exactly if an event of the run revoked it or approved its host again in its place |
| `AgentIdentities.VerifiesIffLatest` | src/agent-identities.js:321-357 | A token is accepted for an agent if and only if it is the last one an approval or a rotation of the run gave it and no event of the run revoked the agent or put another in its place |
| `AgentIdentities.RevokedNeverVerifies` | src/agent-identities.js:350-357 | Once a revocation was confirmed no token verifies for the agent, however the run goes on |
| `AgentIdentities.DisplacedNeverVerifies` | src/agent-identities.js:239-250 | Nor, once a host was approved anew in place of its agents, for any agent it had before |
| `AgentIdentities.RevocationAndRotationAnswers` | src/agent-identities.js:338-357 | A revocation is confirmed exactly for an agent in service, and a rotation answered with a token exactly for the token that verifies |
| `AgentIdentities.OneAgentPerToken` | src/agent-identities.js:321-336 | No token is accepted for two agents |
| `AgentIdentities.ApprovalThenClaim` | src/agent-identities.js:232-311 | An approved machine that claims with its secret gets a token that works, and the same claim again gets none |
| `AgentIdentities.LockedCodesStayUnused` | src/agent-identities.js:198-212 | A code locked by wrong attempts never turns into a request |
| `AgentIdentities.AgentIdentityStore.ClaimApproved` | src/agent-identities.js:292-311 | The claim on the tables and the tokens in memory, case by case |
| `BackupInventory.PlanPartitions` | src/backup-inventory.js:153-233 | Candidates and kept files together are the files, each once; every damaged file is a candidate and no protected one is |
| `BackupInventory.NewestAreKept` | src/backup-inventory.js:196-211 | Of usable files of one kind none that stays is older than one that goes |
| `BackupInventory.PlanKeepsRestorePoints` | src/backup-inventory.js:153-181 | With both kinds present at least three restore points stay, or all there are |
| `BackupInventory.SpaceDeletionsWereNeeded` | src/backup-inventory.js:213-232 | Every deletion made for space was still needed when made, its reason says which limit, and it takes a usable normal generation |
| `BackupInventory.GoesIff` | src/backup-inventory.js:196-232 | A usable normal generation goes exactly if it is unprotected and is one too many, or when its turn comes the backups are over a storage limit that is not 0 or the free space is too small; and exactly the unprotected snapshots and the damaged files go |
| `BackupInventory.ProtectedNumbers` | src/backup-inventory.js:160-181 | Protected are the newest two normal generations and one snapshot, and one more of a kind for each the other is short of |
| `BackupInventory.BlockedIff` | src/backup-inventory.js:236-261 | A plan is blocked exactly if a limit stays unmet, 0 being none, or a kind that is there has too few usable files; without a storage limit nothing goes for storage |
| `BackupInventory.UnmetMeansOnlyProtectedLeft` | src/backup-inventory.js:218-261 | A limit still unmet at the end means only protected files are left, and the plan says it is blocked |
| `BackupInventory.ProjectionsBalance` | src/backup-inventory.js:213-262 | Projected free minus free equals backup bytes minus projected bytes equals the total of the candidate list |
| `BackupInventory.BuildPrunePlan` | src/backup-inventory.js:139-262 | The planner's loops and lists give such a plan: who goes, in which order and why |
| `BackupInventory.ExecutePrune` | src/backup-inventory.js:264-329 | Candidates go oldest first, each only if it is still what was planned when its turn comes; the first that is not, or that will not go, ends it; the bytes reported are those of the files deleted |
| `BackupInventory.ExecutionKeepsRestorePoints` | src/backup-inventory.js:264-329 | However far an execution gets, no protected file and none of the kept ones goes |
| `AgentAppDaily.ExactIsUnique` | src/agent-app-daily.js:75-96 | There is one set of daily rows that spans exactly what a day's hourly rows say |
| `AgentAppDaily.ExactDayReadsAs` | src/agent-app-daily.js:75-96 | An exact day has a row for a flow exactly if an hourly row of the day has its agent, app, addresses and port, and its protocol but for the case of letters; from the earliest of their times to the latest |
| `AgentAppDaily.HoursInAnyOrderGiveTheDay` | src/agent-app-daily.js:107-133 | Folding single hours, in any order and with repeats, over all hours of a day that have rows gives the same flows and times as rebuilding the day, whatever part of it was there |
| `AgentAppDaily.LaterRowsKeepWhatIsFolded` | src/agent-app-daily.js:166-184 | Rows that grow or arrive in later hours leave what is folded right |
| `AgentAppDaily.UploadsChangeLaterHours` | src/agent-ingest-store.js:264-281 | An upload last seen after the folded hours is such a change |
| `AgentAppDaily.DayIsCaughtUpIff` | src/agent-app-daily.js:143-187 | Over any course of a day of ticks, rows arriving in later hours and restarts, with one tick for each further outstanding day and twelve for today after the last restart: some tick reports nothing pending if and only if the stored tables have no gap, and every such tick leaves today exactly as a rebuild would |
| `AgentAppDaily.NoGapIsUnblocked` | src/agent-app-daily.js:148-160 | The condition on the two tables, that an outstanding day followed by another has hourly rows, is the condition on the list of days the tick computes |
| `AgentAppDaily.GapBlocksTheDay` | src/agent-app-daily.js:151-168 | With a gap no tick of the day, however many there are, ever gets to the end of the backlog |
| `AgentAppDaily.GapBlocksEveryDay` | src/agent-app-daily.js:148-168 | While the rows before a gap are kept, no tick of that day or any later one reports nothing pending, whatever arrives and however often it restarts |
| `AgentAppDaily.OneEmptyDayStallsTheFold` | src/agent-app-daily.js:148-168 | Stored tables with a gap: rows on the first and third day, the first folded, the backlog of the fourth being the second and third |
| `AgentAppDaily.DayOverIsExactIff` | src/agent-app-daily.js:148-186 | A day that is over and has daily rows is never rebuilt: over any later days, rows still arriving, it is exact if and only if every row of the hours not folded by then lies in what was folded |
| `AgentAppDaily.CaughtUpIsExact` | src/agent-app-daily.js:170-186 | A tick with nothing pending has today exactly as a rebuild would, if no agent is ahead of the clock |
| `AgentAppDaily.AgentAppDaily.FoldDay` | src/agent-app-daily.js:75-96 | Rebuilds exactly one day, touches no other, and marks the day done if and only if it has rows |
| `AgentAppDaily.AgentAppDaily.FoldToday` | src/agent-app-daily.js:170-186 | Keeps everything up to the pointer right and the hour in progress open; pending hours shrink by two a tick |
| `AgentAppDaily.AgentAppDaily.Fold` | src/agent-app-daily.js:143-187 | A tick rebuilds the oldest outstanding day, touches no other past day, and goes on to today only when no other is outstanding |
| `ConnectionBuckets.PassIsSound` | src/connection-buckets.js:124-167 | Windows folded by a pass are closed, within the allowed lag, newer than all before and consecutive, and with those skipped they are all that closed since |
| `ConnectionBuckets.WindowsFoldInOrderAndAddUp` | src/connection-buckets.js:124-167 | Between two restarts, from any state reached, with or without a pointer, and for any clock readings, windows fold in strictly increasing order, and folded plus skipped is exactly the number of windows up to the newest folded |
| `ConnectionBuckets.WrittenWindowsFoldOnce` | src/connection-buckets.js:106-115 | Retention and restarts included, a window that got rows is never folded again, nor any before it, if no pass finds its clock further back than what retention has left, less the lag |
| `ConnectionBuckets.ClockFarBackFoldsAgain` | src/connection-buckets.js:281-286 | Otherwise it can be: after retention with a clock far ahead and a restart a pass folds the same windows again |
| `ConnectionBuckets.RouterFoldCounts` | src/connection-buckets.js:143-165 | A router row of a folded window holds the number of its flows that no agent saw; all other rows are as they were |
| `ConnectionBuckets.RouterFlowsAre` | src/connection-buckets.js:143-165 | Counted are the flows to the destination that no agent saw and that were last seen in the window's five minutes |
| `ConnectionBuckets.TwoBranchesAreTheOverlap` | src/connection-buckets.js:189-204 | The two index scans find exactly the rows that overlap the window |
| `ConnectionBuckets.TextNamesTheFlow` | src/connection-buckets.js:186-188 | The concatenated text names one flow, whatever the address holds |
| `ConnectionBuckets.AgentFoldCountsOverlaps` | src/connection-buckets.js:176-218 | After folding a window each destination's row holds the number of distinct flows overlapping it, there is no row without such a flow, and no other row changed |
| `ConnectionBuckets.FlowsDuringAre` | src/connection-buckets.js:176-218 | Counted are the distinct local addresses, ports and protocols of the observations to the destination that some instant of the window lies in |
| `ConnectionBuckets.RefoldIsIdempotent` | src/connection-buckets.js:169-218 | Counting a window again changes nothing until the observations change |
| `ConnectionBuckets.PastWalkCoversThePast` | src/connection-buckets.js:234-262 | With a fixed floor the walk back queues every window down to it once, newest first, and stops there |
| `ConnectionBuckets.EachPastWindowOnce` | src/connection-buckets.js:241-262 | Whatever floor each call finds, no past window is queued twice |
| `ConnectionBuckets.OneCallMore` | src/connection-buckets.js:241-262 | Each further call continues that walk from where the calls before it stand |
| `ConnectionBuckets.ConnectionBuckets.QueueNextPastAgentWindow` | src/connection-buckets.js:234-262 | The call queues the next past window or none, and is one step of that walk whatever calls led to it |
| `ConnectionBuckets.ConnectionBuckets.FoldRouter` | src/connection-buckets.js:124-167 | The loop folds the windows of the pass in order and moves the pointer to the last |
| `ConnectionBuckets.ConnectionBuckets.QueueRecentAgentWindows` | src/connection-buckets.js:224-232 | Every recent closed window is waiting after, what waited keeps its place, and nothing waits twice that did not before |
| `ConnectionBuckets.ConnectionBuckets.DrainAgentQueue` | src/connection-buckets.js:270-278 | One waiting window is counted, the oldest request first |
| `BeaconDetector.SumIsHalfTheMedians` | src/beacon-detector.js:36-42 | The sum of sorted non-negative numbers is at least half their count times the median, for odd and even counts |
| `BeaconDetector.SpanGuardNeverRejects` | src/beacon-detector.js:99-102 | The span is at least half the median gap times (minObs - 1) for every group that reaches the guard |
| `BeaconDetector.VerdictDependsOnTheSetOfTimes` | src/beacon-detector.js:79-115 | A group's verdict is determined by the set of its times |
| `BeaconDetector.ReportSays` | src/beacon-detector.js:79-115 | A group is reported exactly if it has enough distinct times, the median of their gaps lies in the interval, bounds included, and the gaps do not vary too much; with the number of times, the earliest and the latest |
| `BeaconDetector.MedianIsTheMiddle` | src/beacon-detector.js:36-42 | The median is the mean of the two middle values, for even and odd counts, with at least half of the values on either side |
| `BeaconDetector.VariesIff` | src/beacon-detector.js:44-51 | Of two gaps or more the variation exceeds its limit exactly if n times the sum of the squares less the square of the sum exceeds the limit's square times the latter |
| `BeaconDetector.ReportsDependOnTheSetOfTimes` | src/beacon-detector.js:63-119 | Same times per group, in any order and with any repeats: the same groups are reported with the same numbers, and the reports are equal if and only if the groups' first events name the same hosts |
| `BeaconDetector.HostIsStableIff` | src/beacon-detector.js:73-107 | The host reported of a group is the same in every order of the events if and only if all events of the group name the same host |
| `BeaconDetector.JudgeGroup` | src/beacon-detector.js:79-115 | Sorting, telling apart, gaps, median, variation and guard give that verdict |
| `BeaconDetector.DetectBeacons` | src/beacon-detector.js:63-119 | Exactly the groups whose verdict is positive are reported, each with the host of its first event |
| `PlaceholderRows.MoveMergesTimes` | src/agent-placeholder-rows.js:78-137 | The real key spans what both keys spanned in table and cache; a removed placeholder is gone from both, so no snapshot brings it back, and one still used is as it was |
| `PlaceholderRows.OthersAreLeftAlone` | src/agent-placeholder-rows.js:50-70 | No key but the two changes, and nothing changes when a router saw the placeholder or another agent owns it |
| `PlaceholderRows.RealRowOnlyFillsIn` | src/agent-placeholder-rows.js:84-126 | A row already at the real key, whoever owns it, only has its times widened to the moved row's and its empty sport, agent host, process and pid filled; its cached copy changes in its times alone |
| `PlaceholderRows.ColumnsComeFrom` | src/agent-placeholder-rows.js:78-135 | Each column at the real key, in table and cache: its own value if it has one, else the port of the report, else what the moved row has, which is the cached one if there is one |
| `PlaceholderRows.OutcomeSays` | src/agent-placeholder-rows.js:50-117 | A move is made exactly between a wildcard and a real address, by the agent that owns a row no router saw; the answer says its times, whether a row was there, and that the placeholder went, which it does unless an observation still has that wildcard |
| `PlaceholderRows.LinksFollow` | src/agent-placeholder-rows.js:107-116 | Every link of the placeholder has its observation linked to the real key after, and to the placeholder only if it was linked to both; none is invented, others stay |
| `PlaceholderRows.MovingTwiceIsMovingOnce` | src/agent-placeholder-rows.js:50-138 | Asking again changes nothing, and finds nothing once the placeholder is gone |
| `PlaceholderRows.SnapshotKeepsMovedTimes` | src/history.js:283-307 | After a move and a snapshot of the cache the table's row at the real key spans exactly what table and cache knew of both keys before |
| `PlaceholderRows.PlaceholderRows.Relocate` | src/agent-placeholder-rows.js:50-138 | The step-by-step update of table, links and cache is that move |
| `EnrichmentQueue.NothingIsLostOrDoubled` | src/enrichment-queue.js:83-177 | Over every run the queues are disjoint, every queueing of an address is waiting or went into exactly one batch, and whatever waits has a runner |
| `EnrichmentQueue.OneRunnerAtATime` | src/enrichment-queue.js:106-110 | Over every run at most one call of the runner is under way, and the flag is set while it is |
| `EnrichmentQueue.NoWakeUpIsLost` | src/enrichment-queue.js:123-133 | Over every run, a runner in its delay while a foreground address is queued has had its promise resolved |
| `EnrichmentQueue.ForegroundGoesNext` | src/enrichment-queue.js:83-162 | From when a foreground address is queued until the next batch, whatever arrives and settles: no delay is begun, one under way can be left at once, and that batch is a foreground batch |
| `EnrichmentQueue.DelaysAndEndsIff` | src/enrichment-queue.js:104-177 | Over every run: a delay begins exactly between two background batches with one configured and no foreground address queued; the runner ends exactly when nothing waits or its lookups fail, and another takes over at once if anything waits; batches are of up to 250 foreground or 25 background addresses |
| `EnrichmentQueue.DrainEnds` | src/enrichment-queue.js:135-177 | Once arrivals stop the runner stops after a bounded number of steps, whatever fails, and only with both queues empty |
| `EnrichmentQueue.PutAllKeepsQueues` | src/enrichment-queue.js:83-99 | Queueing keeps the queues apart and adds exactly the addresses not yet queued |
| `EnrichmentQueue.EnrichmentQueue.TakeBatch` | src/enrichment-queue.js:112-121 | A batch is the oldest waiting addresses, as many as fit, and the rest stays in order |
| `PaxHeaders.WalkUndoesLayout` | scripts/verify-offline-bundle.js:36-50 | For every list of members laid out in 512-byte blocks with 11-digit octal sizes the walk ends and returns exactly the payloads of the 'x' and 'g' members in order, whatever file data looks like |
| `PaxHeaders.SizeReadsBack` | scripts/verify-offline-bundle.js:40-41 | A written size field reads back through decoding, NUL cut, trim and parse |
| `PaxHeaders.SizeReadsIff` | scripts/verify-offline-bundle.js:40-41 | A size field of any bytes reads as n exactly if, without the high bits, it is blanks, perhaps a sign, octal digits that make n, and then anything but another digit |
| `PaxHeaders.EndsIffNeverReturns` | scripts/verify-offline-bundle.js:39-48 | A walk over the blocks ends if and only if it never comes back to a block it has been at, and then within as many steps as there are blocks |
| `PaxHeaders.ForwardSizesEnd` | scripts/verify-offline-bundle.js:39-48 | An archive of which no block reads as a size of -512 or less has a walk that ends |
| `PaxHeaders.BackwardFirstSize` | scripts/verify-offline-bundle.js:40-47 | A first size that leads back ends the walk if and only if it is -1024 or less |
| `PaxHeaders.MinusOneBlockNeverEnds` | scripts/verify-offline-bundle.js:40-47 | The bytes -0000001000 in the first size field read as -512, and the walk of any archive that starts so never ends |
| `PaxHeaders.ZeroBlocksEndTheWalk` | scripts/verify-offline-bundle.js:36-50 | The same for an archive that ends with zero bytes, as the format prescribes |
| `PaxHeaders.PaxHeaderRecords` | scripts/verify-offline-bundle.js:36-50 | For every archive whose walk ends, jumps back included, the loop over the buffer collects what that walk does |
| `Provenance.PaeIsInjective` | scripts/build-provenance.js:52-59 | Equal encodings force equal payload types and equal payloads, for all byte strings |
| `Provenance.PaeReadsBack` | scripts/build-provenance.js:52-59 | A reader of prefix, lengths and spaces gets back type and payload, whatever bytes they hold |
| `Provenance.OnlyPaeParses` | scripts/build-provenance.js:52-59 | And what reads as an encoding is the encoding of what was read |

## Left out

- `receivedAt` of a row, the `processName` a roll-up row ends with in the daily table, logging, profiling, and the timings of a retention pass with the readings of the clock made for them.
- Inbound probes, the update of the `agents` row and the `relocated` list of `storeBatch`.
- AgentRollup.RollupCoversEveryRun: asks that an upload during the trim is harmless; `LateUploadUncoversIff` shows that this is needed.
- DbWorkerHost.SettledExactlyOnce: a thread factory or `postMessage` that throws is not modelled.
- AgentIngestStore.AgentIngestStore.PruneObservations: the method runs without uploads between its transactions; what then holds is stated over runs in `AgentRollup` (`RowsAddUp`, `SweepIsExact`, `PassKeepsRecentRows`). It asks for a batch limit of at least one row, as with none every batch counts as full and only the clock ends the pass.
- PaxHeaders.PaxHeaderRecords: asks for an archive whose walk ends, since the source's loop has no other way out.
- Whether there is room for a backup is a parameter; the cleanup a lack of room starts is not modelled.
- Why SQLite rejects a row: the column checks are taken from the schema, with the length of a text counted in UTF-16 units; a value of another type, the text of SQL, indexes and query plans are not modelled.
- `verifyCandidate` and `verifyDbFile` are a predicate on bytes; what SQLite itself may leave beside a file it checks, and so `removeSidecars` after a swap, is not modelled.
- Files: existence checks are exact, nobody else writes, a rename is atomic, fresh random names are free.
- Enrollment rate limits, principals, `lastSeenAt`, and how random codes are drawn.
- The sidecars `executePrune` tries to remove beside a deleted backup, and its progress reports.
- AgentAppDaily.CaughtUpIsExact: says nothing of rows that reach an hour already folded; for the last hours of a day that has ended `DayOverIsExactIff` has the exact condition.
- AgentAppDaily.DayIsCaughtUpIff: starts with today right up to the pointer, as the first tick of a day finds it (`NewDayIsFit`); rows arrive only in hours not folded yet, and no hourly row is pruned during the day.
- Days pruned from the daily table, hours pruned under a day's ticks, and windows pruned under the agent half.
- The order in which beacons are reported and the rounding of their numbers; the address patterns and the whitelist are a flag on an event.
- Sorting in place is modelled on sequences.
- Cached rows are complete rows; a cache entry that lacks columns is not modelled.
- What the enrichment lookups do, and the waiters told when the queue is idle.
- Decoding of pax payloads as UTF-8, and of the payload type before it is encoded.
- HTTP routes, sockets, AI providers, device probing, notifications, schema migrations and release scripts: input, output and configuration.
