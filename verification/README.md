# Verified models of the street-light backend

A Dafny 4.11 model of the protocols inside the backend of a public-lighting reporting service, and proofs about them.
The service keeps an inventory of light points (import and export), takes fault reports from the public behind an
email code, asks an outside provider for addresses, and runs its own backups, restores and schema migrations. Its hard
parts are small state machines behind SQL statements and timers. Each is modelled here in its own form (classes and
methods where the code changes state, functions where it computes), every method is proved against a specification
function or an outright property, and the promises are proved for every input, every interleaving and every crash
point.

`dafny verify dfyconfig.toml` checks the project.

## How the models are built

* One SQL transaction, or one statement outside a transaction, is one step on tables that are maps or sequences. A
  failed or interrupted transaction leaves the tables as they were; a commit whose answer is lost may have happened.
* Every reading of a clock is an input and does not go back between steps. Times are the unit the code uses: milliseconds
  in the Node processes, microseconds in PostgreSQL.
* Outside parts are parameters with the properties that are used: the journal's JSON codec (`SchedulerJournalFile.Codec`),
  number syntax and NFC (`CsvImport.Foreign`; `ExportExact.KeepsReplacements` for the one direction that needs it), the IPv6 syntax test, column constraints (`ImportModel.Rules`). Digests of
  different values are different; random UUIDs are new.

| files | component |
|---|---|
| `AdmissionModel`, `AdmissionInvariant`, `AdmissionRuns`, `AdmissionTiming`, `AdmissionAnswers`, `AdmissionArrivals`, `AdmissionGrants`, `AdmissionController` | the bounded admission controller in front of the address provider |
| `ImportModel`, `ImportProofs`, `ImportRuns`, `ImportPreview`, `ImportWorker`, `ImportCompletion`, `ImportQueue`, `ImportMeaning` | duplicate resolution, preview, confirmation, the leased queue worker and the queue of batches |
| `SchedulerModel`, `SchedulerRuns`, `SchedulerMeaning`, `SchedulerJournalFile` | the backup scheduler and its append-only journal file |
| `VerificationRateLimits`, `RateLimitWaits`, `EmailChallenges`, `StoreLimits`, `SubmissionModel`, `VerificationRuns`, `VerificationMeaning`, `SubmissionRuns`, `SubmissionMeaning` | email codes, rate limits, report submission and receipts |
| `Utf16Text`, `CsvExport`, `CsvParse`, `CsvGrammar`, `CsvImport`, `CsvColumns`, `ExportStream`, `ExportExact`, `JsonExport` | the streaming export against the import parser |
| `AddressLimiter`, `LimiterMeaning` | the token-bucket limiter |
| `BitArithmetic`, `AddressText`, `ClientAddress`, `AddressSpellings`, `AddressAcceptance` | address parsing, CIDR blocks, limiter keys |
| `Options` | the optional value all of them share |
| `RestoreSession` | session settings and target disposal of the controlled restore |
| `Migrations`, `MigrationOutcomes` | the migration runner and its ledger |

The modules whose names end in `Meaning`, and `AdmissionAnswers`, `AdmissionArrivals`, `AdmissionGrants`, `RateLimitWaits`, `StoreLimits`, `CsvGrammar`,
`CsvColumns`, `AddressAcceptance` and `MigrationOutcomes`, say what the operations are for without using the functions that
the methods are proved against: in terms of what was handed in, what was there before and what happened since.

## What turned out differently from what one would expect

Each of these is proved with the exact condition under which the code does keep the property, and all but the last with a
concrete input that fails it.

* **CSV export cuts surrogate pairs.** Fields are written in pieces of 8192 UTF-16 units, and each piece is encoded on
  its own. `CsvExport.FieldArrivesIff`: a well-formed field arrives intact if and only if no pair lies across a multiple
  of the piece length, and `ExportExact.FileArrivesIff` says the same of a whole export read back by the import;
  `CsvExport.LongFieldBroken` is a field that does not arrive. The JSON writer avoids this (`JsonExport.WriteJsonString`).
* **The daily budget can be exceeded by one.** The budget is charged at one clock reading and the start is stamped at the
  next one. `AdmissionRuns.DailyBudget`: a UTC day gets one start too many if and only if its budget was used up, a start
  charged before the day was made on it, and none charged to it was made after it. `AdmissionTiming.ExtraStartIff` puts
  the second condition in terms of the clock: the first reading of the day is one that stamps a start.
  `AdmissionRuns.BudgetStraddlesMidnight` is such a run.
* **An entry can start after it expired.** The expiry is checked at one reading, and the start is stamped at the next, or
  the one after with a daily budget. `AdmissionTiming.LateIff`: a run has a late start if and only if the clock passed that
  entry's expiry between the two, and on a clock that never does so no run has one; `AdmissionTiming.FirstCallLateIff`
  decides it for the first call from three clock readings. `AdmissionTiming.StartsExpired`: accepted and checked at 0,
  expired at 1, started at 1000.
* **One unclassified SQL error blocks a batch for good, and all later ones.** Five error codes turn a row into a failed
  row; any other is thrown, and every new lease meets it again. `ImportCompletion.CompletableIff`: a confirmed batch can
  complete if and only if no pending row is refused with such an error against the inventory it starts from.
  `ImportCompletion.LongDistrictBlocks` is a file of one row whose district is longer than its column.
  `ImportQueue.BlockedStarvesQueue`: no batch confirmed after a blocked one is ever claimed.
* **Forgetting idle addresses is safe exactly when a bucket refills meanwhile.** `AddressLimiter.ForgettingSafeIff` and
  `AddressLimiter.AdmissionBoundIff`: if and only if `idleTtlMs * refillPerMinute >= burst * 60000`; with room for a single
  key twice the idle time counts. `AddressLimiter.CycleAdmitted` is a run that gets two bursts otherwise.
* **A late delivery failure of an older code can remove a newer challenge** exactly when both codes are the same six
  digits (`VerificationRuns.UndeliveredRemovesIff`, `VerificationRuns.SameCodeRemoved`).
* **Waiting as long as a refused request was told may not be enough.** A refusal charges every limit of the request and names
  the longest wait of those exceeded. `RateLimitWaits.RepeatedWithin`: repeated after that wait, each limit that was exceeded
  is kept, and each other one if and only if its window is over or it had room for one more.
  `RateLimitWaits.RepeatedAndRefused` is a request refused for its address that is refused for its email when repeated.
* **A target reported as discarded can appear afterwards** exactly when `CREATE DATABASE` ran into the deadline, was still
  running on the server and had not finished before the drop (`RestoreSession.DiscardedMeansAbsentIff`,
  `RestoreSession.AbandonedCreateAppears`).
* The counters of a preview batch are zeros and match its rows only when the preview has no skipped or failed row; they
  are meaningful from the confirmation on (`ImportPreview.ConfirmedPreview`).

## Model

| member | source | states |
|---|---|---|
| `AdmissionRuns.StepKeeps` | backend/src/services/reportAddressSuggestion.service.ts:202-440 | every event (call, abort, expiry, spacing timer, timeout, end of race, end of work) keeps the whole invariant: slots, queue, flights, callers, spacing, order and budget ledger |
| `AdmissionRuns.SlotsAndFlight` | backend/src/services/reportAddressSuggestion.service.ts:307-440 | in every reachable state the active count is the number of unfinished executions and at most the limit, each unsettled entry is the only one of its key and the one in flight, settled entries have no subscriber |
| `AdmissionRuns.NoLostWakeUp` | backend/src/services/reportAddressSuggestion.service.ts:222-371 | after every event the queue is empty, all slots are taken or a pump is scheduled; the queue is within its limit, in acceptance order, and holds exactly the queued entries |
| `AdmissionRuns.AnsweredOnce` | backend/src/services/reportAddressSuggestion.service.ts:252-286 | each caller waits on one unsettled entry or was answered exactly once, and callers that stayed to the end of one entry got the same answer |
| `AdmissionRuns.StartDiscipline` | backend/src/services/reportAddressSuggestion.service.ts:311-366 | over a whole run provider starts follow acceptance order and are at least the minimum interval apart, and each was checked before its expiry |
| `AdmissionTiming.LateIff` | backend/src/services/reportAddressSuggestion.service.ts:330-364 | a run starts an entry at or after its expiry if and only if the clock passed the expiry between the check and the start reading; a clock that never does so for an earlier reading's expiry allows no such run |
| `AdmissionTiming.LateByLess` | backend/src/services/reportAddressSuggestion.service.ts:330-364 | every start is late by less than the clock moves between the check and the start |
| `AdmissionTiming.FirstCallLateIff` | backend/src/services/reportAddressSuggestion.service.ts:222-246 | the first call of a run without a budget starts late if and only if its expiry falls between the fifth and the sixth reading |
| `AdmissionTiming.StartsExpired` | backend/src/services/reportAddressSuggestion.service.ts:330-364 | a run that starts an expired entry |
| `AdmissionRuns.DailyBudget` | backend/src/services/reportAddressSuggestion.service.ts:330-366 | at most the budget is charged to any UTC day and at most one more starts on it, which happens if and only if the budget was used up, a start charged before the day was made on it, and none charged to it was made after it |
| `AdmissionTiming.ExtraStartIff` | backend/src/services/reportAddressSuggestion.service.ts:339-364 | given the first clock reading of a day: the day gets the extra start if and only if that reading stamps a start, the budget was used up, and no start charged to the day was made after it |
| `AdmissionTiming.BudgetWithoutMidnight` | backend/src/services/reportAddressSuggestion.service.ts:339-364 | a day into which no two successive clock readings cross keeps its budget in every run |
| `AdmissionRuns.BudgetStraddlesMidnight` | backend/src/services/reportAddressSuggestion.service.ts:330-366 | a run in which the extra start happens |
| `AdmissionRuns.PumpKeeps` | backend/src/services/reportAddressSuggestion.service.ts:307-371 | the pump loop, which ends because each turn that goes on shortens the queue, keeps the invariant and leaves nothing startable behind |
| `AdmissionRuns.RunsKeepInv` | backend/src/services/reportAddressSuggestion.service.ts:202-440 | the invariant holds after every sequence of enabled events |
| `AdmissionAnswers.AnswersExplained` | backend/src/services/reportAddressSuggestion.service.ts:202-440 | in every run every answer a caller gets has its cause: its own abort, a policy refusal, a full queue that cannot start at once, an expiry timer or a clock reading at or after the expiry, a budget that had no room, or the end of its provider race, with the answer that belongs to it |
| `AdmissionAnswers.StepExplained` | backend/src/services/reportAddressSuggestion.service.ts:252-440 | the same for one event in any state the invariant allows, with calls, entries, readings and starts only added to |
| `AdmissionAnswers.PumpExplained` | backend/src/services/reportAddressSuggestion.service.ts:307-371 | the pump answers nobody but for an expired entry it read the clock for, or a start the budget refused |
| `AdmissionAnswers.RaceReachesAll` | backend/src/services/reportAddressSuggestion.service.ts:373-440 | when the race of an unsettled entry ends, each caller waiting for it is answered, once, with the provider's value, with `provider_unavailable` for no value, with `address_provider_timeout` for a failure after the timeout, or with the failure's own code |
| `AdmissionAnswers.ResolvedIff` | backend/src/services/reportAddressSuggestion.service.ts:373-440 | over every run a call holds a value if and only if the race of its entry ended with that value while the call was waiting |
| `AdmissionArrivals.ArrivalDecided` | backend/src/services/reportAddressSuggestion.service.ts:202-246 | an aborted caller is cancelled, one whose key is in flight waits with its entry, one the policy refuses or that finds the queue full and no immediate start is turned away, and every other one gets an entry of its own with its own expiry |
| `AdmissionArrivals.AbortReaches` | backend/src/services/reportAddressSuggestion.service.ts:252-286 | a waiting caller that aborts is cancelled; the entry is closed and its key freed if it was the last one, and nothing else changes if it was not |
| `AdmissionArrivals.ExpiryReaches` | backend/src/services/reportAddressSuggestion.service.ts:288-297 | when the expiry timer of a queued entry fires each caller waiting for it is answered `queue_expired`, and the entry is closed |
| `AdmissionGrants.StartsAreGranted` | backend/src/services/reportAddressSuggestion.service.ts:339-364 | with a budget callback every run starts the provider exactly as often as the callback allowed it; a refusal or an exception in it starts nothing |
| `AdmissionController.BoundedAdmissionController.Pump` | backend/src/services/reportAddressSuggestion.service.ts:307-371 | the loop over the object's fields computes the specified state and terminates |
| `AdmissionController.BoundedAdmissionController.Run` | backend/src/services/reportAddressSuggestion.service.ts:202-246 | a call joins the entry in flight for its key, is admitted, queued, or refused, as specified |
| `AdmissionController.BoundedAdmissionController.OnAbort` | backend/src/services/reportAddressSuggestion.service.ts:252-286 | a caller leaves; an entry nobody waits for is withdrawn from the queue or settled while its work keeps the slot |
| `AdmissionController.BoundedAdmissionController.OnExpiryTimer` | backend/src/services/reportAddressSuggestion.service.ts:288-297 | an entry still queued is rejected and removed, and the pump runs |
| `AdmissionController.BoundedAdmissionController.OnRaceEnd` | backend/src/services/reportAddressSuggestion.service.ts:373-415 | the end of the provider race settles the entry once, with the answer `AdmissionAnswers.RaceReachesAll` names, and frees the slot unless work is still running |
| `AdmissionController.BoundedAdmissionController.OnWorkEnd` | backend/src/services/reportAddressSuggestion.service.ts:395-414 | the end of the work frees the slot and pumps |
| `AdmissionController.BoundedAdmissionController.Settle` | backend/src/services/reportAddressSuggestion.service.ts:417-439 | settling answers every subscriber, clears the timer and the flight, and happens once |
| `ImportProofs.SnapshotIsFold` | backend/src/services/importQueueWorker.service.ts:26-150 | one statement over many rows, reading the inventory once, writes what a row-by-row fold writes when pending numbers are distinct |
| `ImportProofs.StatementKeepsDestiny` | backend/src/services/importQueueWorker.service.ts:26-150 | a successful statement on the first rows does not change what the whole batch leads to |
| `ImportProofs.FailKeepsDestiny` | backend/src/services/importQueueWorker.service.ts:157-174 | nor does marking as failed the row whose one-row statement was refused |
| `ImportProofs.OneRowError` | backend/src/services/importQueueWorker.service.ts:211-233 | a one-row statement stops only with the error of the row that comes next |
| `ImportProofs.StatementCounts` | backend/src/services/importQueueWorker.service.ts:118-145 | the counters a statement adds are the outcomes of the rows it marked |
| `ImportProofs.CountsPartition` | backend/src/services/streetLightsImport.service.ts:435-447 | outcomes and pending rows partition the rows of a batch |
| `ImportRuns.NextKeeps` | backend/src/services/importQueueWorker.service.ts:157-233 | every database step of any worker, stale or current, and every crash and new lease keeps the invariant of the batch |
| `ImportRuns.CompletedMeansFolded` | backend/src/services/importQueueWorker.service.ts:176-233 | a completed batch, however it was cut up, has the inventory, row outcomes and audit events of the one-row-at-a-time fold in source order, and no pending row |
| `ImportRuns.CountersAddUp` | backend/src/services/importQueueWorker.service.ts:118-145 | in every state after confirmation each counter is the number of rows with its outcome, and all with the pending ones add up to the total |
| `ImportRuns.PendingLeavesOnce` | backend/src/services/importQueueWorker.service.ts:157-209 | a row leaves pending once, by a worker that holds the current token of the processing batch |
| `ImportMeaning.StatementImports` | backend/src/services/importQueueWorker.service.ts:26-150 | a returning statement gives the next pending rows, as many as its limit or all, their meaning: a new number is created with the payload's coordinates and fields, active when it names no status; a known number is skipped and left alone with updates off; with updates on it takes the fields it has a column for and keeps the others, updated if that changes something and unchanged if not; a refused write fails the row; and the audit gains exactly one event for each number that changed |
| `ImportMeaning.CompletedMeansImported` | backend/src/services/importQueueWorker.service.ts:26-233 | the same of a whole completed batch, every row read against the inventory before the batch |
| `ImportMeaning.EveryStateImported` | backend/src/services/importQueueWorker.service.ts:26-233 | in every state of every run, with crashes, stale workers and new leases, the finished rows have done just that, the numbers of waiting rows are untouched, and the audit is the difference between the two inventories |
| `ImportMeaning.PreviewDecides` | backend/src/services/streetLightsImport.service.ts:246-341 | of rows that are valid and say the same the first stays pending and the later ones are skipped; rows of one number that differ all fail as conflicting; any other invalid row fails with its own code |
| `ImportMeaning.ImportedFileMeans` | backend/src/services/importQueueWorker.service.ts:211-233 | from the parsed file to the completed batch: the first of agreeing rows did what its payload is for, the other rows ended as the preview decided, no number without such a row was touched |
| `ImportMeaning.OnePoint` | backend/src/services/importQueueWorker.service.ts:45-70 | number, coordinates and fields leave no choice of the point |
| `ImportPreview.GroupRows` | backend/src/services/streetLightsImport.service.ts:246-275 | the grouping loop collects every number with its rows, first row and agreement |
| `ImportPreview.ResolveDuplicates` | backend/src/services/streetLightsImport.service.ts:246-275 | exactly the later identical copies are skipped and exactly the rows of disagreeing groups conflict |
| `ImportPreview.BuildImportPreview` | backend/src/services/streetLightsImport.service.ts:313-341 | the preview rows and the batch as inserted, counters zero |
| `ImportPreview.PendingNumbersDistinct` | backend/src/services/streetLightsImport.service.ts:246-275 | no two rows left pending share an inventory number |
| `ImportPreview.DuplicateKeepsFirst` | backend/src/services/streetLightsImport.service.ts:246-275 | a copy is dropped only when an earlier row with the same payload stays pending |
| `ImportPreview.ConfirmedPreview` | backend/src/services/streetLightsImport.service.ts:418-454 | the confirmed batch starts with counters that match its rows; the unconfirmed one only when nothing was skipped or failed |
| `ImportPreview.ImportedFileIsFolded` | backend/src/services/importQueueWorker.service.ts:211-233 | from parsed rows over preview and confirmation to the completed batch: the result is the fold over the surviving rows |
| `ImportWorker.FoldLeavesPending` | backend/src/services/importQueueWorker.service.ts:17-24 | the fold leaves pending exactly the rows refused with an error outside the recognised ones |
| `ImportWorker.BlockedMeansStuck` | backend/src/services/importQueueWorker.service.ts:17-24 | the fold of a batch leaves a pending row if and only if a row of the batch is refused with such an error |
| `ImportWorker.ImportTables.ProcessBatch` | backend/src/services/importQueueWorker.service.ts:211-233 | the worker loop with bulk statements and replay ends completed with the folded result, interrupted, fenced off when the lease was taken between turns, or by throwing on a blocked batch; undisturbed it completes if and only if the batch is not blocked |
| `ImportWorker.ImportTables.ProcessImportRows` | backend/src/services/importQueueWorker.service.ts:26-150 | the statement relation: nothing for a stale token or a locked batch row, an error and no change, or the marked rows, which `ImportMeaning.StatementImports` explains |
| `ImportWorker.ImportTables.ClaimBatch` | backend/src/services/importQueueWorker.service.ts:187-209 | a batch whose lease ran out is queued again, and a queued one gets the new token unless another batch is processing |
| `ImportCompletion.BlockedNeverCompletes` | backend/src/services/importQueueWorker.service.ts:176-233 | over every run of current, stale and crashed workers a blocked batch never ends |
| `ImportCompletion.CompletableIff` | backend/src/services/importQueueWorker.service.ts:176-233 | a confirmed batch ends in some run if and only if it is not blocked |
| `ImportCompletion.LongDistrictBlocks` | backend/src/services/importQueueWorker.service.ts:17-24 | a file of one row with a district of 101 characters never completes |
| `ImportQueue.BlockedStarvesQueue` | backend/src/services/importQueueWorker.service.ts:187-209 | in every run of the queue behind a blocked batch, the batches confirmed after it stay queued and untouched, and those that had ended stay as they are |
| `SchedulerModel.LatestDueSlotIsLatest` | backend/src/operations/scheduler.ts:14-22 | the due slot is the latest slot boundary not after now |
| `SchedulerModel.BackupScheduler.RunUnderLock` | backend/src/operations/scheduler.ts:86-171 | an invocation appends the specified events, which `SchedulerMeaning.InvocationMeant` explains, or, when it dies, a prefix of them; it tells a closed slot, a retry not yet due and a bad run id apart |
| `SchedulerMeaning.DecideMeans` | backend/src/operations/scheduler.ts:108-124 | a slot is attempted as number 1 if and only if the journal has no start for it, as number 2 if and only if its first attempt ended incomplete or blocked, was not repeated and its retry instant has come; it is closed if and only if it has another result |
| `SchedulerMeaning.InvocationMeant` | backend/src/operations/scheduler.ts:86-171 | an uninterrupted invocation first ends an abandoned start as incomplete, with a retry 15 minutes after that began, and then, if the latest slot is due, appends a start and the result its own backup returned under its own run id; a backup that threw or answered for another run is incomplete, with a retry 15 minutes after the end on the first attempt |
| `SchedulerMeaning.HistoryExplained` | backend/src/operations/scheduler.ts:86-171 | over every history of complete and crashed invocations each finish was written for a backup that ended so or for a start left open |
| `SchedulerMeaning.CompleteMeansBackedUp` | backend/src/operations/scheduler.ts:131-153 | a slot is recorded complete only for a backup that returned complete under the run id in the journal |
| `SchedulerMeaning.BackupIsRecorded` | backend/src/operations/scheduler.ts:108-171 | an untried slot that is the latest one is attempted, a backup that completes is on record in every later journal, and the slot is not attempted again |
| `SchedulerMeaning.FailureIsRetried` | backend/src/operations/scheduler.ts:108-171 | a first attempt that ended incomplete or blocked is repeated by the next uninterrupted invocation for its slot from the retry instant on |
| `SchedulerMeaning.ThrownIsRetried` | backend/src/operations/scheduler.ts:131-153 | in particular a slot whose first backup threw is attempted again once 15 minutes have passed |
| `SchedulerRuns.InvocationKeeps` | backend/src/operations/scheduler.ts:86-171 | an invocation that dies after any number of its appends leaves a good journal |
| `SchedulerRuns.AtMostOneUnfinished` | backend/src/operations/scheduler.ts:60-72 | over all histories at most one start is unfinished, it is the last entry, and every finish follows its start |
| `SchedulerRuns.AttemptDiscipline` | backend/src/operations/scheduler.ts:86-171 | each slot gets attempt 1, then at most attempt 2, at least 15 minutes after the first began, and none after a final result |
| `SchedulerJournalFile.ReadsCommitted` | backend/src/operations/fileSchedulerJournal.ts:69-86 | a file with any torn tail reads as its committed events, never as corrupt |
| `SchedulerJournalFile.CrashSafe` | backend/src/operations/fileSchedulerJournal.ts:88-133 | at every point inside an append the file holds the old events, or the old and the new one exactly when the whole record is down |
| `SchedulerJournalFile.FileSchedulerJournal.Append` | backend/src/operations/fileSchedulerJournal.ts:88-133 | repair of the tail and the write loop: written, refused without change, dead at one of those points, or on file but not made durable; no committed record is lost, and an event that fits is written when nothing fails |
| `SchedulerJournalFile.FileSchedulerJournal.Repair` | backend/src/operations/fileSchedulerJournal.ts:88-133 | the tail after the last newline is cut off and the committed part kept |
| `SchedulerJournalFile.CrashedInvocationOnFile` | backend/src/operations/fileSchedulerJournal.ts:167-174 | an invocation that dies inside an append leaves on file a prefix of what it appends, so the histories of the scheduler are those of its file |
| `VerificationRateLimits.RateLimitTable.ApplyRateLimits` | backend/src/services/emailVerificationStore.ts:64-100 | every limit is charged; allowed if and only if all are kept, otherwise the longest wait among those exceeded |
| `VerificationRateLimits.CleanupInvisible` | backend/src/services/emailVerificationStore.ts:125-135 | deleting any rows idle for 48 hours, at any time, changes no count, decision or wait of any later attempt |
| `VerificationRateLimits.AtMostTwiceTheLimit` | backend/src/services/emailVerificationStore.ts:64-100 | any closed hour of any run with any cleanups admits at most twice the limit of a key |
| `RateLimitWaits.WaitDecides` | backend/src/services/emailVerificationStore.ts:64-100 | when a refused attempt's key is tried next, it is within the limit once the wait it was told has passed, and refused again a second too early |
| `RateLimitWaits.RepeatedWithin` | backend/src/services/emailVerificationStore.ts:64-100 | a whole request repeated after its wait, no other attempt of its keys between: the exceeded limits are kept, each other limit if and only if its window is over or it had room for one more |
| `RateLimitWaits.RepeatedAndRefused` | backend/src/services/emailVerificationStore.ts:64-100 | a request that waits as told and is refused again |
| `RateLimitWaits.RefusedMeansBusy` | backend/src/services/emailVerificationStore.ts:64-100 | a refused attempt's key was tried at least as often as its limit in the hour before |
| `StoreLimits.HourlyBounds` | backend/src/services/emailVerificationStore.ts:156-263 | over any sequence of requests, in any closed hour: at most 6 codes to one email and 30 for one address, at most 30 guesses at one email and 60 from one address |
| `EmailChallenges.EmailVerificationStore.CreateChallenge` | backend/src/services/emailVerificationStore.ts:156-175 | the transaction computes the specified table and result; a taken id rolls the counters back |
| `EmailChallenges.EmailVerificationStore.ResendChallenge` | backend/src/services/emailVerificationStore.ts:177-250 | the refusals before the limits charge nothing; then limited, sent, or refused by the guarded update |
| `EmailChallenges.EmailVerificationStore.VerifyChallenge` | backend/src/services/emailVerificationStore.ts:252-321 | an attempt is counted before the code is compared, and the code is accepted only by the second guarded update; `VerificationMeaning.VerifyAnswers` says when |
| `VerificationMeaning.VerifyAnswers` | backend/src/services/emailVerificationStore.ts:252-321 | in every reachable state, within the limits: verified if and only if the row is there under that email, nothing was accepted, fewer than five codes were compared since the latest send, the code is that of the latest send and it is under 600 seconds old at both guards, with the seconds left; otherwise the same facts fix the answer, with five minus the comparisons for a wrong code |
| `VerificationMeaning.VerifyEffects` | backend/src/services/emailVerificationStore.ts:252-321 | a comparison is counted if and only if the code was looked at, the token stored if and only if it was verified, and no other row changes but those long over |
| `VerificationMeaning.RightCodeVerifies` | backend/src/services/emailVerificationStore.ts:156-321 | from creation to token: an intent created within the limits, none of whose counting deliveries failed, is verified by the code of its latest send under those conditions |
| `VerificationMeaning.ResendAnswers` | backend/src/services/emailVerificationStore.ts:177-250 | in every reachable state a code is sent again if and only if the row is there under that email, nothing was accepted, fewer than three codes were sent, the last at least a minute ago and not expired at the guard, and the limits allow it; otherwise the facts fix the refusal and the seconds to wait |
| `VerificationMeaning.ResendEffects` | backend/src/services/emailVerificationStore.ts:177-250 | a sent code replaces the old one with its own 600 seconds and five comparisons, and a refusal changes no challenge but those long over |
| `VerificationMeaning.CreateAnswers` | backend/src/services/emailVerificationStore.ts:156-175 | a new intent within the limits gets its row under its email with its code and 600 seconds, and one over the limits the wait |
| `VerificationMeaning.StillThere` | backend/src/services/emailVerificationStore.ts:103-135 | that row stays, under that email, for an hour past the end of its latest code, unless its token was spent or the delivery of its counting code failed |
| `VerificationRuns.ConsumeSucceedsIff` | backend/src/services/emailVerificationStore.ts:331-347 | in every reachable state a token is consumed if and only if the challenge is there under that email, that very token was accepted in the intent's life and none was spent, and the latest send is less than 600 seconds old |
| `VerificationRuns.StepKeeps` | backend/src/services/emailVerificationStore.ts:156-347 | every transaction keeps the row of every intent in agreement with its life |
| `VerificationRuns.SendsAndComparisons` | backend/src/services/emailVerificationStore.ts:177-299 | over the whole life of an intent at most 3 sends, a minute apart, 5 comparisons after each, 15 in all |
| `VerificationRuns.SpentOnceInTime` | backend/src/services/emailVerificationStore.ts:331-347 | a token is spent at most once, within 600 seconds of the latest send, whose code was matched, and nothing is sent or compared after acceptance |
| `VerificationRuns.VerifiedIsFrozen` | backend/src/services/emailVerificationStore.ts:301-313 | a verified challenge never changes again but for its one consumption, and once gone never returns |
| `VerificationRuns.UndeliveredRemovesIff` | backend/src/services/emailVerification.service.ts:44-57 | a failed delivery removes the challenge if and only if its code is that of the latest send and nothing was verified |
| `VerificationRuns.SameCodeRemoved` | backend/src/services/emailVerificationStore.ts:323-329 | a run in which an older delivery's failure removes the newer challenge with the same code |
| `SubmissionModel.FaultHistoryStore.RecordSubmission` | backend/src/services/faultReportHistory.service.ts:215-390 | the transaction with rollback on every failing query computes the specified tables and outcome, which `SubmissionMeaning.RecordedIff` and its companions explain |
| `SubmissionModel.FaultHistoryStore.CleanupExpiredSubmissionAttempts` | backend/src/services/faultReportHistory.service.ts:392-412 | only expired receipts are deleted |
| `SubmissionModel.LowerKeepsAttemptId` | backend/src/services/faultReportHistory.service.ts:101-105 | letter case does not decide whether an attempt id is accepted |
| `SubmissionMeaning.RecordedIff` | backend/src/services/faultReportHistory.service.ts:215-376 | a submission is recorded if and only if it is well-formed, its attempt has no live receipt, its target resolves, its claim is good and none of its queries fails; then one row holds its report and the answered instant under the answered id, the attempt has a receipt for thirty days, the token is used, and nothing else changed |
| `SubmissionMeaning.DuplicateIff` | backend/src/services/faultReportHistory.service.ts:233-257 | a live receipt is answered with its row's id and instant if and only if the queries up to that fail nowhere, and changes nothing |
| `SubmissionMeaning.OtherAnswers` | backend/src/services/faultReportHistory.service.ts:215-390 | every other answer leaves the tables alone but for a drawn id, or for the whole report when the failure of a commit was reported in error; refused input and a refused claim are told apart |
| `SubmissionMeaning.RecordedStays` | backend/src/services/faultReportHistory.service.ts:342-376 | a recorded id holds exactly that report and instant, then and after any continuation |
| `SubmissionMeaning.RowsAreReports` | backend/src/services/faultReportHistory.service.ts:342-376 | in every reachable state every row is the report of the submission that wrote it, and every receipt leads to the row of the submission made under its attempt |
| `SubmissionMeaning.DuplicateIsFirst` | backend/src/services/faultReportHistory.service.ts:233-257 | the row behind a duplicate answer holds the report of the submission that was filed under that attempt, at the answered instant |
| `SubmissionMeaning.AttemptIdIff` | backend/src/services/faultReportHistory.service.ts:101-105 | an attempt id is accepted if and only if it is a version 4 UUID in five dashed groups |
| `SubmissionRuns.ConsumedIffFiled` | backend/src/services/faultReportHistory.service.ts:289-376 | with verification on, over all interleavings: a challenge is consumed if and only if one transaction consumed it, that transaction inserted exactly one history row, no token or row occurs twice, and there are as many rows as tokens |
| `SubmissionRuns.RetryFindsReport` | backend/src/services/faultReportHistory.service.ts:233-257 | for thirty days any retry in any letter case changes nothing and is answered with the recorded id unless a query fails |
| `SubmissionRuns.ReceiptKept` | backend/src/services/faultReportHistory.service.ts:257-261 | an unexpired receipt and its row survive every event |
| `SubmissionRuns.SpentTokenRefused` | backend/src/services/faultReportHistory.service.ts:289-293 | a consumed token files nothing again, even after its receipt expired or its row was swept |
| `CsvExport.ExportResponse.WriteCsvField` | backend/src/services/streetLightsExport.service.ts:83-95 | the client receives the quoted, doubled field as encoded piece by piece |
| `CsvExport.FieldArrivesIff` | backend/src/services/streetLightsExport.service.ts:83-95 | it is the field's CSV form if and only if no surrogate pair lies across a piece boundary |
| `CsvExport.LongFieldBroken` | backend/src/services/streetLightsExport.service.ts:22-24 | a field that does not arrive |
| `CsvExport.PairAfterLetters` | backend/src/services/streetLightsExport.service.ts:22-24 | letters followed by an astral character arrive if and only if the character does not begin one unit before a multiple of 8192 |
| `CsvExport.ExportResponse.WriteCsvRow` | backend/src/services/streetLightsExport.service.ts:97-104 | a row is its fields between commas and a line end |
| `CsvParse.ParseCsvRecords` | backend/src/services/streetLightsImport.service.ts:140-175 | the character loop computes the specified records or error |
| `CsvGrammar.AcceptsIff` | backend/src/services/streetLightsImport.service.ts:140-175 | the parser accepts a text with these records if and only if the text is spelled so in a grammar of bare and quoted cells, commas and line ends; every text has a spelling, and all its spellings say the same |
| `CsvGrammar.UnclosedIff` | backend/src/services/streetLightsImport.service.ts:140-175 | it is refused as unclosed if and only if after whole cells a quote opens that nothing closes |
| `CsvGrammar.MalformedIff` | backend/src/services/streetLightsImport.service.ts:140-175 | it is refused as malformed if and only if after whole cells something other than blanks follows a closing quote |
| `CsvGrammar.FieldIsCell` | backend/src/services/streetLightsExport.service.ts:83-95 | a field is exported as it stands if and only if it holds no comma, quote or line end, and its exported form is one cell with it as value |
| `CsvColumns.RowIsRead` | backend/src/services/streetLightsImport.service.ts:69-137 | a row is valid if and only if the cells under its header's names hold a number, coordinates in range and a known status if any, and carries what they hold; any other is refused for the first of these that fails |
| `CsvColumns.FileIsRead` | backend/src/services/streetLightsImport.service.ts:140-208 | every file is read row by row or refused for the first reason that applies: too long, blank, not CSV, no data, too many rows, a header named twice or a required one missing |
| `CsvParse.RowsRead` | backend/src/services/streetLightsImport.service.ts:140-175 | parsing written rows gives back every cell of every row |
| `CsvImport.ExportedFileImports` | backend/src/services/streetLightsImport.service.ts:69-208 | an exported file is read back row for row, null and empty optional fields both as null, unless a size or row limit refuses it |
| `ExportStream.ReadChunk` | backend/src/services/streetLightsExport.service.ts:122-150 | a page is the next rows after the cursor in key order |
| `ExportStream.AscendingMeans` | backend/src/services/streetLightsExport.service.ts:122-150 | the rows are ordered by the bytes of the inventory number, the first difference deciding, and then by id |
| `ExportStream.PageExtends` | backend/src/services/streetLightsExport.service.ts:122-167 | pages concatenate to the sorted filtered listing without gap or repetition, and a short page ends it |
| `ExportStream.StreamCsvExport` | backend/src/services/streetLightsExport.service.ts:110-187 | the stream ends, having sent the header and the whole listing |
| `ExportStream.ExportThenImport` | backend/src/services/streetLightsExport.service.ts:110-187 | what a client of the whole export received imports as the whole listing when no field has a pair across a boundary |
| `ExportExact.ReceivedFileImports` | backend/src/services/streetLightsExport.service.ts:83-104 | whatever an export contains, the import reads its cells with the divided pairs replaced, within its limits |
| `ExportExact.RowReadIff` | backend/src/services/streetLightsImport.service.ts:87-137 | a row is read back as itself if and only if none of its fields has a pair across a piece boundary |
| `ExportExact.FileArrivesIff` | backend/src/services/streetLightsExport.service.ts:83-167 | within the import's limits a whole export is read back as the listing if and only if that holds of every row |
| `JsonExport.WriteJsonString` | backend/src/services/streetLightsExport.service.ts:57-68 | the chunks received are the quoting of the whole string (QuoteJSONString, section 25.5.2 of ECMA-262), lone surrogates included |
| `JsonExport.BodyIsJson` | backend/src/services/streetLightsExport.service.ts:57-68 | what is written between the quotes is a JSON string by section 7 of RFC 8259, whatever the value holds |
| `JsonExport.PlainAsIs` | backend/src/services/streetLightsExport.service.ts:57-68 | a value without quotes, backslashes, control characters and lone surrogates is written as it is |
| `JsonExport.ChunkEnd` | backend/src/services/streetLightsExport.service.ts:57-68 | every chunk advances and ends outside surrogate pairs |
| `JsonExport.UnquoteBody` | backend/src/services/streetLightsExport.service.ts:57-68 | the quoted form determines the string |
| `JsonExport.BodyConcat` | backend/src/services/streetLightsExport.service.ts:57-68 | quoting distributes over a cut that divides no pair |
| `AddressLimiter.AddressIpLimiter.ConsumeAddress` | backend/src/security/addressIpLimiter.ts:25-50 | the method on the bucket map computes the specified map and answer |
| `AddressLimiter.AddressIpLimiter.EvictIdle` | backend/src/security/addressIpLimiter.ts:31-34 | exactly the idle buckets go |
| `AddressLimiter.RunRelated` | backend/src/security/addressIpLimiter.ts:25-50 | under the idle-time condition every answer but capacity is that of a limiter that never forgets |
| `AddressLimiter.ForgettingSafeIff` | backend/src/security/addressIpLimiter.ts:31-40 | and that condition is necessary |
| `AddressLimiter.AdmissionBoundIff` | backend/src/security/addressIpLimiter.ts:25-50 | any key in any span is admitted at most the burst and the refill, if and only if the condition holds |
| `AddressLimiter.SizeBounded` | backend/src/security/addressIpLimiter.ts:35-40 | never more keys than allowed, on any clock |
| `AddressLimiter.RetryAfterSuffices` | backend/src/security/addressIpLimiter.ts:41-48 | after waiting as told a key is not refused for its rate, whatever others did or was evicted |
| `LimiterMeaning.RateLimitedMeans` | backend/src/security/addressIpLimiter.ts:25-50 | over every ordered run a key is refused for its rate only when one more admission would exceed the burst and the refill since some call of it, and, when forgetting is safe, a call that would is never admitted |
| `LimiterMeaning.CapacityIff` | backend/src/security/addressIpLimiter.ts:31-40 | a call is turned away for capacity if and only if its key has no bucket and as many keys as there is room for were seen less than the idle time ago |
| `LimiterMeaning.CapacityMeansBusy` | backend/src/security/addressIpLimiter.ts:31-40 | over every run it met that many other keys, each served less than the idle time ago |
| `LimiterMeaning.CapacityWait` | backend/src/security/addressIpLimiter.ts:35-36 | when no call comes for as long as it was told the next one is admitted, and a second less is too little when all keys were seen just then |
| `AddressLimiter.GainedIsProduct` | backend/src/security/addressIpLimiter.ts:41-42 | elapsed time times the rate is what a bucket gains millisecond by millisecond |
| `AddressLimiter.SecondsForIsCeiling` | backend/src/security/addressIpLimiter.ts:45-48 | the rounded quotient is the least number of whole seconds, at least one, that brings the missing part of a token |
| `AddressLimiter.RetryAfterLeast` | backend/src/security/addressIpLimiter.ts:45-48 | a whole second less is not enough |
| `BitArithmetic.OrShifted` | backend/src/security/clientAddress.ts:9-9 | shift-and-or is positional addition |
| `BitArithmetic.XorMask` | backend/src/security/clientAddress.ts:53-54 | the mask built by XOR is a difference of powers of two |
| `BitArithmetic.AndMask` | backend/src/security/clientAddress.ts:55-55 | masking clears the host bits |
| `BitArithmetic.ShrAndLow` | backend/src/security/clientAddress.ts:33-35 | shifting and masking are quotient and remainder |
| `ClientAddress.ParseDotted` | backend/src/security/clientAddress.ts:6-11 | a dotted quad parses to its positional value and is its own normal form |
| `AddressAcceptance.AddressIff` | backend/src/security/clientAddress.ts:6-43 | a text is taken for an address if and only if it is a dotted quad of octets without leading zeros or, where the library's syntax test agrees, a spelling of eight words |
| `AddressAcceptance.CidrIff` | backend/src/security/clientAddress.ts:45-56 | a block is accepted if and only if it is an address without a prefix or with one in digits that its family has room for; it keeps family and prefix |
| `AddressSpellings.SpellingDenotes` | backend/src/security/clientAddress.ts:13-39 | full, compressed and dotted spellings in any letter case and with any leading zeros parse to what their eight words denote |
| `AddressSpellings.SpellingsAgree` | backend/src/security/clientAddress.ts:13-43 | spellings of the same words parse alike |
| `AddressSpellings.NormalizedParsesBack` | backend/src/security/clientAddress.ts:33-43 | parsing the normal form gives the address back |
| `AddressSpellings.MappedIff` | backend/src/security/clientAddress.ts:33-37 | exactly the IPv4-mapped words fold into IPv4, with the last 32 bits |
| `AddressSpellings.CidrMatchIff` | backend/src/security/clientAddress.ts:45-73 | an address matches a block if and only if families agree and the leading bits agree |
| `AddressSpellings.SameLimiterKeyIff` | backend/src/security/clientAddress.ts:75-80 | two addresses share a limiter key if and only if they are the same IPv4 address or lie in one IPv6 /64 |
| `RestoreSession.RestoreClient.QueryWithSessionTimeouts` | backend/src/operations/controlledRestore.ts:353-402 | on every exit both session settings are back or the client is untrusted, with the exact cases of each |
| `RestoreSession.RestoreClient.RawQuery` | backend/src/operations/controlledRestore.ts:197-230 | only a query cut off by deadline or abort makes the client untrusted |
| `RestoreSession.RestoreClient.QueryPoolWithinDeadline` | backend/src/operations/controlledRestore.ts:404-421 | a client released as healthy is trusted and has its settings |
| `RestoreSession.RestoreServer.DropTargetAfterDrain` | backend/src/operations/controlledRestore.ts:334-351 | drain, drop and check compute the specified disposal |
| `RestoreSession.RestoreToFreshTarget` | backend/src/operations/controlledRestore.ts:641-790 | the create, verify and cleanup paths compute the specified report and target; no untrusted client is released as healthy |
| `RestoreSession.DiscardedMeansAbsentIff` | backend/src/operations/controlledRestore.ts:743-789 | a target reported discarded was seen absent without sessions, and stays absent unless an abandoned CREATE was still running |
| `RestoreSession.CompleteIff` | backend/src/operations/controlledRestore.ts:641-742 | a restore is complete if and only if CREATE was sent and it, every stage, the closing of the sessions and the last look at the target succeeded in time |
| `RestoreSession.FailureReports` | backend/src/operations/controlledRestore.ts:743-790 | otherwise it reports a failed preflight or a discarded target if and only if CREATE was never sent, or the target was drained, dropped, seen absent and still without sessions, and its pools ended and the password file is gone; anything else is unconfirmed |
| `RestoreSession.OtherReports` | backend/src/operations/controlledRestore.ts:646-651 | complete means present; a failed preflight or a name already taken changes nothing |
| `RestoreSession.AbandonedCreateAppears` | backend/src/operations/controlledRestore.ts:743-789 | a restore whose discarded target appears afterwards |
| `Migrations.LoadMigrations` | backend/src/db/migrate.ts:50-58 | a chain is accepted if and only if it is numbered from one without gap or repetition |
| `Migrations.MigrationRunner.ApplyMissing` | backend/src/db/migrate.ts:104-140 | the checks and the loop compute the specified database and result |
| `Migrations.MigrationRunner.RunMigrations` | backend/src/db/migrate.ts:156-170 | only an empty database or one with a ledger is migrated |
| `Migrations.MigrationRunner.AdoptRecognizedPreP3Database` | backend/src/db/migrate.ts:173-210 | only a recognised database without a ledger is adopted, baseline first |
| `Migrations.LedgerIsPrefix` | backend/src/db/migrate.ts:104-210 | through any failed, interrupted and completed runs and adoptions over a growing chain the ledger is a prefix of it, and its migrations were committed once each and in order |
| `Migrations.CommittedStays` | backend/src/db/migrate.ts:119-139 | what was committed is never repeated or lost |
| `Migrations.NormalReturnIsCurrent` | backend/src/db/migrate.ts:228-262 | a run that returns normally satisfies the runtime check for its chain |
| `Migrations.ReturnsIff` | backend/src/db/migrate.ts:104-170 | a run without failures returns normally if and only if the database is empty or has a ledger and the chain reaches it |
| `MigrationOutcomes.RunReaches` | backend/src/db/migrate.ts:104-170 | after any history a run commits the missing migrations in order up to the first whose transaction fails, which leaves nothing, or whose commit is reported lost, which leaves that one; it returns normally if and only if there is none |
| `MigrationOutcomes.AdoptReaches` | backend/src/db/migrate.ts:173-210 | adopting a recognised database records the first migration without executing it and then applies the others as a run does |
| `MigrationOutcomes.TamperedRefused` | backend/src/db/migrate.ts:104-118 | a ledger row with another version, name or checksum than the package stops every run before any change |
| `Migrations.CurrentIff` | backend/src/db/migrate.ts:253-258 | the runtime check accepts exactly the whole chain |

## Left out

- The React front end, HTTP routes, uploads, cookies, host checks, the provider, mail and geocoding clients, bcrypt, JWT and HMAC internals, service-area geometry, process spawning, configuration, monitoring, retention and admin listings: plumbing, foreign calls or single-branch rules that would only add easy members.
- Admission: the counters other than the number of accepted entries are not claimed, since a cancelled entry may still bump the timeout counter; budget days outside the years 0 to 9999, where the code's day text changes length.
- ImportQueue.BlockedStarvesQueue: the oldest queued batch is never skipped for a row lock that a statement of another process still holds; without that the claim could take a later one once.
- Import: point and audit ids (a rolled-back statement leaves gaps in the sequences) and the order of audit events inside one statement (creates before updates), so audit events are compared as a multiset; no other writer of the inventory runs during a batch; a lease may expire at any time instead of after its duration; how many rows a replay takes before the next bulk statement is in the model but claimed by no lemma.
- Scheduler: the advisory lock is taken as mutual exclusion of whole invocations; file modes and symbolic links are not modelled, nor what a crash of the machine does to bytes that were written but not made durable.
- Rate limits: attempts on one counter are taken to commit in the order of their statement timestamps; a statement that waits for the row lock keeps its earlier timestamp, which is not modelled.
- Export: a client that disconnects in the middle, and the framing of the JSON and GeoJSON documents around the strings; other writers of the table during an export.
- AddressLimiter.AddressIpLimiter.ConsumeAddress: tokens are counted exactly in sixty-thousandths, so the rounding of the code's floating-point tokens is not modelled.
- ClientAddress.ParseCidr: the text is taken as already trimmed and cut at its slashes.
- RestoreSession.RestoreToFreshTarget: the stages between creating and verifying the target (archive pipeline, grants, checks) are one step that succeeds or fails; their pool clients are covered by `RestoreSession.RestoreClient.QueryPoolWithinDeadline`.
- Migrations: file names and checksums are taken as given, and the content of the preflight for version 0002 is one way for its transaction to fail.
