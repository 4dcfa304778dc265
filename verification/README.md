# Verified model of the cloud-run services

This project models, in Dafny, the parts of the AI company API that hold money, leases and
audit state together, and proves what they promise over every run of the system.

**The cloud-run lease protocol and its money.** A state machine over tables of runs, local
runs, stored objects, reservations, wallets, spend limits and ledger rows (`CloudRunner.dfy`,
`Budgeting.dfy`), with any number of runs, workers and workspaces in any interleaving. Each
step carries the clock of whoever makes it; one step reads the clock once. The steps are:

- enqueue, with its outcomes (refused for credit or limit, created, queue failure, runtime failure);
- lease claim, heartbeat, upload, and cancel: one step each, the claim with its ordered query;
- requeue of the batch of expired leases that the ordered query selects: one step;
- completion of a lease: one step that accepts and finalises, with the task state machine
  allowing or rejecting the transition;
- local processing: two steps, claim and finish, so that a cancel can land between them;
- synchronisation of a run's log stream, in any status, and cleanup of stored objects;
- usage rows that callers append to the ledger, with or without a run;
- grants and changes of spend limits.

Budgeting transactions are serialised. `RunInvariants.dfy` and `RunSteps.dfy` show what every
step keeps, `RunTheorems.dfy`, `LeaseFencing.dfy`, `RunMoney.dfy` and `RunLedger.dfy` what
follows for whole histories. `RunQueries.dfy`, `RunCallbacks.dfy`, `RunResults.dfy`,
`RunCalls.dfy` and `BudgetCalls.dfy` say call by call who is served, what is accepted and what
it does, without the functions that compute it; `RunOrigins.dfy` and `RunPrices.dfy` trace
every run to its enqueue and its price over whole histories.
`BudgetStore.dfy` and `RunStore.dfy` are the same services as classes that update their tables
in place; each method is proved to make the step of the state machine, and a run store is
always in a reachable state, so the theorems hold of it.

**Paging of the merged log.** `LogPaging.dfy` compares windowed reads over two concatenated
sources with the full listing; `LogCursor.dfy`, `Json.dfy`, `Base64.dfy` and `IsoTime.dfy` are
the printer and the parser of the opaque cursor.

**The audit retention schedule.** `Retention.dfy` is the claim protocol with fencing tokens,
takeover and arbitrary clocks, and the cleanup that it schedules.

**Smaller algorithms with loops.** Secret redaction (`Redaction.dfy`, `RedactionLayout.dfy`), renaming duplicate
reviews and the search for a free name (`Reclassification.dfy`, `FreshNames.dfy`), the two-pass
artifact cleanup (`ArtifactCleanup.dfy`), the identity schema plan against its apply
(`SchemaMigration.dfy`), session secret rotation (`SessionRotation.dfy`) and CSRF tokens across
rotations (`Csrf.dfy`).

## Where the code does less than one might expect

- A released reservation does not mean that its run never started. Cancelling a queued run
  releases its reservation even after earlier leases expired; it never started exactly when
  its attempt counter is zero. And a failed runtime submission is settled, although nothing ran.
- A completion can be accepted more than once for a run without a callback token: when the
  task state machine rejects the transition, the finalisation is rolled back and the run stays
  open. With a token this cannot happen.
- When a local run's transition is rejected, the run fails but keeps the artifact that was
  recorded before the rejection, so a failed run can have an artifact.
- Redaction is complete, for secrets that neither contain the mark nor overlap an end of it,
  exactly when none occurs or none is part of the mark: the secret "red" is printed by the mark
  that replaces it. A secret that contains the mark can be completed by replacing another.
- A terminal row is not quite frozen: a log synchronisation stores one more object and rewrites
  the log reference of a run in any status.
- A claim that names no run is refused while the oldest claimable run does not accept its
  credential, even when runs behind it would.
- A client that follows the cursors of a log at work misses the control-plane rows that are
  written after its page has reached the stream.
- The counted total of a month can exceed the limit by what older reservations still held.
- An empty schema plan promises that no column is added and no audit row is back-filled, not
  that the apply changes nothing: identity rows can still be filled.
- The sequence number of a control-plane log entry is its place on the page, so pages agree
  with the full listing up to that number.

## Model

| member | source | states |
|---|---|---|
| RunSteps.Reachable | apps/api/app/ai_company_api/services/cloud_runner.py:283-957 | in every state that any interleaving of steps reaches, every run satisfies the status, lease, artifact, cancel and money invariants together |
| RunSteps.NextIsSound | apps/api/app/ai_company_api/services/cloud_runner.py:2028-2303 | a step of any kind keeps those invariants and moves every run only forward: of a terminal row only the log reference can change, cancel requests and used tokens stay, each change of status uses some of the retry measure |
| RunSteps.EnqueueIsSound | apps/api/app/ai_company_api/services/cloud_runner.py:350-568 | an enqueue adds one run that is queued and holds its reservation, or failed with the reservation released (queue), or failed with it settled (runtime), and changes no other run |
| RunTheorems.StatusIsMirrored | apps/api/app/ai_company_api/services/cloud_runner.py:1619-1722 | the local run always shows the cloud run's status and artifact; completed_at is set exactly in the terminal statuses; a patch-ready run has a recorded artifact of its own and no cancel request; a cancelled run had one and keeps no artifact |
| RunResults.CompletionMeans | apps/api/app/ai_company_api/services/cloud_runner.py:2028-2284 | an accepted completion cancels a run that was asked to cancel, leaves one whose patch the task does not allow as it was, and otherwise shows the result: patch-ready exactly when it is ready, failed exactly when it is not, with its reason, and an artifact exactly when it is ready or failed its tests with a diff; the token is used up and no other run touched |
| RunResults.LocalFinishMeans | apps/api/app/ai_company_api/services/cloud_runner.py:1480-1562 | the same for a local worker, where a preflight failure and a patch that the task does not allow fail the run |
| RunResults.PatchReadyWasReady | apps/api/app/ai_company_api/services/cloud_runner.py:2074-2284 | over whole histories, every patch-ready run was closed by a ready result that the task allowed, through its lease or its local worker |
| RunCalls.CancelMeans | apps/api/app/ai_company_api/services/cloud_runner.py:1725-1900 | a queued run is cancelled and refunded on the spot, a running one only marked, the first request staying on record, and a closed one left alone |
| RunCalls.RequeueMeans | apps/api/app/ai_company_api/services/cloud_runner.py:865-957 | each overdue run that a requeue takes waits again without its lease while it has attempts left, and otherwise fails and is charged; no other run is touched |
| RunCalls.LocalClaimMeans | apps/api/app/ai_company_api/services/cloud_runner.py:1565-1582 | a local worker takes exactly a queued run, and no attempt is counted |
| RunCalls.EnqueueMeans | apps/api/app/ai_company_api/services/cloud_runner.py:283-568 | an enqueue is refused exactly when a limit or the wallet does not cover it; otherwise there is one new run, failed and refunded exactly when its message was not taken, failed and charged exactly when its submission was not, and queued otherwise |
| RunCalls.SyncMeans | apps/api/app/ai_company_api/services/cloud_run_log_sync.py:22-124 | which log synchronisations change something, and what |
| RunCalls.DropMeans | apps/api/app/ai_company_api/services/artifact_plane.py:338-369 | a cleanup of stored objects takes exactly the given rows away |
| RunCalls.AppendMeans | apps/api/app/ai_company_api/services/usage_ledger.py:105-193 | who may append a usage row for a run, what the row shows, and which refusal anyone else gets |
| RunTheorems.TerminalIsForever | apps/api/app/ai_company_api/services/cloud_runner.py:1733-1745 | once patch-ready, failed or cancelled, the row except for its log reference, its local run and its reservation never change, whatever steps follow |
| RunTheorems.CancelIsNeverLost | apps/api/app/ai_company_api/services/cloud_runner.py:1836-1900 | a cancel request is never withdrawn and its run never becomes patch-ready, wherever in its life the request landed |
| RunTheorems.RetriesAreBounded | apps/api/app/ai_company_api/services/cloud_runner.py:890-952 | attempts never exceed the maximum, a queued run has an attempt left and no lease, and the status changes at most twice per allowed attempt over the whole history |
| RunTheorems.MoneyFollowsRun | apps/api/app/ai_company_api/services/cloud_runner.py:1784-1800 | a run's reservation is held exactly while it is queued or running; afterwards the row shows what it cost; a charged run had started or failed its runtime submission; a refunded run never started exactly when its attempt counter is zero |
| RunTheorems.ClosingChargesWhatRan | apps/api/app/ai_company_api/services/cloud_runner.py:908-929 | the step that closes a queued run cancels and refunds it; the step that closes a running run charges it |
| RunTheorems.QueuedCancelReleases | apps/api/app/ai_company_api/services/cloud_runner.py:1725-1800 | a queued cancel releases the reservation however often the run was leased before; the run never started if and only if its attempt counter is zero at the call |
| RunTheorems.ReleasedAfterRunning | apps/api/app/ai_company_api/services/cloud_runner.py:930-942 | a concrete history (lease, expiry, requeue, cancel) whose released run had been claimed: a release does not mean that the run never started |
| LeaseFencing.CallbacksAreFenced | apps/api/app/ai_company_api/services/cloud_runner.py:2378-2475 | over whole histories, every accepted callback was made under the lease its run was out on, with no expiry, completion or newer lease in between, so it precedes the run's next lease |
| RunCallbacks.AcceptedExactly | apps/api/app/ai_company_api/services/cloud_runner.py:2378-2475 | in every reachable state a callback is accepted if and only if its worker holds the lease, the lease lasts, and the credential opens the run: the secret of an unused token that has not expired, or no token and none insisted on |
| RunCallbacks.RefusalSaysWhy | apps/api/app/ai_company_api/services/cloud_runner.py:2386-2475 | which of the three refusals a callback gets, exactly |
| RunCallbacks.HeartbeatMeans | apps/api/app/ai_company_api/services/cloud_runner.py:827-862 | an accepted heartbeat rewrites the two lease times of its run and nothing else; a refused one nothing |
| RunCallbacks.UploadMeans | apps/api/app/ai_company_api/services/cloud_runner.py:1373-1422 | an accepted upload adds one stored object of the run whose lease it presents, and nothing else |
| RunOrigins.AcceptedCarriedItsSecret | apps/api/app/ai_company_api/services/cloud_runner.py:2478-2537 | over whole histories, every accepted callback of a protected run came from the worker its enqueue named, with the secret of that enqueue, within its hour |
| RunOrigins.RunsComeFromEnqueues | apps/api/app/ai_company_api/services/cloud_runner.py:350-410 | every run was enqueued by one step of the history, and its row still shows the workspace, task, providers and token of that request |
| LeaseFencing.OneCompletionPerRun | apps/api/app/ai_company_api/services/cloud_runner.py:1425-1477 | after a completion that closed its run, no callback, lease or expiry of that run is ever recorded |
| LeaseFencing.TokenAllowsOneCompletion | apps/api/app/ai_company_api/services/cloud_runner.py:1453-1470 | a run with a callback token accepts no callback after a completion, even one whose finalisation was rejected |
| LeaseFencing.AbortedCompletionCanRepeat | apps/api/app/ai_company_api/services/cloud_runner.py:2271-2278 | an accepted completion leaves its run open if and only if it creates an artifact, no cancel was requested and the task transition is rejected; without a token the same completion is then accepted again |
| LeaseFencing.CompletedTwice | apps/api/app/ai_company_api/services/cloud_runner.py:1425-1477 | a concrete history in which one completion of a run without a token is accepted twice and rejected by the task both times, and then closes the run once the task allows it |
| LeaseFencing.AcceptableOrRequeueable | apps/api/app/ai_company_api/services/cloud_runner.py:876-888 | at any instant the lease of a running run is acceptable or up for requeueing, never both and never neither; a locally claimed run is neither |
| LeaseFencing.LeaseLastsAsAsked | apps/api/app/ai_company_api/services/cloud_runner.py:736-748 | a lease claimed or renewed is acceptable up to the last instant of the seconds asked for and requeueable from the next, for every instant |
| RunCredentials.TokenOpensItsRun | apps/api/app/ai_company_api/services/cloud_runner.py:2478-2542 | a run of a remote runtime or a remote queue opens exactly to the worker named after its provider and the secret it was created with, for one hour, until its token is used; any other run to any worker that does not insist on a token |
| RunQueries.UnnamedClaimServesTheFirst | apps/api/app/ai_company_api/services/cloud_runner.py:662-751 | a claim that names no run leases the first waiting run by creation time and id, and changes no other, exactly when the credential opens it; otherwise it is refused, whatever is queued behind it |
| RunQueries.NamedClaimServesItsRun | apps/api/app/ai_company_api/services/cloud_runner.py:662-792 | a claim that names its run leases that run and no other, exactly when it waits in the queue and the credential opens it; the conflict, the refusals and no work have exact conditions too, and then nothing changes |
| RunQueries.UnnamedClaimWithoutWork | apps/api/app/ai_company_api/services/cloud_runner.py:650-661 | without a waiting run there is no work, and a claim that insists on a token must name its run |
| RunQueries.FirstClaimableMeans | apps/api/app/ai_company_api/services/cloud_runner.py:662-675 | the first candidate of the ordered query waits in the queue and was created before every other waiting run; there is none exactly when no run waits |
| RunQueries.OldestExpireFirst | apps/api/app/ai_company_api/services/cloud_runner.py:877-888 | overdue runs are taken in order of expiry and id, and one is left for later exactly when the batch is full of older ones |
| RunQueries.QueryIsBatch | apps/api/app/ai_company_api/services/cloud_runner.py:877-888 | the expiry query answers distinct runs of the provider, all of them running under a lease that is over |
| LeaseFencing.HistoryIsFenced | apps/api/app/ai_company_api/services/cloud_runner.py:1585-1616 | lease ids are never shared, the trace and the rows agree on who holds which lease, and issue order is lease order, in every reachable state |
| BudgetLaws.Conservation | apps/api/app/ai_company_api/services/budgeting.py:232-420 | after any sequence of grants, limits, reserves, assignments, releases and settles, crossed or repeated, balance plus held plus settled cents equal the grants, and no balance is negative |
| BudgetLaws.MonthlySpendIsBounded | apps/api/app/ai_company_api/services/budgeting.py:173-229 | inside a month with an unchanged positive limit the counted total never exceeds the limit plus what older reservations held at the month's start, and the month's own reservations never exceed the limit |
| BudgetLaws.MonthCanExceedItsLimit | apps/api/app/ai_company_api/services/budgeting.py:197-229 | a concrete history, for any run, in which the counted total of a month exceeds its limit: an older reservation is settled in it |
| BudgetCalls.ReserveAnswers | apps/api/app/ai_company_api/services/budgeting.py:173-275 | when a reservation is over a limit, short of credit, or granted, exactly, and that only a grant changes anything: a hundred cents from the wallet to one new reservation |
| BudgetCalls.CountsInItsMonth | apps/api/app/ai_company_api/services/budgeting.py:197-229 | a reservation counts what it holds in the month it was made in and what it cost in the month it was settled in |
| BudgetCalls.LimitsTakeEffect | apps/api/app/ai_company_api/services/budgeting.py:661-678 | a limit decides the next reservations of its workspace, unless it was switched off, and of no other |
| BudgetCalls.ReleaseReturnsAll | apps/api/app/ai_company_api/services/budgeting.py:326-359 | a release returns the whole reservation once, and the run shows no cost |
| BudgetCalls.SettleChargesTheRun | apps/api/app/ai_company_api/services/budgeting.py:362-420 | a settlement closes its reservation at the measured cost capped by what was reserved, returns the rest, and shows both on the run |
| RunMoney.ProtocolRefinesBooks | apps/api/app/ai_company_api/services/cloud_runner.py:350-568 | whatever steps of the run protocol follow a history, some sequence of budgeting transactions with the same grants and times takes the one state's books to the other's |
| RunMoney.CreditsAreConserved | apps/api/app/ai_company_api/services/budgeting.py:251-420 | conservation over every run of the protocol, for every workspace |
| RunMoney.RunsPayFromGrants | apps/api/app/ai_company_api/services/budgeting.py:391-399 | wallet plus, for each run of the workspace, the full reservation while it is open and the cost on its row once closed, equal the grants, in every reachable state |
| RunMoney.MonthlyRunSpendIsBounded | apps/api/app/ai_company_api/services/budgeting.py:197-229 | the monthly bound over every run of the protocol |
| RunLedger.ChargesAreItemised | apps/api/app/ai_company_api/services/budgeting.py:380-400 | in every reachable state, whatever usage callers appended for the run, it has ledger rows of the settlement's types exactly when it was settled; they add up to its measured cost, of which it pays what the reservation covers; run and usage type stay unique |
| RunLedger.AppendKeepsLedger | apps/api/app/ai_company_api/services/usage_ledger.py:130-193 | an appended usage row changes no run's bill and takes no usage type from a later settlement, because the settlement's own types are refused |
| RunPrices.RunsCostWhatTheyRan | apps/api/app/ai_company_api/services/budgeting.py:362-483 | over whole histories, a charged run shows 25 cents, one per second it ran, one for its queue message and at most one for its log, and paid that up to the hundred cents reserved; a released run paid nothing and an open one nothing yet |
| SettlementLaws.SettlementWritesOnce | apps/api/app/ai_company_api/services/budgeting.py:362-420 | the first settlement of a run, whatever rows of other types it already has, writes one row per measured usage type, in order; the rows add up to the measured cost; billable is the minimum of measured and reserved; the rest returns to the wallet |
| SettlementLaws.CostIsTheSum | apps/api/app/ai_company_api/services/budgeting.py:423-483 | the measured cost is 25 cents, plus the whole seconds between claim and completion (one for less than two seconds, none for a run that was never claimed), one for the queue message and one per known log synchronisation; storage is free |
| SettlementLaws.RuntimeIsMeasured | apps/api/app/ai_company_api/services/budgeting.py:423-524 | the metered seconds and log synchronisations are the one number that the elapsed time, the counted calls, the runtime and the log stream give |
| SettlementLaws.MeasuredExactly | apps/api/app/ai_company_api/services/budgeting.py:432-483 | which usage types are measured, each with its quantity and cents, in both directions |
| SettlementLaws.RowShowsMeasurement | apps/api/app/ai_company_api/services/budgeting.py:527-571 | a ledger row carries the run and the figures of its measurement, and its quantity at its unit price is its amount |
| SettlementLaws.StorageCountsOwn | apps/api/app/ai_company_api/services/budgeting.py:486-510 | storage is measured from the manifest, the log stream and the run's own stored objects, in both directions |
| SettlementLaws.ClosingTwiceAddsNothing | apps/api/app/ai_company_api/services/budgeting.py:278-323 | after a settle or a release, no settle or release of any row naming that reservation changes the books |
| SettlementLaws.SizesByRefMeans | apps/api/app/ai_company_api/services/budgeting.py:486-510 | a storage reference is measured exactly when a positive size was seen for it, at the largest such size |
| SettlementLaws.StorageBytesIgnoreOrder | apps/api/app/ai_company_api/services/budgeting.py:486-510 | measured bytes depend only on which rows there are: each reference counts once in whatever order and however often it is listed |
| SettlementLaws.UsageStaysUnique | apps/api/app/ai_company_api/services/budgeting.py:527-571 | appending usage only adds rows and keeps run and usage type unique, whatever the ledger held |
| SettlementLaws.FreshUsageIsAppended | apps/api/app/ai_company_api/services/budgeting.py:380-389 | for a run without rows of the settlement's types every measurement becomes one row, in order, and the amounts add up |
| SettlementLaws.SummaryAddsUp | apps/api/app/ai_company_api/services/budgeting.py:712-733 | the grouped items of a summary add up to all selected rows |
| BudgetCalls.SummaryMeans | apps/api/app/ai_company_api/services/budgeting.py:681-733 | a summary lists exactly the types that a wanted row has, with the quantities and amounts of those rows added up over the whole ledger |
| BudgetCalls.SummaryIsInOrder | apps/api/app/ai_company_api/services/budgeting.py:717-733 | the items follow the order of their types, each type once |
| Calendar.MonthIsUnique | apps/api/app/ai_company_api/services/budgeting.py:201-210 | the month windows partition time: an instant lies in exactly one |
| Calendar.YearStarts | apps/api/app/ai_company_api/services/budgeting.py:201-210 | month starts agree with the closed form of the Gregorian calendar |
| BudgetTables.BudgetStore.CurrentMonthReservedAndSettled | apps/api/app/ai_company_api/services/budgeting.py:197-229 | the two sums equal the counted total of the month of the clock |
| BudgetTables.BudgetStore.ReserveCloudRunBudget | apps/api/app/ai_company_api/services/budgeting.py:251-275 | the new tables and the answer are those of the reserve transaction, with its two refusals |
| BudgetTables.BudgetStore.TransitionReservedReservation | apps/api/app/ai_company_api/services/budgeting.py:293-323 | the conditional update moves exactly a reservation that is still reserved |
| BudgetTables.BudgetStore.ReleaseCloudRunReservation | apps/api/app/ai_company_api/services/budgeting.py:326-359 | the new tables and run row are those of the release transaction |
| BudgetTables.BudgetStore.SettleCloudRunBudget | apps/api/app/ai_company_api/services/budgeting.py:362-420 | the new tables and run row are those of the settle transaction, its loop over measurements included |
| BudgetTables.BudgetStore.CloudRunUsageMeasurements | apps/api/app/ai_company_api/services/budgeting.py:432-483 | the measured list, type by type |
| BudgetTables.BudgetStore.ObjectStorageBytes | apps/api/app/ai_company_api/services/budgeting.py:486-510 | filling the dictionary and summing it gives the sum of the largest size per reference |
| BudgetTables.BudgetStore.GroupByType | apps/api/app/ai_company_api/services/budgeting.py:712-717 | the running totals hold exactly the usage types that occur, with the sums of their rows |
| BudgetTables.BudgetStore.WorkspaceUsageSummary | apps/api/app/ai_company_api/services/budgeting.py:681-733 | the items are the per-type sums in name order, and the reported total is the sum over all selected rows |
| BudgetTables.BudgetStore.GrantManualCredit | apps/api/app/ai_company_api/services/budgeting.py:232-248 | only the workspace's wallet grows, by the granted cents |
| BudgetTables.BudgetStore.AppendUsageLedgerEntry | apps/api/app/ai_company_api/services/usage_ledger.py:130-188 | a row is added unless settlement owns its type for a run or the run already has a row of that type |
| BudgetTables.BudgetStore.SetWorkspaceSpendLimit | apps/api/app/ai_company_api/services/budgeting.py:661-678 | only the workspace's limits change, and an inactive limit stays inactive |
| RunTables.RunStore.EnqueueCloudRun | apps/api/app/ai_company_api/services/cloud_runner.py:283-619 | the tables and the answer are those of the enqueue step with its four outcomes, and stay a reachable state |
| RunTables.RunStore.ClaimNextCloudRunLease | apps/api/app/ai_company_api/services/cloud_runner.py:637-792 | the tables and the answer are those of the lease-claim step with its ordered query: refusals, no work, active lease or a fresh lease |
| RunTables.RunStore.NothingToClaim | apps/api/app/ai_company_api/services/cloud_runner.py:678-717 | the refusals and the conflict when the query offers no candidate |
| RunTables.RunStore.HeartbeatCloudRunLease | apps/api/app/ai_company_api/services/cloud_runner.py:827-862 | an accepted heartbeat renews only the two lease times of its run; a refused one changes nothing |
| RunTables.RunStore.UploadLeaseArtifact | apps/api/app/ai_company_api/services/cloud_runner.py:1373-1422 | an accepted upload adds one stored object; a refusal or store failure changes nothing |
| RunTables.RunStore.FinalizeClaimedCloudRunResult | apps/api/app/ai_company_api/services/cloud_runner.py:2028-2284 | cancelled, already closed, rejected or finished and settled, exactly as the finalisation step |
| RunTables.RunStore.CompleteCloudRunLease | apps/api/app/ai_company_api/services/cloud_runner.py:1425-1477 | acceptance uses up the token, then finalises; a rejected task transition rolls the finalisation back and keeps the acceptance |
| RunTables.RunStore.ClaimCloudRun | apps/api/app/ai_company_api/services/cloud_runner.py:1565-1582 | a local worker claims exactly a queued run, cancelled or not |
| RunTables.RunStore.ProcessClaimedCloudRun | apps/api/app/ai_company_api/services/cloud_runner.py:1480-1562 | the rest of local processing: preflight failure, or finalisation, which a rejected transition turns into a failure |
| RunTables.RunStore.RequeueExpiredCloudRunLeases | apps/api/app/ai_company_api/services/cloud_runner.py:865-957 | the loop over the rows of the expiry query equals the batch step and answers those rows: each run requeued, or failed and settled when its attempts are used up |
| RunTables.RunStore.CancelCloudRun | apps/api/app/ai_company_api/services/cloud_runner.py:1725-1900 | a queued run is cancelled and released, a running one is asked to cancel, a terminal one is left alone |
| RunTables.RunStore.SyncCloudRunLogStream | apps/api/app/ai_company_api/services/cloud_run_log_sync.py:22-124 | a run with a runtime provider and new log content, in any status, gets one more stored object and the reference to it; nothing else changes |
| RunTables.RunStore.DeleteStoredObjects | apps/api/app/ai_company_api/services/artifact_plane.py:338-369 | a cleanup takes any stored rows away, in one pass, and the state stays reachable |
| RunTables.RunStore.AppendUsage | apps/api/app/ai_company_api/services/usage_ledger.py:142-193 | the tables and the answer are those of the append step: unknown or mismatched run, settlement-owned type, duplicate, or one more row completed from its run |
| LogPaging.PagingIsFullListing | apps/api/app/ai_company_api/services/cloud_run_logs.py:80-121 | over an unchanged log, following next_cursor from any position yields every later entry in order, once |
| LogPaging.FromTheStart | apps/api/app/ai_company_api/services/cloud_run_logs.py:182-291 | the listing from the start is every control-plane row in query order and then every stream line |
| LogPaging.HasMoreIsExact | apps/api/app/ai_company_api/services/cloud_run_logs.py:96-134 | has_more holds exactly when entries remain; then the page is full and its cursor can be read; otherwise there is no cursor |
| LogPaging.PagesAreFull | apps/api/app/ai_company_api/services/cloud_run_logs.py:96-134 | paging ends after the number of entries over the limit, rounded up, and never on an extra empty page |
| LogPaging.GrowingLogIsFollowed | apps/api/app/ai_company_api/services/cloud_run_logs.py:76-121 | over a log that grows between two pages, a page and what its cursor leaves are the whole grown listing if and only if the page ends among the rows or no row was added past the cursor |
| LogPaging.FreshLinesAreShown | apps/api/app/ai_company_api/services/cloud_run_logs.py:77-94 | a synchronised read shows the rows and then exactly the fetched lines; without it, or with an unreadable cursor, the stream is left alone |
| LogPaging.CursorOfEntry | apps/api/app/ai_company_api/services/cloud_run_logs.py:333-351 | the position printed for an entry leaves exactly the entries after it, across the seam between the two sources |
| LogPaging.ListCloudRunLogWindow | apps/api/app/ai_company_api/services/cloud_run_logs.py:54-134 | after the optional synchronisation, which an unreadable cursor prevents, the window read in two parts is the first part of everything after the cursor, cut at the limit |
| LogPaging.LogStreamEntries | apps/api/app/ai_company_api/services/cloud_run_logs.py:232-291 | the loop with its early exit returns the first lines from the cursor's line on, up to the limit |
| LogCursor.CursorReadsBack | apps/api/app/ai_company_api/services/cloud_run_logs.py:137-179 | decoding the cursor printed for any position gives back that position |
| LogCursor.CursorsAreDistinct | apps/api/app/ai_company_api/services/cloud_run_logs.py:354-356 | distinct positions have distinct cursors |
| LogCursor.StreamCursors | apps/api/app/ai_company_api/services/cloud_run_logs.py:137-179 | which objects are cursors of the stream, and of which line |
| Base64.DecodeInvertsEncode | apps/api/app/ai_company_api/services/cloud_run_logs.py:144-145 | every byte sequence of every length is read back from its encoding (section 5 of RFC 4648) |
| Base64.PadInvertsStrip | apps/api/app/ai_company_api/services/cloud_run_logs.py:144-356 | the stripped padding is restored from the length alone, and what is sent is non-empty alphabet symbols |
| Json.ObjectReadsBack | apps/api/app/ai_company_api/services/cloud_run_logs.py:354-356 | every flat object with text, integer, null and boolean values is read back from its printed form |
| Json.StringReadsBack | apps/api/app/ai_company_api/services/cloud_run_logs.py:354-356 | every text survives escaping, surrogate pairs included |
| IsoTime.TimeReadsBack | apps/api/app/ai_company_api/services/cloud_run_logs.py:168-347 | every datetime of the years 1 to 9999 is read back from isoformat, with or without microseconds |
| Retention.CompletionsAreADayApart | apps/api/app/ai_company_api/services/audit_operations.py:376-445 | successive completion times differ by at least a day, whatever the workers' clocks, crashes and takeovers |
| Retention.OnlyTheHolderCommits | apps/api/app/ai_company_api/services/audit_operations.py:420-437 | a commit directly follows the claim that drew its token, and a token commits at most once |
| Retention.SupersededHasNoEffect | apps/api/app/ai_company_api/services/audit_operations.py:420-437 | once another worker claimed or committed after it, a worker's cleanup changes nothing at all |
| Retention.CrashBlocksForTheTimeout | apps/api/app/ai_company_api/services/audit_operations.py:380-404 | a due cleanup is refused exactly while an open claim is younger than the timeout |
| Retention.ClaimedExactly | apps/api/app/ai_company_api/services/audit_operations.py:376-404 | over whole histories, a worker gets the cleanup exactly when every completion is at least a day old and the last event is no claim of less than an hour |
| Retention.CompletedExactly | apps/api/app/ai_company_api/services/audit_operations.py:406-445 | over whole histories, a cleanup is committed exactly when the last event is still its own claim |
| Retention.FailuresAndOperatorsMean | apps/api/app/ai_company_api/services/audit_operations.py:436-475 | a recorded failure adds its trace and leaves the claim open, and an operator's cleanup leaves the schedule alone |
| Retention.CountsMean | apps/api/app/ai_company_api/services/audit_operations.py:234-284 | the four counts, each as the number of rows that were there and lose their details or go |
| Retention.CleanupMeans | apps/api/app/ai_company_api/services/audit_operations.py:230-274 | what a cleanup keeps, strips and records, in both directions |
| Retention.CleanupIsIdempotent | apps/api/app/ai_company_api/services/audit_operations.py:221-284 | cleaning again at the same instant removes nothing and adds only its own trace |
| Retention.RetentionStore.ClaimCleanup | apps/api/app/ai_company_api/services/audit_operations.py:378-404 | the conditional claim as a compare-and-swap on due and free |
| Retention.RetentionStore.CompleteCleanup | apps/api/app/ai_company_api/services/audit_operations.py:406-445 | cleanup with the conditional completion, or a complete rollback |
| Retention.RetentionStore.RunAuditRetentionCleanup | apps/api/app/ai_company_api/services/audit_operations.py:221-284 | the tables after one cleanup, and its four counts |
| Redaction.RedactionIsComplete | apps/api/app/ai_company_api/services/cloud_sandbox_executor.py:8-12 | for secrets that neither contain the mark nor overlap an end of it, the output contains none of them if and only if none occurs in the input or none is part of the mark |
| Redaction.BracketFreeIsSafe | apps/api/app/ai_company_api/services/cloud_sandbox_executor.py:8-12 | a secret without brackets never overlaps an end of the mark, and is part of it exactly when it is part of the word redacted |
| Redaction.RedactionIsIdempotent | apps/api/app/ai_company_api/services/cloud_sandbox_executor.py:8-12 | for any secrets: a text without secrets is never changed, and a text that redaction has cleaned is not changed by redacting it again |
| Redaction.OnlyCleanTextsAreKept | apps/api/app/ai_company_api/services/cloud_sandbox_executor.py:8-12 | for secrets without brackets a text is left unchanged if and only if it contains none, and redacting twice equals redacting once if and only if the first time removed them all |
| Redaction.WholeSecretLeavesNothing | apps/api/app/ai_company_api/services/cloud_sandbox_executor.py:10 | longest first: a text that is one of the secrets becomes exactly one mark even when shorter secrets are parts of it |
| Redaction.BracketsCanCompleteASecret | apps/api/app/ai_company_api/services/cloud_sandbox_executor.py:8-12 | a concrete list, a secret of which contains the mark, where replacing one secret completes another |
| Redaction.ReplaceCreatesNothing | apps/api/app/ai_company_api/services/cloud_sandbox_executor.py:11 | a replacement creates no bracket-free occurrence outside the mark and leaves none of the replaced secret |
| Redaction.RedactSecrets | apps/api/app/ai_company_api/services/cloud_sandbox_executor.py:8-12 | the loop computes the fold of replacements, longest secret first |
| Redaction.ResultIsRedacted | apps/api/app/ai_company_api/services/cloud_sandbox_executor.py:52-58 | no text of a redacted command result contains a secret; the exit code is kept |
| RedactionLayout.OnlySecretsAreHidden | apps/api/app/ai_company_api/services/cloud_sandbox_executor.py:8-12 | the text can be cut at some secrets so that the redaction shows all the rest of it, unchanged and in order, with one mark for each secret cut out, and no secret between the marks |
| RedactionLayout.ResultKeepsItsTexts | apps/api/app/ai_company_api/services/cloud_sandbox_executor.py:52-58 | command, output and error text are each redacted in their own place, and the exit code is kept |
| RedactionLayout.ReplaceAroundMark | apps/api/app/ai_company_api/services/cloud_sandbox_executor.py:11 | a mark keeps replacements apart: the texts before and after it are replaced each on its own |
| Reclassification.PairsAreDistinct | apps/api/app/ai_company_api/db/session.py:1287-1344 | after the renaming all pairs of artifact and reviewer kind are distinct, for any set of reviews |
| Reclassification.RowsAreKept | apps/api/app/ai_company_api/db/session.py:1317-1344 | no row is lost or moved, each pair keeps its earliest row unchanged, and a renamed row carries its old kind and its id |
| Reclassification.RenamingIsIdempotent | apps/api/app/ai_company_api/db/session.py:1287-1344 | a table without duplicates is left alone, so a second run changes nothing |
| Reclassification.PatchReviewTable.ReclassifyDuplicates | apps/api/app/ai_company_api/db/session.py:1287-1344 | the two loops and the growing sets compute the renaming |
| Reclassification.LedgerIsUnique | apps/api/app/ai_company_api/db/session.py:1426-1439 | the delete leaves run and usage type unique and keeps every row of no run and the oldest row of every pair |
| Reclassification.UniqueLedgerIsKept | apps/api/app/ai_company_api/db/session.py:1426-1439 | a ledger that is already unique loses nothing |
| FreshNames.Pigeonhole | apps/api/app/ai_company_api/db/session.py:1322-1329 | a set that holds all numbered names of a range is at least as large as the range, so the search ends |
| FreshNames.FreshNameIsLeast | apps/api/app/ai_company_api/db/session.py:1322-1329 | the chosen number is the least free one and at most the size of the set plus two |
| FreshNames.SearchFreshName | apps/api/app/ai_company_api/db/session.py:1322-1329 | the suffix loop ends with the base name or the first free numbered name |
| FreshNames.SqliteLegacyTableName | apps/api/app/ai_company_api/db/session.py:1556-1568 | the new table name is unused, and is the first free one |
| ArtifactCleanup.CleanupAdvances | apps/api/app/ai_company_api/services/artifact_plane.py:324-405 | each call deletes exactly the first deletable expired rows in order, however many undeletable ones precede them; the rest stays due in order |
| ArtifactCleanup.EveryDueRowGoes | apps/api/app/ai_company_api/services/artifact_plane.py:340-405 | after n calls exactly n times limit due rows are gone, so their number over the limit, rounded up, deletes all |
| ArtifactCleanup.OnlyDueRowsGo | apps/api/app/ai_company_api/services/artifact_plane.py:341-369 | only expired deletable rows of the workspace go; nothing is added |
| ArtifactCleanup.DueExactly | apps/api/app/ai_company_api/services/artifact_plane.py:324-372 | which rows a cleanup deletes and which it only reports, in both directions, and in which order |
| ArtifactCleanup.ReportMeans | apps/api/app/ai_company_api/services/artifact_plane.py:338-416 | the report lists the deleted rows and then the others, each up to the limit, with action and reason |
| ArtifactCleanup.ReportedIsNotDue | apps/api/app/ai_company_api/services/artifact_plane.py:371-405 | reported rows are disjoint from deletable ones |
| ArtifactCleanup.ArtifactTable.CleanupExpiredArtifacts | apps/api/app/ai_company_api/services/artifact_plane.py:311-416 | the two bounded passes report and delete the first rows of each kind |
| ArtifactCleanup.ArtifactTable.DeletePass | apps/api/app/ai_company_api/services/artifact_plane.py:338-369 | the first loop deletes the first deletable rows up to the limit |
| ArtifactCleanup.ArtifactTable.ReportPass | apps/api/app/ai_company_api/services/artifact_plane.py:371-405 | the second loop reports the first rows that cannot be deleted, up to the limit |
| SchemaMigration.PlanIsEmptyAfterApply | apps/api/app/ai_company_api/db/session.py:223-379 | from any schema and rows, the upgrade and the table creation leave nothing to plan |
| SchemaMigration.PlanAgreesWithApply | apps/api/app/ai_company_api/db/session.py:223-285 | the plan is empty if and only if every identity table exists and an apply would add no column and back-fill no audit row |
| SchemaMigration.ApplyChangesNothing | apps/api/app/ai_company_api/db/session.py:288-379 | an apply changes nothing if and only if no table lacks a column and no row, identity rows included, has a cell to fill |
| SchemaMigration.PlanMissesIdentityRows | apps/api/app/ai_company_api/db/session.py:325-357 | whatever the schema, an organization without an account kind is left out of an empty plan, and the next apply rewrites it |
| SchemaMigration.PlanMissesAnOrganization | apps/api/app/ai_company_api/db/session.py:325-357 | a concrete database with an empty plan that the next apply changes |
| SchemaMigration.UpgradeIsIdempotent | apps/api/app/ai_company_api/db/session.py:288-379 | a second apply changes nothing at all |
| SchemaMigration.UpgradeFillsOnly | apps/api/app/ai_company_api/db/session.py:325-379 | an upgrade overwrites no value, makes an organization without an account kind a legacy one, and gives audit rows without a correlation one made from their id |
| SchemaMigration.OrganizationColumns | apps/api/app/ai_company_api/db/session.py:223-240 | account classification is planned exactly when one of its two columns is missing, and an upgrade adds both |
| SchemaMigration.IdentityDatabase.UpgradeIdentityAdditiveColumns | apps/api/app/ai_company_api/db/session.py:288-379 | the nested loops over tables and columns and the updates compute the upgrade |
| SchemaMigration.IdentityDatabase.PlanIdentitySchemaMigration | apps/api/app/ai_company_api/db/session.py:223-285 | the collected actions are the plan, in order |
| SessionRotation.OneRotationPerSecret | apps/api/app/ai_company_api/services/auth_context.py:657-668 | of any number of requests that present one secret at most one rotates it |
| SessionRotation.TheOthersNeedTheGraceTime | apps/api/app/ai_company_api/services/auth_context.py:657-684 | a request that tries to rotate wins exactly when its secret is still current, and is otherwise accepted exactly within the grace time of the rotation that replaced it |
| SessionRotation.SecretsLastADay | apps/api/app/ai_company_api/services/auth_context.py:415-430 | a request rotates no secret that has been current for less than a day |
| SessionRotation.AcceptedSecretsAreRecent | apps/api/app/ai_company_api/services/user_session_credentials.py:88-169 | every accepted request presented the current secret, or the previous one within its grace time; older ones are never accepted |
| SessionRotation.OpensExactly | apps/api/app/ai_company_api/services/user_session_credentials.py:88-169 | in every reachable state an active session that is not idled out resolves exactly its current secret and, up to the end of its grace time, the one before it; presenting that one later revokes it |
| SessionRotation.PresentingMeans | apps/api/app/ai_company_api/services/auth_context.py:415-508 | a request that presents the current secret is accepted, or has a rotation to make exactly when the secret has been current for a day; one that presents the secret before it in its grace time is accepted |
| SessionRotation.RotatingMeans | apps/api/app/ai_company_api/services/auth_context.py:635-705 | a rotation and a reauthentication replace exactly the current secret, at their own time, and are on record |
| SessionRotation.ReplayRevokes | apps/api/app/ai_company_api/services/user_session_credentials.py:137-162 | presenting another secret revokes an active session exactly when it is the previous one past its grace time |
| SessionRotation.RevokedForever | apps/api/app/ai_company_api/services/user_session_credentials.py:100-119 | a session that is not active accepts and rotates nothing ever again |
| SessionRotation.RevokingMeans | apps/api/app/ai_company_api/services/user_session_credentials.py:100-119 | a revoked session is never opened by any secret again, whatever steps follow |
| SessionRotation.SessionsIdleOut | apps/api/app/ai_company_api/services/user_session_credentials.py:119-135 | in every reachable state a presented session idles out exactly when it was last seen a whole idle lifetime ago, and a request renews the activity exactly when it is an hour later than the time it read and not overtaken |
| SessionRotation.RenewingMeans | apps/api/app/ai_company_api/services/auth_context.py:509-544 | an accepted request renews its session at its own time exactly when that is an hour later than the time it read and nobody came between |
| SessionRotation.SessionRow.RotateCredential | apps/api/app/ai_company_api/services/auth_context.py:635-705 | the compare-and-swap and the fallback on the previous secret |
| SessionRotation.SessionRow.ResolveCredential | apps/api/app/ai_company_api/services/user_session_credentials.py:75-169 | the resolution with its expiry and replay effects, in the order of its checks |
| SessionRotation.SessionRow.RenewActivity | apps/api/app/ai_company_api/services/auth_context.py:509-544 | the hourly checkpoint as a compare-and-swap on the activity time that was read |
| Csrf.IssuedTokenParses | apps/api/app/ai_company_api/services/browser_request_protection.py:18-36 | an issued token parses back to its expiry, nonce and signature |
| Csrf.TokenSurvivesOneRotation | apps/api/app/ai_company_api/services/browser_request_protection.py:66-138 | over whole histories, a token is allowed until it expires if and only if its secret was not rotated since, or once with the grace time not over |
| Csrf.TokenIsBoundToItsSession | apps/api/app/ai_company_api/services/browser_request_protection.py:179-193 | a token issued to one session is refused by every other |
| Csrf.OnlySignedTokensPass | apps/api/app/ai_company_api/services/browser_request_protection.py:39-138 | a request passes if and only if it changes nothing, or comes from the public origin with an unexpired token that an accepted key signed for this session |
| Csrf.RefusalsInOrder | apps/api/app/ai_company_api/services/browser_request_protection.py:39-138 | which check a refused request failed |
| Csrf.GoodMacsExist | apps/api/app/ai_company_api/services/browser_request_protection.py:179-193 | what is assumed of the keyed hash is met by a concrete function of key and payload |

## Left out

- Permission checks, workspace audit rows, log messages and queue receipts inside the cloud-run functions: they do not affect the protocol state. Steps that a permission check or a failed artifact read refuses change nothing and are not listed as steps.
- Aliyun MNS receipt validation and deletion and ECI runtime cleanup: calls to providers around the same rows. A claim that the receipt check refuses is a claim that does not happen.
- The limit of 25 candidates of a lease claim: a step serves or refuses its first candidate, and the loop only goes on when another session takes that run inside the step.
- Ids compare as positions in the table where a query orders by id; the source compares random texts, so the order among runs of one instant is arbitrary there.
- Usage rows that name a project, task or planner run: that these rows exist and belong together is not modelled; the projects they name are parameters of the append.
- The test-support route that inserts a running run directly (`api/identity_routes.py`), behind its own setting: no step makes such a run.
- Uncommitted intermediate states of one step, database isolation and several sessions racing inside a step: an enqueue writes its failure without a compare-and-swap, so finer interleavings are not claimed.
- Object stores, queues, runtimes, the sandbox and the task state machine: their results are parameters of a step.
- Random identifiers: lease ids, claim tokens and session secrets are drawn as fresh numbers, and two token hashes are equal only for equal run, worker and secret. The keyed hash of CSRF tokens is a parameter that is assumed injective.
- The workspace of a reservation is that of its run: the access check that makes the current workspace the repository's is not modelled.
- LogCursor.DecodeCursor: reads flat JSON objects without white space, nested values or fractions, ASCII payloads and the datetime form that isoformat prints; other texts that the library parsers accept are refused here. CPython's limit on the length of integers is not modelled.
- Time zones of log rows: datetimes are naive, as the cursor prints them.
- The text of log lines: their redaction by regular expressions and the splitting of URIs rest on library behaviour. A stream that cannot be read for whatever reason is absent.
- Csrf.ParseInt: a sign and digits; the white space and underscores that `int` also accepts are refused here.
- Artifact descriptors, URI parsing and digests: a stored row carries what its URI says of its provider and object.
- Schema upgrades of other tables, index creation and the SQLite rebuilds: only the identity columns, back-fills and tables are modelled, and base columns such as `updated_at` are assumed to exist.
- HTTP routes, request schemas, the desktop application and its API client: plumbing and user interface.
- `MonotonicAuditClock`, provider logout continuation and account-link recovery: short, and would only add easy members.
- Repository URL secrets and the list of secrets of a run: redaction is proved for any list.
