# Universal Agent Studio in Dafny

A Dafny model of the parts of Universal Agent Studio in which several writers, retries, clocks and connections meet, with
proofs about all inputs, all interleavings and all runs.

* **Run lifecycle** (`RunEvents`, `RunDatabase`, `Kernel`, `RunAttempts`, `RunProtocol`, `RunSettlement`,
  `RunOutbox`, `RunRecords`). One run's rows:
  event log, status, set-once trace, memoised tool answer, webhook outbox. The activities are methods over a store whose
  fields they update; each is proved to perform a sequence of transactions. A transition system takes one transaction at a time,
  from any number of live executions, finalizers and the API's start-failure writer, with crashes anywhere.
  Chaining, trace stability, status and outbox agreement hold in every state it reaches; replays converge.
* **Webhook outbox** (`Dispatcher`, `DeliveryOutcomes`, `Fencing`, `RetryBudget`). Leases, attempt numbers as fencing
  tokens, backoff, and any interleaving of dispatchers that disagree about the time, crash, and report late or repeatedly; every claim is accounted for.
* **Versions, drafts and publications** (`Publishing`, `Refusals`, `Ledger`). Compare-and-swap steps over versions, an active pointer, a draft
  and an append-only ledger.
* **Event streaming** (`Sse`, `SseRoundTrip`, `EventStream`, `Heartbeats`, `EventMerge`, `Resume`, `StreamEndToEnd`). The
  printer, both incremental readers, the server's cursor loop, and the client that reconnects and merges; composed from the stored log to the page.
* **JSON documents** (`Json`, `Redaction`, `Diff`, `Pointers`) over unbounded trees.
* **Draft editing** (`DraftEditor`, `DraftSessions`), the **rate limiter** (`RateLimiter`), and the **graph walk**
  (`GraphWalk`, `GraphPaths`).

`Options`, `Text`, `Numbers` and `Sequences` hold what the others need about missing values, strings, powers and sequences.
Where the source updates fields or loops, the model is a class or a method proved against a specification function, and the results are lemmas about that function.

Four statements one might expect are false of the code; the model has the inputs, and says exactly when they hold.

* At most one terminal event in a run's log: a finalizer may overrule an ending (`RunSettlement.TerminalEventsMayRepeat`), and
  only that adds to an ended log (`RunSettlement.EndedLogsGrowExactly`, counted by `RunSettlement.TerminalEventsCounted`).
* Attempts within the retry budget: reclaims pass it (`RetryBudget.ReclaimsPassTheBudget`), exactly when
  `RetryBudget.BudgetIsPassedExactly` says; `Fencing.BudgetCountsReclaims` bounds them.
* Chunks of a stream may be normalised one by one: a carriage return cut from its line feed at a blank line joins two events
  (`SseRoundTrip.CutReturnsJoinEvents`). The condition of `Sse.ReceivedIsWhole` is exact for the accumulated text; for the events
  it is sufficient, not necessary, as the studio's line rule absorbs a stray carriage return at the end of a single line.
  This server prints no carriage return (`SseRoundTrip.NoReturnsPrinted`).
* At most the limit in any window: one closed at both ends may hold up to twice the limit (`RateLimiter.ClosedWindowMayHoldTwice`,
  `RateLimiter.ClosedWindowsAreBounded`), and a request overfills it exactly when `RateLimiter.ClosedWindowsExactly` says.

## Model

| member | source | states |
|---|---|---|
| RunDatabase.AppendOutcome | libs/python/platform_store/src/universal_agent_platform_store/repositories/runs.py:121-178 | with unique rows an append is accepted again when the event is stored already, refused when its id or its place in the run is taken by another, and otherwise stored, a first run.started moving a queued run to running |
| RunDatabase.FinalizeOutcome | libs/python/platform_store/src/universal_agent_platform_store/repositories/runs.py:180-222 | a trace is stored exactly when none is, or that very one, and one of its events ends the run; a first one brings its status and output, and nothing else changes |
| RunDatabase.ListIsSuffix | libs/python/platform_store/src/universal_agent_platform_store/repositories/runs.py:226-242 | on a chained log the listing after a cursor is exactly the rest of the log, in order |
| RunDatabase.ListingSays | libs/python/platform_store/src/universal_agent_platform_store/repositories/runs.py:226-242 | whatever rows are stored, the listing is in order of sequence and holds exactly those beyond the cursor |
| RunDatabase.Persistence.Append | workers/runtime/src/universal_agent_studio_runtime/activities/events.py:63-76 | the worker's append is one transaction: it commits what AppendEvent says or leaves every row alone |
| RunDatabase.Persistence.EnqueueAll | libs/python/platform_store/src/universal_agent_platform_store/repositories/webhooks.py:140-229 | the loop over subscriptions adds one row for each live, matching one and skips a taken slot |
| RunDatabase.Persistence.Finalize | workers/runtime/src/universal_agent_studio_runtime/activities/events.py:88-105 | trace and outbox rows commit together or not at all |
| RunDatabase.Persistence.InvokeCalculatorOnce | workers/runtime/src/universal_agent_studio_runtime/activities/events.py:107-155 | the tool answer is computed once per run and the stored one is returned ever after |
| RunDatabase.Persistence.Rollback | workers/runtime/src/universal_agent_studio_runtime/activities/events.py:88-105 | a failed transaction leaves exactly the rows it found |
| RunEvents.DurationSays | libs/python/agent_kernel/src/universal_agent_kernel/execution/graph.py:30-31 | durations are the nearest millisecond, halves going to the even one, and never negative |
| RunEvents.EventIdInjective | libs/python/agent_kernel/src/universal_agent_kernel/execution/events.py:28-61 | event ids are injective in run, sequence, type and node, up to no node and a node without a name |
| RunEvents.ChainedTraceValid | libs/python/agent_kernel/src/universal_agent_kernel/contracts/validation.py:396-445 | over a chained log the validator accepts a trace exactly when its last event announces its status, or there is none |
| RunEvents.ValidationIsExact | libs/python/agent_kernel/src/universal_agent_kernel/contracts/validation.py:396-445 | over any events the validator reports exactly the six faults: sequence, identity, run, lifecycle, causation, policy, each by its own code |
| RunEvents.ChainedIdsDiffer | libs/python/platform_store/src/universal_agent_platform_store/repositories/runs.py:121-178 | no two events of a chained log share an id |
| RunAttempts.SteppingClock.Now | workers/runtime/src/universal_agent_studio_runtime/activities/execution.py:38-45 | each reading returns the current instant and moves it on by ten milliseconds |
| RunAttempts.EventRecorder.EmitEvent | libs/python/agent_kernel/src/universal_agent_kernel/execution/events.py:28-61 | one emit appends the stamped, redacted event caused by its predecessor, and records it only when the sink accepts it |
| RunAttempts.ExecuteRun | libs/python/agent_kernel/src/universal_agent_kernel/execution/graph.py:110-326 | a whole execution leaves the rows its transactions one by one lead to, and a returned trace is the stored one |
| RunAttempts.FinalizeTerminalRun | workers/runtime/src/universal_agent_studio_runtime/activities/execution.py:144-257 | a whole finalizer, with its fabricated start and ending, leaves the rows its transactions lead to, and a returned trace is the stored one |
| RunAttempts.PerformProgresses | libs/python/agent_kernel/src/universal_agent_kernel/execution/graph.py:110-326 | every attempt left alone ends: each transaction brings it nearer its last one |
| Kernel.FabricatedStartIsTheKernels | workers/runtime/src/universal_agent_studio_runtime/activities/execution.py:160-178 | the run.started a finalizer fabricates is the very first event of the kernel |
| Kernel.EmissionsExtend | libs/python/agent_kernel/src/universal_agent_kernel/execution/graph.py:206-290 | what is emitted before the tool answers is a beginning of what is emitted after |
| Kernel.RecordChained | libs/python/agent_kernel/src/universal_agent_kernel/execution/events.py:28-61 | the events of an execution are contiguous from 1 and each is caused by the one before |
| Kernel.CompletedTimeline | libs/python/agent_kernel/src/universal_agent_kernel/execution/graph.py:126-326 | a completed execution logs its eight events in order, at strictly later instants, the first at the start and the last nine clock steps later, with the model's arguments and the tool's answer as payloads |
| Kernel.CompletedTrace | libs/python/agent_kernel/src/universal_agent_kernel/execution/graph.py:126-326 | its trace lasts 90 ms and lists the four nodes one after the other, each with the instants, durations and results that the log tells of it |
| Kernel.FinalizeStartFailure | apps/control-api/src/universal_agent_studio_api/runs/service.py:340-411 | the API's writer commits start, failure, trace and outbox rows together or nothing |
| RunProtocol.LogIsChained | libs/python/platform_store/src/universal_agent_platform_store/repositories/runs.py:121-178 | in every interleaving of crashing, replaying and overlapping writers the log is contiguous from 1, has unique ids, starts with run.started caused by the request, and every later event is caused by its predecessor |
| RunProtocol.StoredTraceIsStable | libs/python/platform_store/src/universal_agent_platform_store/repositories/runs.py:180-224 | every stored trace passes the validator, its events are a prefix of the log then and ever after, and it is never replaced |
| RunProtocol.StatusFollowsTheTrace | libs/python/platform_store/src/universal_agent_platform_store/repositories/runs.py:162-224 | status only moves from queued over running to one terminal value, which is reached exactly when a trace is stored and equals its status |
| RunProtocol.DeliveriesTellTheTrace | libs/python/platform_store/src/universal_agent_platform_store/repositories/webhooks.py:107-229 | every delivery carries sequence, type, status, result and error code of the single stored trace, at most one per subscription, even when finalizers repeat or the log grows |
| RunProtocol.FinishingNotifies | workers/runtime/src/universal_agent_studio_runtime/activities/events.py:88-105 | whoever stores the trace, an attempt or the start-failure writer, leaves in the same transaction a delivery for every live subscription to its terminal event; earlier deliveries stay |
| RunProtocol.OnlyStoringChangesTheTrace | libs/python/platform_store/src/universal_agent_platform_store/repositories/runs.py:180-224 | no other move changes the stored trace |
| RunOutbox.DeliveriesWereAskedFor | libs/python/platform_store/src/universal_agent_platform_store/repositories/webhooks.py:191-229 | in every reachable state each delivery is of a type its subscription asked for |
| RunOutbox.FinishingServesExactly | libs/python/platform_store/src/universal_agent_platform_store/repositories/webhooks.py:140-229 | the step that stores the trace serves exactly the subscriptions that are open, asked for the event that ends the trace, and have no delivery yet |
| RunOutbox.OnlyStoringDelivers | workers/runtime/src/universal_agent_studio_runtime/activities/events.py:88-105 | no other step adds a delivery |
| RunSettlement.FinalizerSettles | workers/runtime/src/universal_agent_studio_runtime/activities/execution.py:144-257 | from every reachable state one undisturbed finalizer brings the run to a terminal status: that of the trace stored before, or its own with its own trace; the log gains exactly the start and ending it lacked |
| RunRecords.FinalizerWrites | workers/runtime/src/universal_agent_studio_runtime/activities/execution.py:144-257 | field by field, what one undisturbed finalizer leaves of any reachable state: a start where nothing was logged, an ending where the last event does not announce the status, with place, cause, instant and payload by status, and its trace where there was none |
| RunRecords.FailedStartWrites | apps/control-api/src/universal_agent_studio_api/runs/service.py:340-411 | field by field, the two events, the trace and the columns the start-failure writer leaves of a fresh run |
| RunRecords.ExecutionWrites | libs/python/agent_kernel/src/universal_agent_kernel/execution/graph.py:126-290 | how far an execution gets by what is runnable, answered, admitted and accepted, and the type, node, instant, payload, id and cause of every event it logs |
| RunRecords.ExecutionLeaves | libs/python/agent_kernel/src/universal_agent_kernel/execution/graph.py:110-326 | an execution of a fresh run leaves that log, the tool's answer, and for a completed one its trace and the run's status and output |
| RunSettlement.ReplaysStayOnTheWay | workers/runtime/src/universal_agent_studio_runtime/activities/execution.py:73-122 | any number of crashing replays of one start keep the log a beginning of the one execution's log |
| RunSettlement.ReplaysNeverConflict | workers/runtime/src/universal_agent_studio_runtime/activities/execution.py:73-122 | among replays every event and trace a live attempt offers is accepted |
| RunSettlement.RestartCompletes | workers/runtime/src/universal_agent_studio_runtime/activities/execution.py:73-122 | from every reachable state whose log is a beginning of the execution's, a fresh execution keeps what is logged, appends exactly what is missing and ends with the whole log, the tool answer and the trace |
| RunSettlement.BegunIsOnTheWay | workers/runtime/src/universal_agent_studio_runtime/activities/execution.py:160-178 | a finalizer that got no further than the start it fabricated leaves such a state too |
| RunSettlement.StoredAnswerIsComputed | workers/runtime/src/universal_agent_studio_runtime/activities/events.py:107-155 | over every run a stored tool answer is one that a call in it returned, and only a program that calls the tool has one |
| RunSettlement.RestartEqualsUninterrupted | workers/runtime/src/universal_agent_studio_runtime/activities/execution.py:38-45 | when every call of the tool that answers gives the same answer, it ends with the same log, tool answer, trace and status as an attempt that was never interrupted |
| RunSettlement.EndedLogsGrowExactly | workers/runtime/src/universal_agent_studio_runtime/activities/execution.py:180-210 | a log that ends in a terminal event changes exactly when a finalizer that has read all of it is of another type than its last event; then that finalizer's ending is added; no execution, replay, start-failure writer or other move adds anything |
| RunSettlement.TerminalEventsCounted | workers/runtime/src/universal_agent_studio_runtime/activities/execution.py:180-210 | over every run the log holds its first terminal event and one more for each such overruling, so at most one exactly while no finalizer overrules |
| RunSettlement.TerminalEventsMayRepeat | workers/runtime/src/universal_agent_studio_runtime/activities/execution.py:180-210 | it does happen, from every reachable state with a non-empty log and whoever is at work: a new finalizer of another type than the last event adds its ending, even after the run ended; the trace stays as it is |
| RunSettlement.FailedStartIsReached | apps/control-api/src/universal_agent_studio_api/runs/service.py:439-527 | the API's failure writer on a fresh run leaves a failed run with a valid two-event trace |
| Dispatcher.SelectionIsFirst | workers/runtime/src/universal_agent_studio_runtime/webhooks/dispatcher.py:110-141 | a poll takes due, unlocked rows by instant and id, none twice, and leaves one out only when as many earlier ones fill the limit |
| Dispatcher.RetryDelays | workers/runtime/src/universal_agent_studio_runtime/webhooks/dispatcher.py:327-349 | retries wait between 2 and 64 seconds, doubling up to the sixth attempt |
| Dispatcher.DeliveryStore.ClaimDueRows | workers/runtime/src/universal_agent_studio_runtime/webhooks/dispatcher.py:110-163 | the claim loop cancels rows of revoked subscriptions and leases the others under the next attempt number |
| Dispatcher.DeliveryStore.FinishAttempt | workers/runtime/src/universal_agent_studio_runtime/webhooks/dispatcher.py:165-194 | a report changes its row only while its attempt is the current claim |
| Dispatcher.Deliver | workers/runtime/src/universal_agent_studio_runtime/webhooks/dispatcher.py:254-349 | one send is reported with the verdict its answer calls for |
| Dispatcher.ReportRecords | workers/runtime/src/universal_agent_studio_runtime/webhooks/dispatcher.py:165-194 | a report about the current attempt delivers on success, sets a wait of 2 to 64 seconds from the claim when retryable with attempts left, fails otherwise, and records status and error of this send |
| Dispatcher.DispatchOnce | workers/runtime/src/universal_agent_studio_runtime/webhooks/dispatcher.py:244-252 | one poll claims, sends and reports every claimed row with the verdict its answer calls for |
| DeliveryOutcomes.PollClaims | workers/runtime/src/universal_agent_studio_runtime/webhooks/dispatcher.py:110-163 | a poll cancels the selected rows of revoked subscriptions, leases the other selected ones under their next number until the lease's end, hands those out in order, and leaves all others alone |
| DeliveryOutcomes.ReportsByStatus | workers/runtime/src/universal_agent_studio_runtime/webhooks/dispatcher.py:254-349 | by the numbers: 200 to 299 delivers; 408, 409, 425, 429, 500 to 599 and a failed transport wait 2 to 64 seconds while attempts are left; all else fails; each with its status and reason |
| DeliveryOutcomes.PollDispatches | workers/runtime/src/universal_agent_studio_runtime/webhooks/dispatcher.py:244-252 | one whole poll, with any answers: each selected row is cancelled or leased and reported by its answer, all others stay |
| Fencing.PollIsClaimDue | workers/runtime/src/universal_agent_studio_runtime/webhooks/dispatcher.py:110-163 | a poll of the transition system is the store's claim operation: same table, same claims in the same order |
| Fencing.AttemptsAreClaimedOnce | workers/runtime/src/universal_agent_studio_runtime/webhooks/dispatcher.py:132-163 | for any interleaving no attempt of a delivery is claimed twice; later claims carry higher numbers |
| Fencing.StaleReportsChangeNothing | workers/runtime/src/universal_agent_studio_runtime/webhooks/dispatcher.py:165-194 | a report takes effect exactly when its claim is the newest of a row that is still leased; then it ends that lease and changes that row only, otherwise nothing changes |
| Fencing.ClaimsFinishOnce | workers/runtime/src/universal_agent_studio_runtime/webhooks/dispatcher.py:165-194 | over a whole run at most one report of each claim takes effect |
| Fencing.FinalRowsStay | workers/runtime/src/universal_agent_studio_runtime/webhooks/dispatcher.py:165-194 | attempt counts never fall; delivered, failed and cancelled rows never change again |
| Fencing.RevokedGetNoClaims | workers/runtime/src/universal_agent_studio_runtime/webhooks/dispatcher.py:135-163 | once a subscription is revoked nothing is handed out for it any more, whatever was enqueued or leased before |
| Fencing.LeasesAreHonoured | workers/runtime/src/universal_agent_studio_runtime/webhooks/dispatcher.py:120-131 | a leased row is handed on only once the lease of its last claim has run out |
| Fencing.BudgetCountsReclaims | workers/runtime/src/universal_agent_studio_runtime/webhooks/dispatcher.py:327-349 | a pending row has attempts left, and attempts never exceed the budget plus the row's reclaims after expired leases |
| RetryBudget.BudgetIsPassedExactly | workers/runtime/src/universal_agent_studio_runtime/webhooks/dispatcher.py:110-163 | attempts pass the budget exactly when a row still leased for its last attempt is handed out again; no waiting row and no other move passes it |
| RetryBudget.ClaimPassesTheBudget | workers/runtime/src/universal_agent_studio_runtime/webhooks/dispatcher.py:132-163 | the same read off the row before a claim: its number is beyond the budget exactly when the row was leased and had used the budget up |
| RetryBudget.ReclaimsPassTheBudget | workers/runtime/src/universal_agent_studio_runtime/webhooks/dispatcher.py:120-131 | it does happen with every lease and budget: a row can reach any number of attempts when its dispatchers keep dying |
| RetryBudget.ClaimsAreAccounted | workers/runtime/src/universal_agent_studio_runtime/webhooks/dispatcher.py:132-194 | conservation over whole runs: a row's attempts are its effective reports, plus its reclaims after expired leases, plus the one claim still out |
| RetryBudget.ReportsDecide | workers/runtime/src/universal_agent_studio_runtime/webhooks/dispatcher.py:254-349 | over whole runs a delivery is delivered exactly when its last effective report is a success, failed exactly when that report is a refusal or used the budget up, and every report before asked for a retry with attempts left |
| RetryBudget.SettledWithinBudget | workers/runtime/src/universal_agent_studio_runtime/webhooks/dispatcher.py:254-349 | in every reachable state, a delivery none of whose leases ran out has at most max_attempts attempts, and is settled once that many were reported or the last numbered claim was |
| Publishing.PublishingStore.ImportVersion | libs/python/platform_store/src/universal_agent_platform_store/repositories/agents.py:45-109 | a known digest returns its version; otherwise a version with the next number is added |
| Publishing.PublishingStore.ActivateVersion | libs/python/platform_store/src/universal_agent_platform_store/repositories/agents.py:111-188 | legacy activation moves the pointer only to a stored version, before any publication, and against the expected pointer |
| Publishing.PublishingStore.CreateFromActive | libs/python/platform_store/src/universal_agent_platform_store/repositories/drafts.py:43-95 | a draft is created once, from the active version |
| Publishing.PublishingStore.Update | libs/python/platform_store/src/universal_agent_platform_store/repositories/drafts.py:103-135 | an update needs the current revision and raises it by one |
| Publishing.PublishingStore.PublishCurrentDraft | libs/python/platform_store/src/universal_agent_platform_store/repositories/publishing.py:165-268 | publishing checks revision, validity, public key and pointer in that order, then stores or reuses the version and moves pointer and ledger |
| Publishing.PublishingStore.RollBackTo | libs/python/platform_store/src/universal_agent_platform_store/repositories/publishing.py:270-319 | rolling back checks pointer and target, and records the move unless there is none |
| Refusals.ImportIsRefused | libs/python/platform_store/src/universal_agent_platform_store/repositories/agents.py:45-109 | an import is refused exactly when its digest is unknown and the spec names no schema version or the id is taken |
| Refusals.PublicationIsRefused | libs/python/platform_store/src/universal_agent_platform_store/repositories/publishing.py:165-218 | a publication is refused exactly for a missing draft, another revision, a failed check, a taken key, another active version, or a version that cannot be stored; with the first reason, changing nothing |
| Refusals.PublicationStores | libs/python/platform_store/src/universal_agent_platform_store/repositories/publishing.py:186-268 | an accepted one reuses the version with the draft's digest or adds one made of the draft, and logs an event unless that version was active already and a publication is on record |
| Refusals.ActivationIsRefused | libs/python/platform_store/src/universal_agent_platform_store/repositories/agents.py:111-188 | activation: which error, first failing check first |
| Refusals.RollbackIsRefused | libs/python/platform_store/src/universal_agent_platform_store/repositories/publishing.py:270-300 | rollback: which error, first failing check first |
| Refusals.UpdateIsRefused | libs/python/platform_store/src/universal_agent_platform_store/repositories/drafts.py:103-135 | an update fails without a draft or against another revision, and otherwise leaves the new contents under the next revision |
| Ledger.ReplayRebuildsPointer | libs/python/platform_store/src/universal_agent_platform_store/repositories/publishing.py:165-319 | in every reachable state replaying a non-empty ledger event by event rebuilds the active pointer |
| Ledger.LaterEventsLeadOn | libs/python/platform_store/src/universal_agent_platform_store/repositories/publishing.py:165-319 | from any moment with a non-empty ledger on, the new events lead from the old pointer to the new one |
| Ledger.VersionStoreIsSound | libs/python/platform_store/src/universal_agent_platform_store/repositories/publishing.py:186-218 | numbers are exactly 1..n, digests and ids pairwise distinct, every event records its version's digest, the active version is a stored one |
| Ledger.HistoryIsAppendOnly | libs/python/platform_store/src/universal_agent_platform_store/repositories/publishing.py:165-319 | stored versions and ledger events stay in place unchanged, and after a first event the pointer moves with the ledger only |
| Ledger.ImportDeduplicates | libs/python/platform_store/src/universal_agent_platform_store/repositories/agents.py:45-109 | an import hands back the one version with its digest, which is new and numbered next exactly when there was none |
| Ledger.DraftCopiesActive | libs/python/platform_store/src/universal_agent_platform_store/repositories/drafts.py:43-95 | a new draft is revision 1 of the active version's spec and digest; an existing one is returned unchanged |
| Ledger.RollbackUndoes | libs/python/platform_store/src/universal_agent_platform_store/repositories/publishing.py:270-319 | rolling back to what was active before a publication or rollback restores the pointer |
| Ledger.PublishedSpecIsTheDrafts | apps/control-api/src/universal_agent_studio_api/publishing/service.py:292-332 | with an injective digest a successful publication leaves the pointer on a version whose spec is the draft's |
| Ledger.RunDigests | apps/control-api/src/universal_agent_studio_api/agents/draft_service.py:276-300 | while the services store the digest of the spec they store, every version and draft carries the digest of its own spec |
| Ledger.EventsMoveThePointer | libs/python/platform_store/src/universal_agent_platform_store/repositories/publishing.py:219-319 | over every run each ledger event moves the pointer, except that the first publication may select what was active already; at most one event does |
| Ledger.SelectKeeps | libs/python/platform_store/src/universal_agent_platform_store/repositories/publishing.py:250-319 | moving pointer and ledger together keeps the chain; only a first publication may select what is active already |
| Sse.BlocksContinue | apps/studio-web/src/features/runs/useRunEvents.ts:116-128 | splitting at blank lines may be interrupted and resumed anywhere |
| Sse.ConnectRunEventStream | apps/studio-web/src/features/runs/useRunEvents.ts:94-138 | the studio's reader, fed any chunks, hands on what the whole text holds and throws where the whole text would make it throw |
| Sse.ConsumeEventStream | apps/published-web/src/lib/api.ts:90-134 | the public reader hands on the same, with the highest sequence number and whether the last event ends the run; skipping a blank rest loses nothing |
| Sse.ReadersThrow | apps/studio-web/src/features/runs/useRunEvents.ts:94-138 | a reader throws exactly when a block it reads does not parse |
| Sse.RestIsRead | apps/studio-web/src/features/runs/useRunEvents.ts:118-138 | the text after the last blank line is read when the stream ends and dropped when it breaks off |
| Sse.ReceivedIsWhole | apps/studio-web/src/features/runs/useRunEvents.ts:115-117 | chunks accumulate to the whole text normalised exactly when no boundary cuts a carriage return from its line feed; for the events that is sufficient |
| SseRoundTrip.RoundTrip | apps/studio-web/src/features/runs/useRunEvents.ts:82-138 | for all printed items and heartbeats and every chunking both readers hand on exactly the printed events, in order |
| SseRoundTrip.PrintedReadsBack | apps/control-api/src/universal_agent_studio_api/runs/sse.py:21-25 | each printed item is one block that parses to its data; heartbeats leave nothing; text that follows is read as by itself |
| SseRoundTrip.CutStreamIsPrefix | apps/studio-web/src/features/runs/useRunEvents.ts:108-138 | a stream broken off anywhere, with an error or an early clean end, yields a beginning of the events, never a wrong or partial one |
| SseRoundTrip.NoReturnsPrinted | apps/control-api/src/universal_agent_studio_api/runs/sse.py:21-25 | this server prints no carriage return, so its own streams never meet the failure below |
| SseRoundTrip.CutReturnsJoinEvents | apps/studio-web/src/features/runs/useRunEvents.ts:115-117 | the failure of per-chunk normalisation: for all data, a carriage return cut from its line feed at a blank line joins two events into one |
| SseRoundTrip.WholeReturnsAreTwoEvents | apps/studio-web/src/features/runs/useRunEvents.ts:115-117 | the same text cut cleanly is two events |
| EventStream.StreamRunEvents | apps/control-api/src/universal_agent_studio_api/runs/sse.py:28-61 | the server loop sends what its polls, cursor and clock readings make of it |
| EventStream.ServerSendsSlice | apps/control-api/src/universal_agent_studio_api/runs/sse.py:28-61 | over a growing log exactly the events after the client's cursor are sent, in order, without gaps, up to the first that ends the run or else all that the last answered poll saw; that is the last poll there is, the first that finds the run over, or the one before the client is found gone; heartbeats keep their distance |
| EventStream.StreamSendsSlice | apps/control-api/src/universal_agent_studio_api/runs/sse.py:38-61 | the same from any point of the stream on |
| Heartbeats.PollBeats | apps/control-api/src/universal_agent_studio_api/runs/sse.py:38-61 | a poll that goes on writes its events and then a heartbeat exactly when the clock shows that much silence since the last write |
| Heartbeats.PollStops | apps/control-api/src/universal_agent_studio_api/runs/sse.py:38-57 | a poll stops the stream exactly when the client is gone, an event that ends the run is listed, or the run is over, and then writes no heartbeat |
| Heartbeats.FirstIdlePollBeats | apps/control-api/src/universal_agent_studio_api/runs/sse.py:36-61 | the stream counts as silent from the start: a first idle poll is answered with a heartbeat |
| EventMerge.MergeRunEvents | apps/studio-web/src/features/runs/useRunEvents.ts:40-56 | the merge loop adds unknown ids only and sorts |
| EventMerge.MergeIsUnion | apps/studio-web/src/features/runs/useRunEvents.ts:40-56 | events of one log merge to the sorted, duplicate-free union |
| EventMerge.MergeDependsOnElements | apps/studio-web/src/features/runs/useRunEvents.ts:40-56 | the merge depends only on which events there are, not on batches, order or overlaps |
| EventMerge.MergeLaws | apps/studio-web/src/features/runs/useRunEvents.ts:40-56 | merging commutes, associates and is idempotent on events of one log |
| EventMerge.MergeExtendsPrefix | apps/studio-web/src/features/runs/useRunEvents.ts:40-56 | a prefix of a log and any overlapping or adjoining slice merge to the longer prefix |
| Resume.Consume | apps/studio-web/src/features/runs/useRunEvents.ts:140-220 | over any number of disconnects at any point the events shown are exactly the log up to the cursor and exactly what was there at first or delivered since, up to the first event that ends the run; the state is complete exactly when such an event is shown, and an error exactly at the ninth failure in a row |
| Resume.Reconnect | apps/studio-web/src/features/runs/useRunEvents.ts:159-207 | the reconnect loop: cursor and events advance together, pauses follow the failure counter and never exceed five seconds, an error needs more than eight failures |
| Resume.Absorb | apps/studio-web/src/features/runs/useRunEvents.ts:168-188 | one connection's events, overlapping or not, move the client on without gap or duplicate and stop at the first that ends the run |
| Resume.StepsOn | apps/studio-web/src/features/runs/useRunEvents.ts:177-184 | the next event of the log is new and moves events, cursor and seen ids one step on |
| Resume.HighestOfPrefix | apps/studio-web/src/features/runs/useRunEvents.ts:58-63 | the highest sequence number of a log is its length |
| Resume.BackoffSays | apps/studio-web/src/features/runs/useRunEvents.ts:201-206 | the pause doubles with every failure after the first, up to five seconds |
| Resume.AttemptsSay | apps/studio-web/src/features/runs/useRunEvents.ts:189-198 | the failure counter is the number of connections since the last that ended cleanly after it delivered something |
| StreamEndToEnd.SentArrives | apps/control-api/src/universal_agent_studio_api/runs/sse.py:21-61 | what the server sent arrives, through printing, chunking and parsing, as a piece of the log from the cursor, complete when nothing broke |
| StreamEndToEnd.StreamedServes | apps/studio-web/src/features/runs/useRunEvents.ts:94-207 | such connections are what Resume.Consume asks for, so the page shows exactly a beginning of the log |
| StreamEndToEnd.ConnectionIsStreamed | apps/control-api/src/universal_agent_studio_api/runs/sse.py:28-61 | polls that look at a run in any of its states, one after the other, make the server's loop send such a stretch of the run's log |
| StreamEndToEnd.RunIsServed | apps/studio-web/src/features/runs/useRunEvents.ts:94-207 | end to end: while executions, finalizers, crashes and the failure writer go on in any order, every connection to the run, cut and broken off anywhere, serves its chained log |
| Redaction.SeparatorsDoNotMatter | libs/python/agent_kernel/src/universal_agent_kernel/redaction/policy.py:13-15 | normalising a key keeps exactly its letters and digits in lower case; the camel-case step makes no difference |
| Redaction.FoldsTo | libs/python/agent_kernel/src/universal_agent_kernel/redaction/policy.py:13-15 | what each single character of a key normalizes to |
| Redaction.SecretKeysAre | libs/python/agent_kernel/src/universal_agent_kernel/contracts/validation.py:13-29 | the fifteen secret keys |
| Redaction.FindingIsExact | libs/python/agent_kernel/src/universal_agent_kernel/contracts/validation.py:161-175 | a document is rejected exactly when a secret-shaped key is present somewhere in it |
| Redaction.RedactKeepsTheRest | libs/python/agent_kernel/src/universal_agent_kernel/redaction/policy.py:18-33 | away from secret keys redaction leaves every value readable as before |
| Redaction.RedactMasks | libs/python/agent_kernel/src/universal_agent_kernel/redaction/policy.py:18-33 | under the first secret key of a path there is the mask and nothing below it |
| Redaction.RedactIdentity | libs/python/agent_kernel/src/universal_agent_kernel/redaction/policy.py:18-33 | redaction leaves a document unchanged exactly when every secret key already holds the mask |
| Redaction.RedactIdempotent | libs/python/agent_kernel/src/universal_agent_kernel/redaction/policy.py:18-33 | redacting twice is redacting once |
| Redaction.CleanIsUnchanged | libs/python/agent_kernel/src/universal_agent_kernel/redaction/policy.py:18-33 | documents without forbidden keys are not changed by redaction |
| Diff.ComputeDiff | apps/control-api/src/universal_agent_studio_api/agents/draft_service.py:442-486 | the loop over sorted keys builds the operations of the structural diff |
| Diff.DiffRebuilds | apps/control-api/src/universal_agent_studio_api/agents/draft_service.py:442-486 | for any two documents applying the operations rebuilds the new one, up to redaction of what was written |
| Diff.DiffIsAPatch | apps/control-api/src/universal_agent_studio_api/agents/draft_service.py:442-486 | without forbidden keys the diff is a patch (sections 4.1 to 4.3 of RFC 6902) from the old document to the new |
| Diff.DiffEmptyIffEqual | apps/control-api/src/universal_agent_studio_api/agents/draft_service.py:442-486 | the diff is empty exactly when the documents are equal |
| Diff.OperationsAreIndependent | apps/control-api/src/universal_agent_studio_api/agents/draft_service.py:442-486 | operations come in key order and no operation's path leads to or through another's |
| Diff.OperationsReport | apps/control-api/src/universal_agent_studio_api/agents/draft_service.py:442-486 | each operation names a place where the documents differ and reports its old and new value, redacted |
| Pointers.PartRoundTrip | apps/control-api/src/universal_agent_studio_api/agents/draft_service.py:438-439 | every key survives escaping and unescaping, including '~' and '/' |
| Pointers.PointerRoundTrip | apps/studio-web/src/features/drafts/editor-state.ts:145-149 | decoding an encoded path gives the path, for all lists of keys (sections 3 and 4 of RFC 6901) |
| Pointers.PrintersAgree | libs/python/agent_kernel/src/universal_agent_kernel/contracts/validation.py:84-91 | the validator's pointer printer and the diff's print the same text |
| Pointers.PointersDiffer | apps/control-api/src/universal_agent_studio_api/agents/draft_service.py:438-439 | different paths print different pointers |
| Pointers.ReplaceExisting | apps/studio-web/src/features/drafts/editor-state.ts:134-172 | after replacing at an existing path the path reads the new value and every diverging path reads as before |
| Pointers.ReplaceAdds | apps/studio-web/src/features/drafts/editor-state.ts:134-172 | a new member of an existing object is there afterwards, and every diverging path reads as before |
| Pointers.AssignSays | apps/studio-web/src/features/drafts/editor-state.ts:164-170 | the last part sets a member, or an element, growing the array by holes when it is too short |
| Pointers.ReplaceAtPointerLaws | apps/studio-web/src/features/drafts/editor-state.ts:134-172 | the same for pointer texts |
| Pointers.ReplaceTwice | apps/studio-web/src/features/drafts/editor-state.ts:134-172 | a second replacement at the same place wins |
| Pointers.ReplaceBySame | apps/studio-web/src/features/drafts/editor-state.ts:134-172 | writing back what is there changes nothing |
| Pointers.ReplaceRefused | apps/studio-web/src/features/drafts/editor-state.ts:150-171 | replacing fails exactly when the parts before the last do not lead to a container |
| DraftEditor.ReduceKeepsClean | apps/studio-web/src/features/drafts/editor-state.ts:30-132 | after any action a clean editor shows its server draft; only edits and save answers touch documents |
| DraftEditor.SemanticEditIsLocal | apps/studio-web/src/features/drafts/editor-state.ts:35-49 | an edit changes its place and nothing that diverges from it |
| DraftEditor.MovedOnly | apps/studio-web/src/features/drafts/editor-state.ts:50-65 | moving a node changes that node's entry and no other |
| DraftEditor.MoveNodeIsLocal | apps/studio-web/src/features/drafts/editor-state.ts:50-65 | moving a node changes its entries' position members in the layout and nothing else, and fails exactly without a list of nodes |
| DraftEditor.SetViewportIsLocal | apps/studio-web/src/features/drafts/editor-state.ts:66-74 | setting the viewport changes that member of the layout only |
| DraftEditor.RunEventsFollowLog | apps/studio-web/src/features/drafts/editor-state.ts:115-128 | re-delivered and next events keep the list a beginning of the run's log |
| DraftEditor.OrdinarySaveKeepsContent | apps/studio-web/src/features/drafts/editor-state.ts:74-99 | an ordinary save's answer leaves both documents with the content they have, dirty exactly when they are no longer the submitted objects |
| DraftSessions.UpdatesAreSequential | libs/python/platform_store/src/universal_agent_platform_store/repositories/drafts.py:103-135 | with any number of editors and saves under way every accepted update was made against the draft right before it, and revisions count the updates |
| DraftSessions.CleanEditorsShowServer | apps/studio-web/src/features/drafts/editor-state.ts:30-132 | over any actions a clean editor equals its server draft, which was the server's at some moment |
| DraftSessions.OrdinarySavesDiscardNothing | apps/studio-web/src/features/drafts/DraftWorkspace.tsx:177-221 | whenever an ordinary save is answered nothing edited after its submission is lost, and the editor stays dirty |
| DraftSessions.SaveRoundTrip | apps/studio-web/src/features/drafts/DraftWorkspace.tsx:177-221 | a save that nothing comes between goes through exactly when the page knew the current revision, and page and server then agree; otherwise the server keeps its draft and the page its edits, with the conflict shown |
| RateLimiter.Limiter.RateLimited | apps/control-api/src/universal_agent_studio_api/main.py:117-131 | the loop drops old entries of the key's queue and refuses or appends; other keys are untouched |
| RateLimiter.QueueIsRecentAccepted | apps/control-api/src/universal_agent_studio_api/main.py:120-131 | for non-decreasing times a key's queue is sorted and holds exactly the accepted times of the last window |
| RateLimiter.RefusedExactlyWhenFull | apps/control-api/src/universal_agent_studio_api/main.py:125-131 | a request is refused exactly when the limit is already in the window, which never holds more |
| RateLimiter.AcceptedAreSpread | apps/control-api/src/universal_agent_studio_api/main.py:120-131 | an accepted request and the limit-th accepted one before it are at least a window apart |
| RateLimiter.NoWindowOverflows | apps/control-api/src/universal_agent_studio_api/main.py:120-131 | no half-open window of that length, open at either end, ever holds more than the limit |
| RateLimiter.ClosedWindowsExactly | apps/control-api/src/universal_agent_studio_api/main.py:120-131 | an accepted request overfills the window closed at both ends that ends with it exactly when the limit-th last request accepted before it is a whole window old to the instant |
| RateLimiter.ClosedWindowsAreBounded | apps/control-api/src/universal_agent_studio_api/main.py:120-131 | a closed window never holds more than twice the limit |
| RateLimiter.ClosedWindowMayHoldTwice | apps/control-api/src/universal_agent_studio_api/main.py:123-125 | for every limit and window a closed window can hold twice the limit: entries leave the queue exactly at the window's end |
| RateLimiter.KeysAreIndependent | apps/control-api/src/universal_agent_studio_api/main.py:117-131 | each key's queue is what its own requests make of it |
| GraphWalk.ValidateAgentGraphIssues | libs/python/agent_kernel/src/universal_agent_kernel/contracts/validation.py:195-324 | the validator's loops append the issues of graph, nodes and edges in order |
| GraphWalk.NoIssuesIffWellFormed | libs/python/agent_kernel/src/universal_agent_kernel/contracts/validation.py:195-324 | the validator is silent exactly on graphs with unique ids, resolved references and edges that join existing ports |
| GraphWalk.IssuesAreExact | libs/python/agent_kernel/src/universal_agent_kernel/contracts/validation.py:195-324 | the validator reports exactly the faults of the graph, each with its code, place and node |
| GraphWalk.ExecutionPath | libs/python/agent_kernel/src/universal_agent_kernel/execution/graph.py:49-84 | the walk with its adjacency dictionary and visited set ends, with the path or the error the graph determines |
| GraphPaths.ValidGraphsNeverMissALookup | libs/python/agent_kernel/src/universal_agent_kernel/execution/graph.py:49-84 | on a graph without issues no lookup fails |
| GraphWalk.UnknownSourceFails | libs/python/agent_kernel/src/universal_agent_kernel/execution/graph.py:49-60 | an edge from an unknown node makes the lookup fail on any graph |
| GraphPaths.PathExactlyForChains | libs/python/agent_kernel/src/universal_agent_kernel/execution/graph.py:49-84 | on a graph without issues the walk succeeds exactly when there are four nodes whose only edges are input to model, model to tool, tool to output, each once, and returns them |

## Left out

- SQL, HTTP, Temporal and browser mechanics: a committed transaction is one atomic step, unique constraints are its guards, locks are that atomicity; ids and digests are injective functions.
- The workflow's schedule (which activity is started when): the run protocol allows every order of executions, finalizers and the start-failure writer, so its safety results hold for any schedule.
- One run, one agent and one draft at a time: rows of other runs and agents do not appear, and public-key uniqueness across projects is an answer the publish step is given.
- A run's completed_at column and the constant fields of a webhook payload.
- The choice of model and calculator: what they answer is a parameter, the same for every replay of a run; model gateways and calculator arithmetic are not part of this model.
- WebhookRepository.claim_due and finish_attempt, which the worker does not use.
- HMAC signing, URL allow-lists, API keys, CSRF and sessions; whether a delivery's origin is allowed is a parameter.
- JSON Schema evaluation and ill-typed documents: graphs are those of schema-valid specs; JSON values have structural equality, so Python's True == 1 is outside.
- `_validate_candidate`'s layout check and the sort order of validation issues: one-branch claims.
- A version's schema_version column: only its presence in the spec is checked, as the import does.
- UTF-8 decoding: readers get decoded text; canonical JSON is a printing function that a parsing function inverts and whose proper beginnings do not parse.
- The public stream's sanitized output and the public client's fabricated last event.
- Which order localeCompare gives ids: the merge is proved for every total order on them.
- Clocks that go backwards in the rate limiter: its results are for non-decreasing times, as a monotonic clock gives.
- ReplaceAtPointer: modelled on values, so the in-place writes to the clone are not seen; holes of an array written past its end are null; inherited members of Object.prototype are not found.
- ReplaceExisting: the array position a part names is what a given reading of Number() says.
- Resume.Consume: assumes every connection delivers a piece of one log, which StreamEndToEnd.RunIsServed proves of the server's stream over any run; pieces of different runs are not modelled.
- DraftSessions.OrdinarySavesDiscardNothing: objects handed to a whole-document replacement are new ones, and the server's answer echoes the submitted documents.
- Redaction.FindingIsExact: keys are strings of Unicode code points; of the non-ASCII letters only those whose lower case is ASCII matter, and they are modelled.
