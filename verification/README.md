# rs-task, modelled and verified in Dafny

rs-task is a task execution service: callers submit typed tasks to a store, a
scheduler starts them within resource limits, handlers run them, and cancellation,
retry, crash recovery, durable notifications and shutdown all meet on the same
records. This project models those parts and proves what they promise together.

`dafny verify dfyconfig.toml` checks everything.

## How the model is laid out

| file | what it models |
|---|---|
| TaskStates, TaskRecords | states, the stored record, and what one successful store call makes of it |
| RetryPolicy | the retry delay loop and its closed form |
| Lifecycle | every actor on the records (submit, start, finish, cancel, hook, resume, recovery, prune, restart) as one state machine |
| Keysets | ordering and keyset paging over a store that changes between pages |
| Retention | what a bounded prune promises, for either store |
| MemoryAccounting, MemoryStore | the volatile store as a class with its indexes, counters, eviction loops and bounded heap |
| Recovery, SqliteRecovery | the startup loop that rewrites rows out of its own filter while paging, over either store |
| PaddedDecimal, DurableDb, SqliteStore | the durable store: rows with columns beside the lifecycle document, and the plain database they stand for |
| QuerySql, SqliteListing | the generated listing statements, a reader for them, and the pages they produce |
| Outbox | lifecycle commits, outbox rows, the ordered publisher, quarantine, prune, restarts |
| CancelSignal, ExternalCancel | the cooperative flag and the external hook of one attempt |
| Engine | the resource ledger and the local engine as classes |
| Scheduler | the ready-queue scan with its fairness anchor |
| Shutdown, Ownership | admission, the in-flight counter, shutdown stages, owner epochs and release guards |

Protocols are state machines: `Step` is one atomic step, `Exec` runs any sequence of
events, and an event whose guard does not hold changes nothing, so a theorem about
`Exec` is about every interleaving. Store calls are atomic. What the scheduler and the
listings observe from outside (clock, bus answers, store answers and errors, resource
outcomes) is a parameter. Objects the source updates in place are classes whose methods are proved
against functions of the old state.

## Where the code does not do what one would expect

- The cooperative signal is lost if the caller that persisted the request abandons its
  call after the commit and the runner's second read came before it. A later cancel call
  sees the request and returns success without signalling. `CancelSignals.SignalledIff`
  gives the exact condition.
- A hook can run again after a successful one: a store error while the success is being
  reconciled removes the map entry, and a call admitted earlier then starts another
  flight. `ExternalCancels.SuccessIsFinalIff` shows that this is the only way.
- The map entry of a finished attempt can stay for ever: a flight that is about to store
  its success does so after the finishing handler removed the entry.
  `ExternalCancels.SuccessEntryLeaks` is such a run, `ExternalCancels.LeaksIff` the exact
  condition.
- A scan can forget its anchor although the anchor stayed ready: the check between
  records sees the in-flight limit, a handler ends, and the check after the page passes.
  `Schedulers.CutScanForgetsReady` is such a scan, and `Schedulers.ForgetsLeftIff` shows
  that without such a cut it cannot happen.
- A request for zero units of an unconfigured custom resource is rejected for good
  although an idle engine could hold it. `Ledgers.FittingButUnknown` gives such a request
  for every unconfigured name, `Ledgers.RejectionIsRightIff` the exact condition, and
  `Engines.LocalEngine.TryPrepare` states every verdict.
- A service start given up while the durable store acquires ownership leaves an owner
  that no guard will release (`Ownership.AbandonedLeavesOwner`), and the store stays taken
  until the process dies (`Ownership.LostUntilDeath`). The other two ways are a refused
  cleanup job and a failed cleanup release; `Ownership.AttendedIff` and
  `Ownership.LosesIff` show that there are no more.
- The volatile store writes part of a record before it fails on a version or attempt
  overflow; `MemoryStores.MemoryStore.StartEncoded` and `TransitionEncoded` state what is
  left behind. The volatile store accepts a first progress version of 0, the durable one
  does not; both `UpdateProgress` contracts say so.

## Model

| member | source | states |
|---|---|---|
| TaskStates.TerminalIsStuck | src/model/task_state.rs:86-120 | the terminal states are exactly those from which no transition is allowed |
| TaskStates.EnteredFrom | src/model/task_state.rs:104-120 | which states each state is entered from; work ends other than by cancellation only out of running |
| TaskStates.KindTextInjective | src/model/task_state_kind.rs:51-61 | a state kind and its column text determine each other |
| TaskRecords.StartIsNextRevision | src/store/memory_task_store.rs:369-395 | a successful start is one revision: version and attempt rise by one, from queued to running |
| TaskRecords.TransitionIsNextRevision | src/store/memory_task_store.rs:412-470 | a successful transition is one revision; a terminal record keeps its state, output and attempt |
| TaskRecords.TerminalAnnotation | src/store/memory_task_store.rs:412-470 | a terminal record accepts exactly a late hook error on a request, and keeps all but the error and the finish time |
| RetryPolicies.DelayForAttempt | src/service/retry_policy.rs:73-81 | the doubling loop with saturation and early exit computes the specified delay |
| RetryPolicies.DelayClosedForm | src/service/retry_policy.rs:73-81 | the delay of attempt k is min(max, initial * 2^(k-1)) |
| RetryPolicies.DelayMonotone | src/service/retry_policy.rs:73-81 | later attempts never wait less, and every delay lies between initial and max |
| RetryPolicies.RetryDeadlineMeaning | src/service/typed_task_execution_service/internal/service_runner.rs:1075-1079 | a requeue is never due in the past and is due the delay in whole milliseconds later, unless that leaves the timestamp range |
| Lifecycle.InvHolds | src/service/typed_task_execution_service/internal/service_runner.rs:365-420 | the protocol invariant holds after every sequence of events |
| Lifecycle.StepShape | src/store/memory_task_store.rs:369-472 | one event changes a record by nothing, a progress snapshot, or exactly one revision |
| Lifecycle.HistoryShape | src/model/task_state.rs:104-120 | in every run versions and attempts never fall, and terminal states and outputs never change |
| Lifecycle.AttemptBound | src/service/typed_task_execution_service/internal/service_runner.rs:1075-1095 | attempts are 1, 2, ... without gaps and at most max_attempts plus the number of restarts |
| Lifecycle.OneHandlerPerTask | src/service/typed_task_execution_service/internal/service_runner.rs:754-789 | a task never has two live handlers, and a live handler's attempt is the one recorded as running |
| Lifecycle.CancelEffect | src/service/typed_task_execution_service.rs:629-644 | a committed cancel or hook write leaves the task running at its attempt with the request set and exactly the hook's error |
| Lifecycle.OperatorEffect | src/service/typed_task_execution_service.rs:589-609 | a cancel before the start ends the task, a resume queues it at once, a block keeps its reason; none counts an attempt |
| Lifecycle.StartEffect | src/store/memory_task_store.rs:369-395 | a committed start runs the next attempt of a task that is due, from a clean slate, at the scheduler's time, and its handler is live |
| Lifecycle.FinishEffect | src/service/typed_task_execution_service/internal/service_runner.rs:1075-1095 | a committed finish requeues exactly a retryable failure within the attempt limit that nobody asked to cancel, with its deadline; otherwise outcome, output and finish time are the handler's; the request stays |
| Lifecycle.ReportEffect | src/store/memory_task_store.rs:488-508 | a report is stored as reported exactly from the running attempt with a larger version, and changes nothing else |
| Lifecycle.AcceptEffect | src/store/memory_task_store.rs:272-308 | a new task is queued, unstarted and without request, error, output or deadline |
| Lifecycle.RecordsStayTidy | src/store/memory_task_store.rs:412-470 | in every run a record has a finish time exactly while it is terminal, and its diagnostics and output stay within their limits |
| Lifecycle.NeverStarted | src/service/typed_task_execution_service/internal/service_runner.rs:754-789 | in every run a task without a logged start has not succeeded, failed or panicked and has no output |
| Lifecycle.RunningIsOwn | src/service/typed_task_execution_service/internal/service_runner.rs:365-420 | while the service serves, every running attempt was started since the last restart: recovery leaves none behind |
| Lifecycle.CancelCanBePersisted | src/service/typed_task_execution_service.rs:629-644 | a serving service can persist a request on every running task that has none, unless the version is exhausted |
| Lifecycle.ActorsRespond | src/service/typed_task_execution_service/internal/service_runner.rs:709-789 | a due queued task can be started, a waiting one ended or resumed, and a live handler can finish: none of these is blocked by the protocol |
| Lifecycle.RequeueUsesBackoff | src/service/typed_task_execution_service/internal/service_runner.rs:1075-1095 | a finish requeues exactly if it may retry, with the deadline of the attempt that failed |
| Lifecycle.CancellationIsFinal | src/service/typed_task_execution_service.rs:586-644 | once a request is persisted on a running task no attempt of it ever starts again, in every interleaving and across restarts |
| Lifecycle.CancelledNeverRestarts | src/service/typed_task_execution_service.rs:586-644 | from the commit of a cancel call or a hook flight on, no attempt of the task ever starts again |
| Lifecycle.OutcomeIsFinal | src/service/typed_task_execution_service/internal/service_runner.rs:1075-1107 | the outcome and output that a finish commits are those of the task in every continuation |
| Keysets.PagingUnderChange | src/store/memory_task_store.rs:523-573 | following cursors over a changing store returns strictly increasing keys, and every continuously matching key exactly once |
| Keysets.FrozenPaging | src/store/memory_task_store.rs:523-573 | on an unchanged store the pages concatenate to the full sorted listing |
| Keysets.PageSplits | src/store/memory_task_store.rs:556-571 | a page precedes everything it leaves, its cursor excludes exactly what it returned, and a page with a continuation is full |
| MemoryAccounting.AccountsRemove | src/store/memory_task_store/internal/memory_state.rs:66-78 | removing a record keeps bytes, unfinished count, queue and index exactly those of the records; nothing underflows |
| MemoryAccounting.AccountsInsert | src/store/memory_task_store.rs:296-308 | inserting a record does |
| MemoryAccounting.AccountsRewrite | src/store/memory_task_store.rs:419-470 | rewriting a lifecycle does; a task that ends joins the eviction queue once |
| MemoryAccounting.EvictionKeepsLive | src/store/memory_task_store.rs:248-271 | evicting terminal records leaves unfinished records and their bytes alone |
| MemoryAccounting.BytesRemoveAll | src/store/memory_task_store.rs:248-254 | removing distinct records removes exactly their bytes |
| MemoryAccounting.BytesInsert | src/store/memory_task_store.rs:296-308 | inserting a record adds exactly the length of its payload |
| MemoryAccounting.BytesCountPayloads | src/store/memory_task_store.rs:248-254 | the byte total is the sum of the payload lengths over any enumeration of the records |
| MemoryAccounting.LiveBytesCountPayloads | src/store/memory_task_store.rs:248-254 | the live bytes are that sum over the unfinished records |
| Retention.TakingPrunesOldest | src/store/memory_task_store.rs:661-694 | taking the first expired keys in order removes only expired tasks, each older than every expired one that stays, and leaves one only if the limit is used up |
| MemoryStores.MemoryStore.constructor | src/store/memory_task_store.rs:128-147 | an empty store is accounted and within its limits |
| MemoryStores.MemoryStore.RemoveEncodedTask | src/store/memory_task_store/internal/memory_state.rs:66-78 | removes one record and everything derived from it, keeping the order of the eviction queue |
| MemoryStores.MemoryStore.EvictOldestTerminal | src/store/memory_task_store/internal/memory_state.rs:42-47 | removes exactly the head of the eviction queue, if any, and no live bytes |
| MemoryStores.MemoryStore.ReclaimableBytes | src/store/memory_task_store.rs:248-254 | the bytes of the queue are all bytes that are not live |
| MemoryStores.MemoryStore.MakeRoom | src/store/memory_task_store.rs:264-271 | evicts the shortest sufficient prefix; the capacity error inside the loop is unreachable |
| MemoryStores.MemoryStore.ScreenRequest | src/store/memory_task_store.rs:221-263 | the checks before any change decide the outcome from the records alone |
| MemoryStores.CapacityRefusedIff | src/store/memory_task_store.rs:226-263 | a well-formed new task is refused exactly if as many tasks as allowed are unfinished, or else if its payload does not fit beside theirs; no other request is refused for these reasons |
| MemoryStores.MemoryStore.PayloadsFit | src/store/memory_task_store.rs:226-271 | in every valid state the payloads of any distinct retained tasks together stay within the byte limit |
| MemoryStores.MemoryStore.AcceptEncoded | src/store/memory_task_store.rs:215-310 | the verdict is a function of the records; a failed or replayed accept changes nothing; a new one evicts only the shortest sufficient oldest prefix |
| MemoryStores.MemoryStore.StartEncoded | src/store/memory_task_store.rs:369-400 | same effect as the record function; errors change nothing except the half-written attempt overflow |
| MemoryStores.MemoryStore.TrimHistory | src/store/memory_task_store.rs:462-469 | evicts exactly the oldest surplus over the history capacity |
| MemoryAccounting.HalfWriteAccounts | src/store/memory_task_store.rs:438-450 | a rewrite that touches neither queue nor count keeps the books exactly if it does not end the task |
| MemoryStores.MemoryStore.TransitionEncoded | src/store/memory_task_store.rs:412-472 | same effect as the record function, then the queue and history limit; every error; and after a version overflow exactly which half is written and when the store stays consistent |
| MemoryStores.MemoryStore.UpdateProgress | src/store/memory_task_store.rs:488-508 | succeeds exactly for the running attempt with a larger version, changing only the snapshot |
| MemoryStores.MemoryStore.PruneTerminalBefore | src/store/memory_task_store.rs:661-694 | removes the oldest expired terminal tasks, as many as the bound allows, and nothing else; the eviction queue keeps its order |
| MemoryStores.HeapPushSmallest | src/store/memory_task_store.rs:545-553 | one step of the bounded heap keeps the smallest keys seen |
| MemoryStores.MemoryStore.CollectSmallest | src/store/memory_task_store.rs:531-553 | one pass in any order leaves the smallest matching keys in the heap |
| MemoryStores.SmallestGivePage | src/store/memory_task_store.rs:554-571 | the page cut from the heap is the page of all matching keys |
| MemoryStores.MemoryStore.ListEncoded | src/store/memory_task_store.rs:523-573 | returns exactly the page of the sorted matching tasks, with a cursor exactly if more remain |
| MemoryStores.MemoryStore.CollectReady | src/store/memory_task_store.rs:600-614 | one pass in any order finds exactly the due queued tasks after the cursor |
| MemoryStores.MemoryStore.ListReadyQueued | src/store/memory_task_store.rs:590-622 | collecting, sorting, truncating and taking the last key as cursor gives exactly the page of the due queued tasks |
| Recovery.RecoveryMeaning | src/service/typed_task_execution_service/internal/service_runner.rs:384-411 | recovered records: nothing runs, running tasks without a request are queued, those with one are blocked and keep it, all others are unchanged |
| Recovery.RemainingStable | src/service/typed_task_execution_service/internal/service_runner.rs:365-420 | rewriting rows out of the filter does not disturb what the cursor still has to visit |
| Recovery.RecoverUnfinished | src/service/typed_task_execution_service/internal/service_runner.rs:365-420 | over the volatile store the paging loop terminates with exactly the recovered records |
| SqliteRecoveries.RecoverUnfinished | src/service/typed_task_execution_service/internal/service_runner.rs:365-420 | over the durable store it does too, announcing each recovered task in an enabled outbox and leaving archive and checkpoints alone; it succeeds exactly if every running task can be written, and otherwise leaves a valid store with some tasks recovered and the others untouched |
| PaddedDecimals.PaddedOrder | src/model/typed/task_id.rs:72-74 | keys have 20 digits, decode to their id, and order as text exactly as ids order as numbers |
| DurableDbs.CreationTime | src/store/sqlite_task_store/internal/typed_store.rs:713-732 | a row is never created before an existing one, even if the clock went back |
| DurableDbs.CommitKeepsOutbox | src/store/sqlite_task_store/internal/typed_store.rs:707-734 | a commit keeps one row per version, each of a retained task and no newer than it |
| DurableDbs.RowOrderIsColumnOrder | src/store/sqlite_task_store.rs:207-207 | rows are read in the order of creation time, text of the task id and version |
| DurableDbs.PruneMeaning | src/store/sqlite_task_store/internal/prune.rs:39-76 | a prune removes the oldest expired tasks that owe no notification, as many as the bound allows, and leaves version and state of each as its checkpoint |
| SqliteStores.TerminalKindText | src/store/sqlite_task_store.rs:859-861 | the kinds listed in the prune query are exactly the terminal ones |
| SqliteStores.SelectedArePrunable | src/store/sqlite_task_store.rs:857-872 | the prune query over columns selects exactly the prunable tasks |
| SqliteStores.NoticeTakenIff | src/store/sqlite_task_store/internal/typed_store.rs:707-734 | the outbox lets a commit through exactly if it is off, or the snapshot is within 128 KiB and the clock fits its column |
| SqliteStores.SqliteStore.AcceptEncoded | src/store/sqlite_task_store/internal/typed_store.rs:216-313 | replay, conflict, duplicate, range and snapshot-size failures and creation as functions of the plain records; row and notification commit together |
| SqliteStores.SqliteStore.HolderIsUnique | src/store/sqlite_task_store/internal/typed_store.rs:225-255 | one row at most holds an idempotency key, and it decides a replay |
| SqliteStores.SqliteStore.StartEncoded | src/store/sqlite_task_store/internal/typed_store.rs:375-448 | columns stay in agreement and the effect is that of the record function, exactly when the values fit the columns and an enabled outbox takes the notification |
| SqliteStores.SqliteStore.TransitionEncoded | src/store/sqlite_task_store/internal/typed_store.rs:466-561 | likewise for transitions |
| SqliteStores.SqliteStore.UpdateProgress | src/store/sqlite_task_store/internal/typed_store.rs:579-646 | likewise for progress, from version 1 on, without a commit |
| SqliteStores.SqliteStore.PruneTerminalBefore | src/store/sqlite_task_store.rs:833-878 | prunes the oldest expired tasks up to the bound, never one that owes a notification, and leaves the version and state of each |
| SqliteStores.SqliteStore.PruneRows | src/store/sqlite_task_store/internal/prune.rs:39-76 | each pruned row leaves its checkpoint |
| SqliteStores.SqliteStore.GetStateCheckpoint | src/store/sqlite_task_store.rs:549-594 | answers the retained record, else the checkpoint |
| SqliteStores.SqliteStore.MarkEventPublished | src/store/sqlite_task_store.rs:250-263 | deletes exactly the named row |
| SqliteStores.SqliteStore.QuarantineHead | src/store/sqlite_task_store.rs:285-363 | archives the head exactly if it is the expected row and not archived yet, else changes nothing |
| QuerySql.ParseSelect | src/store/sqlite_task_store/internal/query_sql.rs:43-93 | reading a written statement gives back its conditions and limit |
| QuerySql.CursorHolds | src/store/sqlite_task_store/internal/query_sql.rs:56-65 | the row-value comparison over text ids is the numeric cursor |
| QuerySql.StatesHold | src/store/sqlite_task_store/internal/query_sql.rs:74-89 | the bound state list matches exactly the listed states |
| QuerySql.Distinct | src/store/sqlite_task_store/internal/query_sql.rs:74-79 | keeps each listed state exactly once |
| QuerySql.Statement.WriteKinds | src/store/sqlite_task_store/internal/query_sql.rs:80-89 | writes the placeholders of a state list in step with its bound values |
| QuerySql.Statement.Finish | src/store/sqlite_task_store/internal/query_sql.rs:90-92 | the finished text parses and asks for exactly the wanted tasks, up to the bound limit |
| QuerySql.BuildHistoryQuery | src/store/sqlite_task_store/internal/query_sql.rs:43-93 | for every query the built statement selects exactly what the in-memory filter selects; rejects exactly out-of-range limits and cursors |
| QuerySql.BuildReadyQuery | src/store/sqlite_task_store/internal/typed_store.rs:113-143 | likewise for the ready queue |
| SqliteListings.AnswerIsPage | src/store/sqlite_task_store/internal/typed_store.rs:72-95 | the first rows in text order, cut to a page, are the page of the plain records |
| SqliteListings.ListEncoded | src/store/sqlite_task_store/internal/typed_store.rs:72-95 | same page as the volatile store over the same records |
| SqliteListings.ListReadyQueued | src/store/sqlite_task_store/internal/typed_store.rs:113-156 | same ready page as the volatile store |
| Outbox.InvHolds | src/service/task_event_publisher/internal/publisher_state.rs:89-162 | the invariant of database, worker and log holds after every sequence of actions |
| Outbox.OutboxConservation | src/service/task_event_publisher/internal/publisher_state.rs:219-308 | a recorded notification is pending, archived or deleted, and only one of these; deleted only if the bus accepted it |
| Outbox.PublicationOrder | src/service/task_event_publisher/internal/publisher_state.rs:113-143 | per task versions are handed over in nondecreasing order; nothing is handed over before it was recorded or after it was archived |
| Outbox.SkippedOnlyIfArchived | src/store/sqlite_task_store.rs:199-232 | when a version is handed over every older recorded one was handed over before or archived |
| Outbox.CommitIsAnnounced | src/store/sqlite_task_store/internal/typed_store.rs:707-734 | with the outbox enabled every commit leaves a pending notification of exactly the version and state it committed |
| Outbox.NotificationsAreTruthful | src/store/sqlite_task_store/internal/typed_store.rs:707-734 | wherever a notification is, its state is the one that its version of the task was committed with |
| Outbox.ArchivedHadFailed | src/service/task_event_publisher/internal/publisher_state.rs:219-244 | a notification is archived only if it is the one whose publication failed last, and after every older version of its task was deleted or archived |
| Outbox.FailureIsCurrent | src/service/task_event_publisher/internal/publisher_state.rs:252-275 | the remembered failure is the latest one and, while a notification is being handed over, never another one's |
| Outbox.CheckpointAuthority | src/store/sqlite_task_store.rs:549-594 | an accepted task's lookup never disappears, answers the version and state of its last committed lifecycle, never falls, and is at least every notification's version |
| CancelSignals.NeverBeforePersisted | src/service/typed_task_execution_service.rs:629-651 | the service never raises the flag before the request is persisted |
| CancelSignals.NoLostSignal | src/service/typed_task_execution_service/internal/service_runner.rs:936-958 | once the persisting call returned and the runner has read again, the flag of the registered attempt is set |
| CancelSignals.SignalledIff | src/service/typed_task_execution_service.rs:626-651 | with no writer on its way, the handler sees a persisted request exactly if the second read found it or the writer was not abandoned |
| CancelSignals.AbandonedWriterLosesSignal | src/service/typed_task_execution_service.rs:626-651 | a run in which the signal is lost and a second cancel call still returns |
| CancelSignals.FinishSawRequest | src/service/typed_task_execution_service/internal/service_runner.rs:1075-1107 | an attempt ends only on a record whose request is still as the finisher read it |
| ExternalCancels.HooksNeverOverlap | src/service/typed_task_execution_service.rs:659-684 | two hooks of one attempt are never invoked at the same time, whatever removes the entry |
| ExternalCancels.ErrorIsLatest | src/service/typed_task_execution_service/internal/service_runner.rs:103-127 | in every interleaving a recorded error is that of the latest hook, no hook runs over a recorded error, and a success never has one to clear |
| ExternalCancels.FailedHook | src/service/typed_task_execution_service/internal/service_runner.rs:185-204 | a failed hook of a running attempt is recorded in one revision and its entry is removed |
| ExternalCancels.SuccessfulHook | src/service/typed_task_execution_service/internal/service_runner.rs:143-198 | a successful hook of a running attempt writes nothing and leaves the success for later calls |
| ExternalCancels.HookCanBeRetried | src/service/typed_task_execution_service.rs:659-684 | whenever the attempt runs with no live flight and no success, an admitted call clears the old error and starts another hook |
| ExternalCancels.ServiceFailureLatches | src/service/typed_task_execution_service/internal/service_runner.rs:195-208 | a flight that met a store error leaves no entry and a fault that turns later calls away |
| ExternalCancels.HookAfterSuccess | src/service/typed_task_execution_service/internal/service_runner.rs:77-210 | a hook follows a successful one only after a store error in its reconciliation |
| ExternalCancels.SecondHook | src/service/typed_task_execution_service/internal/service_runner.rs:145-195 | a run with a second hook after a success |
| ExternalCancels.SuccessIsFinalIff | src/service/typed_task_execution_service/internal/service_runner.rs:77-210 | success is final in every run exactly if the store never fails during reconciliation |
| ExternalCancels.SuccessEntryLeaks | src/service/typed_task_execution_service/internal/service_runner.rs:195-204 | a run after which a finished attempt with no flight left still has its success entry |
| ExternalCancels.LeaksIff | src/service/typed_task_execution_service/internal/service_runner.rs:1095-1102 | after the finishing handler removed the entry a success entry comes back in some continuation exactly if a flight was then about to store one |
| Ledgers.FitsMonotone | src/engine/local_task_execution_engine.rs:102-144 | releasing reservations never makes an available request unavailable |
| Ledgers.UnfitWhenIdle | src/engine/local_task_execution_engine.rs:81-100 | what an idle engine cannot hold no engine can |
| Ledgers.FreeGpusExact | src/engine/local_task_execution_engine.rs:103-112 | the free devices are exactly the configured ones that no reservation holds and that carry every label |
| Ledgers.FreeGpusInOrder | src/engine/local_task_execution_engine.rs:103-112 | they come in configuration order |
| Ledgers.GpusSufficeIff | src/engine/local_task_execution_engine.rs:81-112 | the count of free devices suffices exactly if some set of that many free, labelled devices exists |
| Ledgers.FittingButUnknown | src/engine/local_task_execution_engine.rs:95-100 | for every unconfigured name, the request for zero units of it fits an idle engine and names an unknown resource |
| Ledgers.UnknownButFitting | src/engine/local_task_execution_engine.rs:95-100 | only zero amounts of unknown resources can be rejected although they fit an idle engine |
| Ledgers.RejectionIsRightIff | src/engine/local_task_execution_engine.rs:87-101 | over a set of resource names no request is rejected wrongly exactly if all of them are configured |
| Ledgers.GrantedServes | src/engine/local_task_execution_engine.rs:103-112 | the chosen devices are free, distinct, as many as asked, and carry the labels |
| Ledgers.GrantedAreFirst | src/engine/local_task_execution_engine.rs:103-112 | of the free devices carrying the labels, a reservation gets the ones configured first |
| Ledgers.ReserveSums | src/engine/local_task_execution_engine.rs:151-161 | after a reservation usage is the sum of the live reservations in every dimension and within capacity |
| Ledgers.ReleaseSums | src/engine/local_task_execution_engine/internal/resource_ledger.rs:28-53 | after a release it still is |
| Engines.LocalEngine.ExceedsCapacityIff | src/engine/local_task_execution_engine.rs:81-100 | permanent rejection is exactly: an idle engine could not hold it, or it names an unknown resource |
| Engines.LocalEngine.AvailableIffFits | src/engine/local_task_execution_engine.rs:102-144 | the overflow-checked additions decide exactly whether the request fits beside the live reservations |
| Engines.LocalEngine.LiveRequestsFit | src/engine/local_task_execution_engine.rs:113-161 | in every valid state the processors, memory, disk and custom amounts asked for by any live reservations add up to at most the capacity |
| Engines.LocalEngine.TryPrepare | src/engine/local_task_execution_engine.rs:76-167 | verdict and reservation are functions of capacity, live reservations and request; each verdict has its exact condition, for devices in terms of which sets of them could serve |
| Engines.LocalEngine.Release | src/engine/local_task_execution_engine/internal/resource_ledger.rs:28-53 | subtracts exactly the released amounts, never saturating; releasing twice changes nothing |
| Schedulers.EveryRunBoundsBypass | src/service/typed_task_execution_service/internal/service_runner.rs:685-803 | in every run, after a task becomes the anchor: it is launched, or forgotten by a completed scan that did not meet it, or at most the limit of later tasks were launched and no further one is next |
| Schedulers.EveryRunBoundsStarts | src/service/typed_task_execution_service/internal/service_runner.rs:685-803 | the same bound for the starts the store began: behind an anchor that is neither started nor forgotten at most the limit of later tasks begin |
| Schedulers.EveryStartIsLogged | src/service/typed_task_execution_service/internal/service_runner.rs:725-768 | over every run the log holds exactly the starts the store began, in order |
| Schedulers.BoundedBypass | src/service/typed_task_execution_service/internal/service_runner.rs:725-768 | from anchoring until launch or reset at most the limit of later tasks start, and then only tasks that are not later |
| Schedulers.ResetsAreWarranted | src/service/typed_task_execution_service/internal/service_runner.rs:427-449 | the loop forgets an anchor only at the end of a completed scan that looked at every page without meeting it; if no page was cut the anchor had left the ready queue |
| Schedulers.ScanKeepsAnchor | src/service/typed_task_execution_service/internal/service_runner.rs:709-768 | a scan that does not look at the anchor's task keeps the anchor |
| Schedulers.MissedHasLeft | src/service/typed_task_execution_service/internal/service_runner.rs:796-803 | an uncut completed scan that missed its anchor: the task was not ready when some page was read |
| Schedulers.UncutSeesReady | src/service/typed_task_execution_service/internal/service_runner.rs:691-803 | a scan that reads through to the last page without a cut looks at every task that was ready whenever a page was read |
| Schedulers.CutScanMissesReady | src/service/typed_task_execution_service/internal/service_runner.rs:709-714 | a completed scan that misses a task which was ready all along |
| Schedulers.SeesReadyIff | src/service/typed_task_execution_service/internal/service_runner.rs:790-803 | scans that read through to the last page always see ready tasks exactly if no page is cut |
| Schedulers.CutScanForgetsReady | src/service/typed_task_execution_service/internal/service_runner.rs:709-714 | a scan after which the loop resets an anchor that was ready all along |
| Schedulers.ForgetsLeftIff | src/service/typed_task_execution_service/internal/service_runner.rs:790-803 | completed scans that miss their anchor only do so after it left the ready queue exactly if no page is cut |
| Schedulers.Scheduler.ReserveTaskResources | src/service/typed_task_execution_service/internal/service_runner.rs:864-891 | temporary pressure anchors the task exactly if there is no anchor |
| Schedulers.Scheduler.HandleRecord | src/service/typed_task_execution_service/internal/service_runner.rs:715-770 | a record is anchored, stopped at or failed exactly under the stated conditions, and its start begins exactly if its handler exists, its resources are granted, the service is not stopping, no used-up anchor stands before it and the store begins it; the bypass bound is kept |
| Schedulers.Scheduler.ScanPage | src/service/typed_task_execution_service/internal/service_runner.rs:709-789 | handles the records in order up to the in-flight limit, with exactly the specified notes and outcome; the anchor counts as seen exactly if it was looked at |
| Schedulers.Scheduler.ScanReadyPages | src/service/typed_task_execution_service/internal/service_runner.rs:685-803 | no reset inside a scan; the anchor is reported missing exactly if the scan completed without looking at it, and unless a page was cut only if it had left the ready queue |
| Schedulers.Scheduler.Loop | src/service/typed_task_execution_service/internal/service_runner.rs:427-449 | over any number of scans the bypass bound holds and every reset follows a completed scan that missed the anchor |
| Shutdowns.InFlightIsExact | src/service/typed_task_execution_service/internal/service_runner.rs:709-789 | the counter equals live handlers plus live hooks, every start the store began has a handler that lives, ended or is about to be spawned, and handlers never exceed the limit |
| Shutdowns.QuiescentForEver | src/service/typed_task_execution_service/internal/service_runner.rs:562-661 | from the first release attempt on, nothing is or becomes active and every begun start was run to its end; when the release takes effect no store operation is left |
| Shutdowns.ReleaseStaysPossible | src/service/typed_task_execution_service/internal/service_runner.rs:562-661 | from every reachable state shutdown can still complete, with every call ending by itself: no stage can deadlock |
| Ownership.OwnersAreFenced | src/store/sqlite_task_store.rs:889-937 | owners never overlap, epochs strictly increase, and only the current epoch is ever released |
| Ownership.StaleForEver | src/service/owner_release_guard/owner_release_worker.rs:107-119 | an epoch that lost ownership never regains it, so late release jobs clear nobody |
| Ownership.OwnerRegister.AcquireOwner | src/store/memory_task_store.rs:708-724 | hands out the next epoch exactly if there is no owner and epochs are left |
| Ownership.OwnerRegister.ReleaseOwner | src/store/memory_task_store.rs:736-746 | clears the owner exactly for the current epoch |
| Ownership.OwnerReleaseGuard.Release | src/service/owner_release_guard/owner_release_guard.rs:60-71 | disarms only on success; a stale guard never clears another owner |
| Ownership.AttendedIff | src/service/owner_release_guard/owner_release_guard.rs:60-87 | every owner has an armed guard or a release under way in every run exactly if no start is given up during acquisition, no cleanup job is refused and no release fails |
| Ownership.LosesIff | src/service/owner_release_guard/owner_release_guard.rs:60-87 | one step leaves an owner to nobody exactly if it is an abandoned acquisition, the refusal of its last guard's job with no release under way, or the failure of its last release with no guard left |
| Ownership.LostUntilDeath | src/store/sqlite_task_store.rs:889-937 | an owner left to nobody stays the owner, and nobody can acquire, in every continuation until the process dies |
| Ownership.AbandonedLeavesOwner | src/service/typed_task_execution_service.rs:123-124 | a run in which an acquisition given up by its caller leaves an owner without a guard |

## Left out

- SQLite engine, WAL, file identity and operating-system locks: each store call is one atomic transaction.
- Schema creation and migration: a case list over version numbers.
- JSON, metadata and payload codecs: encodings are taken as injective; corrupt documents appear only as a publisher failure.
- Metadata, resource-name, resource-amount and progress size limits and quarantine-reason validation: single-branch checks; the record's `detail` and `category` texts stand for the validated values.
- The size of an encoded event snapshot is an observation (`Notice`), not computed from the record; its 128 KiB limit is in the contracts.
- Event ids as text: a notification is identified by its task and version, from which the id is derived.
- `next_retry_deadline` and waking up: the clock is read separately for the scan and for the deadline, so only the single-time listing is modelled.
- Liveness of notifications, timeouts and backoff sleeping: the models are about safety, loop termination and, for shutdown and the lifecycle actors, that completing stays possible.
- Counters, statistics, builder, options, error texts, typed adapters, handler registry.
- The publisher's loop is a state machine rather than a method, because its steps interleave with commits, prunes and deaths.
- SqliteStores.SqliteStore.AcceptEncoded: rows are keyed by the numeric id; that the key column's padded text identifies and orders the id is `PaddedDecimals.PaddedOrder`. Ownership checks around writes are in `Ownership` and `Shutdown`, not in the row methods.
- Outbox.InvHolds: assumes the id generator never reissues an id; a pruned id accepted again would restart at version 0.
- Schedulers.Scheduler.ScanReadyPages: in-flight counts and the store's pages are observations; that handlers stay within the limit is `Shutdowns.InFlightIsExact`, that a page is the next page of the ready tasks is `ListReadyQueued` of either store.
- Shutdowns.QuiescentForEver: closing the publisher between draining and releasing is not a stage of its own, and store reads outside admission are not counted as activity.
- Lifecycle.AttemptBound: counts restarts, each of which runs recovery once.
