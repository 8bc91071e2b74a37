# Job orchestration protocol

A Dafny model of a multi-tenant job platform: clients submit jobs, a dispatcher gives each tenant a limited
number of slots, an outbox hands dispatch messages to a broker, workers claim and finish jobs under a lease,
a reaper recovers what dead workers and lost messages leave behind, and failed jobs are retried or buried as
dead letters. `dafny verify dfyconfig.toml` checks all of it.

## How it is built

- `Tables` holds the rows, the database object that the services update in place, and query answers: a page of
  candidates in `ORDER BY … LIMIT` order with ties broken either way (`IsPage`; `PageExists` shows that there always
  is one). A query that passes over locked rows takes the set of rows it skipped as a parameter.
- One module per service file (`Execution`, `Failure`, `Dispatcher`, `Reconciliation`, `SchedulerState`, `Outbox`,
  `Retry`, `Cancellation`, `Submission`, `Overlap`, `Heartbeat`, `DeadLetters`) gives each service twice: a method with
  the service's branches and loops that changes the tables in place, and a function from tables to tables that the
  method is proved to compute, errors and rollbacks included. An exception that rolls a transaction back is
  `Raised`, with the tables restored.
- `Protocol` turns the services into one state machine: every transaction is a step that anyone may take at any time
  on a clock that never goes back. The broker may deliver any message it was ever given, any number of times and in
  any order, or never.
- Two kinds of run are told apart. In a *live* run a worker finishes only an attempt that is still RUNNING. In *every*
  run it may also finish late, after the reaper gave its attempt up, and more than once: `complete_job` and `fail_job`
  check neither the attempt nor the job (jobs/services/execution.py:147-169, jobs/services/execution.py:184-241).
- `Effects` states what each service writes in terms of the columns alone, with the delays, leases, statuses and reasons
  written out, so that nothing rests on a service's own definition.
- `Safety` keeps the invariant of every run, `Live` and `Timing` the stronger one of live runs; `Steps` says what one
  step can do to one row; `Runs` states the results over whole runs. `Capacity`, `Delivery`, `Cache`, `DispatchChoice`,
  `RetryBatches`, `Publication`, `Reservations`, `Stabilisation`, `Reaper`, `CancelledJobs`, `Clients`, `LateWorkers` and
  `HiddenWork` each treat one question, and `Processes` shows that the loops of the worker, the publisher and the reaper are runs of the protocol.
- `Scenarios` builds example runs in which the reaper, the publisher and the scheduler act only on rows that their
  queries list at that time; `Overcommit`, `UndeclaredChanges` and `StaleAttempts` extend them to runs that break a
  promise.

## What the code does that its documentation does not say

- A late worker releases a slot that its job no longer has, since `release_capacity` lowers the counter whether or not
  it deleted a reservation (jobs/services/execution.py:253-264). The counter then says too little and a tenant can hold
  more slots than its limit: `Overcommit.LimitCanBeExceeded` is such a run, `Capacity.ExactIff` says exactly which steps
  lose count, and `Runs.OvercommitBounded` bounds the damage by the number of such releases. The worker of that run falls
  silent until its lease is over, as `Scenarios.FirstJobGivenUp` shows, before the reaper gives it up.
- `validate_transition` is never called by a service. Live runs make three status changes that are not in the declared
  graph (`UndeclaredChanges.UndeclaredChangesHappen`) and never make two that are (`Live.DeclaredAgainstLive`). A late
  worker leaves the graph exactly when the job is not in a worker's hands and does not have the status that finishing
  the attempt writes already (`LateWorkers.OffGraphIff`). So a terminal status is left exactly by a late success of a job
  that did not succeed, or by a late failure that may be retried or whose job did not fail for good
  (`LateWorkers.TerminalLeftIff`); in `UndeclaredChanges.CancelledJobCanSucceed` a cancelled job becomes SUCCEEDED.
- The reaper looks at the lease of an attempt and not at the status of its job. After a late failure a queued job can have
  an attempt that still runs: its heartbeats then renew the reservation of the queued job, and once its lease is over a
  pass fails the job although it was queued a moment ago (`StaleAttempts.QueuedSlotCanBeRenewed`,
  `StaleAttempts.FreshlyQueuedCanFail`). `Reservations.ReservationsRunOut` and `Reaper.QueuedJobInPass` say exactly when a
  reservation ends and what a pass does to a queued job; in live runs neither happens
  (`Reservations.QueuedSlotsAreExact`, `Reaper.FreshlyQueuedIsLeftAlone`).
- `publish_attempts` and `last_error` are never recorded: the error branch raises, and its transaction is rolled back
  (`Runs.FailedSendsLeaveNoTrace`).
- Nothing refreshes a tenant's cached readiness when the `available_at` of a waiting job arrives. In every run due work
  fails to show exactly when no job of the tenant was due at its last refresh (`HiddenWork.HiddenIffNoneWasDue`), and
  `HiddenWork.DueJobIsHidden` is a run in which that happens.

## Model

| member | source | states |
|---|---|---|
| Tables.PageExists | jobs/services/dispatcher.py:66-75 | every ordered and limited query has an answer, so nothing proved for all answers is proved of none |
| Overlap.AcquireOverlap | jobs/services/overlap.py:32-43 | a lock is taken exactly when nobody holds the key; otherwise nothing changes |
| Overlap.ReleaseOverlaps | jobs/services/overlap.py:46-53 | exactly the locks of the job are deleted |
| SchedulerState.RefreshSchedulerState | jobs/services/scheduler_state.py:24-59 | the three cached fields become: some due waiting job exists, the least priority number among those, the earliest `available_at` of all waiting ones; the row is created if missing and nothing else changes |
| Effects.RefreshLeaves | jobs/services/scheduler_state.py:27-41 | ready work shows if and only if a waiting job of the tenant is due; no other row and no counter changes |
| Effects.RefreshFindsFirst | jobs/services/scheduler_state.py:38-48 | `next_ready_at` is the time of some waiting job and no later than any, and the priority is no larger than that of any due one |
| Effects.RefreshedPriority | jobs/services/scheduler_state.py:40-41 | a priority is cached if and only if ready work shows, and it is that of some due job |
| SchedulerState.FirstHasLeastPriority | jobs/services/scheduler_state.py:37-41 | the first ready job by (priority, ready_since) has the least priority number of all ready jobs |
| SchedulerState.RefreshOneMore | jobs/services/retry.py:60-61 | refreshing tenant after tenant is refreshing them all at once |
| Execution.ReleaseCapacity | jobs/services/execution.py:249-264 | reservation and locks of the job go, its tenant's counter drops by one but not below 0; fails without a scheduler row |
| Effects.ReleaseLeaves | jobs/services/execution.py:249-264 | only the reservation and the locks of the job go, and only the counter of its tenant moves, by one and not below 0 |
| Execution.ClaimJob | jobs/services/execution.py:91-133 | a queued job starts executing with the next attempt number and a 300 second lease; any other job yields nothing; a number already used rolls back |
| Effects.ClaimLeaves | jobs/services/execution.py:99-133 | a claimed job is EXECUTING, one attempt more, started at its first claim; the attempt is RUNNING from now with a lease of 300 seconds; nothing else changes |
| Execution.CompleteJob | jobs/services/execution.py:136-169 | whatever their status, attempt and job succeed and the slot is released; a missing row rolls everything back |
| Effects.CompleteLeaves | jobs/services/execution.py:145-169 | attempt and job are SUCCEEDED now, with the result, and the slot is given up |
| Execution.FailJob | jobs/services/execution.py:172-241 | the attempt fails, the job is due again after the delay of its attempt count or is buried once, the slot is released; a missing row rolls back |
| Effects.FailLeaves | jobs/services/execution.py:192-241 | a failure that is not permanent, of attempt 1, 2 or 3, makes the job wait until 3, 5 or 10 seconds from now; any other ends it, with a dead letter if it had none; the attempt keeps type, message and traceback |
| Execution.Execute | jobs/services/execution.py:43-88 | claim, run the handler, then complete or fail with the failure type that its exception stands for; it raises exactly when a queued job has its next attempt number taken or no scheduler row to release in |
| Execution.ExecutedLeaves | jobs/services/execution.py:57-88 | returning gives SUCCEEDED with the result; a permanent error FAILED_FINAL with a PERMANENT_FAILURE letter; a retryable or other error RETRY_WAIT if fewer than three attempts went before, else FAILED_FINAL; the attempt is PERMANENT, TRANSIENT or UNKNOWN |
| Processes.ExecuteIsALiveRun | jobs/services/execution.py:43-88 | from a safe state an uninterrupted worker is a live run: a claim and, exactly when the job was queued, one report |
| Failure.FinalizeFailure | jobs/services/failure.py:45-98 | retryable with a delay left: waits for its retry; otherwise failed for good with at most one dead letter; slot released |
| Effects.FinalizeLeaves | jobs/services/failure.py:61-98 | the same waits of 3, 5 and 10 seconds, or the end with a letter, and the slot given up |
| Failure.FailAttempt | jobs/services/failure.py:101-123 | marks the attempt failed and settles its job in the same transaction |
| Effects.FailAttemptLeaves | jobs/services/failure.py:111-123 | the attempt is FAILED with type and message, and its job fails by the same rule |
| Failure.FailurePathsAgree | jobs/services/execution.py:172-241 | `fail_job` and `fail_attempt` leave the same tables from the same state and time, but for the traceback of the attempt |
| Dispatcher.ReserveJob | jobs/services/dispatcher.py:92-126 | reservation, QUEUED status, counter and outbox row appear together; a second reservation is refused |
| Dispatcher.AcquireFor | jobs/services/dispatcher.py:79-83 | the lock a candidate needs is taken exactly when the candidate is free; otherwise nothing changes |
| Dispatcher.DispatchNext | jobs/services/dispatcher.py:33-89 | the loop over the page gives a slot, with its lock, to the first free candidate under the limit, and leaves the tables alone if there is none or the insert fails |
| Effects.DispatchLeaves | jobs/services/dispatcher.py:97-126 | the chosen job is QUEUED now, with a reservation of 300 seconds, its lock and a pending event, and counted; nothing else changes |
| Dispatcher.FirstFree | jobs/services/dispatcher.py:78-87 | the chosen row is free and every row before it is not; none is chosen exactly when no row is free |
| DispatchChoice.BlockedIffNotFree | jobs/services/overlap.py:20-43 | in a safe state a lock stands for an active job on the same resource, and the other way round |
| DispatchChoice.ChosenIsFirstUnblocked | jobs/services/dispatcher.py:61-87 | a dispatched job is due and unblocked, there was capacity, and every unlocked candidate strictly before it in (priority, ready_since) waits for a resource that an active job holds |
| DispatchChoice.DispatchOrder | jobs/services/dispatcher.py:61-87 | by the columns of the jobs: a dispatched job is waiting, due and unblocked, and any waiting due job of the tenant with a smaller priority number, or the same one and an earlier `ready_since`, is locked or blocked |
| DispatchChoice.NoneIffPageBlocked | jobs/services/dispatcher.py:65-89 | with capacity, nothing is dispatched exactly when each of the first min(10, n) candidates is blocked |
| DispatchChoice.FreeJobIsNotHidden | jobs/services/dispatcher.py:30-75 | fewer than ten blocked jobs ahead never hide a free one |
| Reconciliation.ReconcileAttempt | jobs/services/reconciliation.py:52-76 | a running attempt is abandoned and its job settled as an infrastructure failure; any other attempt is left alone |
| Effects.ReapLeaves | jobs/services/reconciliation.py:65-76 | the attempt is ABANDONED, an infrastructure failure, and its job fails by the common rule with that message |
| Reconciliation.RecoverQueued | jobs/services/reconciliation.py:96-126 | a queued job waits again from now, its slot is released and the cache refreshed; any other job is left alone |
| Effects.RecoverLeaves | jobs/services/reconciliation.py:113-126 | the job is WAITING and ready since now, its slot given up, and nothing else of it changes |
| Reconciliation.ReconcileQueued | jobs/services/reconciliation.py:79-93 | the loop recovers the listed jobs one transaction at a time and stops at an exception, keeping what is committed |
| Reconciliation.ReconcileExpired | jobs/services/reconciliation.py:27-49 | one pass: the listed expired attempts, then the queued jobs with expired reservations that the second query finds |
| Processes.PassIsALiveRun | jobs/services/reconciliation.py:27-49 | a pass of the reaper is a live run of single recoveries |
| Scenarios.FirstJobGivenUp | jobs/services/reconciliation.py:37-46 | a live run whose last step is a pass of the reaper over all its query lists: a worker's attempt, its lease over, is given up |
| Stabilisation.PassEffect | jobs/services/reconciliation.py:27-93 | from any safe state a pass never raises, keeps the state safe, abandons only listed expired attempts, and with everything expired clears up to `limit` running attempts and `limit` queued jobs |
| Stabilisation.OnlyExpiredAreAbandoned | jobs/services/reconciliation.py:37-46 | a pass abandons only attempts whose last heartbeat is more than 300 seconds old |
| Reaper.QueuedJobInPass | jobs/services/reconciliation.py:37-93 | in a pass a queued job waits again if and only if it is listed, its reservation over; it fails if and only if an attempt of it is listed, its lease over; otherwise no column of it changes |
| Reaper.OnlyOldAreRecovered | jobs/services/reconciliation.py:83-93 | in every run a pass takes back only jobs queued more than 300 seconds ago |
| Reaper.FreshlyQueuedIsLeftAlone | jobs/services/reconciliation.py:83-93 | in a live run a pass leaves a job queued within 300 seconds as it is, in every column |
| Reaper.NothingOverdueIsLeft | jobs/services/reconciliation.py:37-93 | a pass whose limit covers what is overdue leaves no running attempt with its lease over and no queued job with its reservation over |
| StaleAttempts.FreshlyQueuedCanFail | jobs/services/reconciliation.py:60-76 | a run with a late worker after which a pass fails a job queued less than 300 seconds ago |
| Stabilisation.PassesShrink | jobs/services/reconciliation.py:27-49 | n passes leave at most the running attempts and queued jobs beyond n times the limit |
| Stabilisation.ReaperCleansUp | jobs/services/reconciliation.py:27-126 | from any state of any run, once all leases and reservations are over, passes enough for the running attempts and queued jobs leave no active job, reservation or lock and every counter at 0 |
| Stabilisation.ReaperCanCleanUp | jobs/services/reconciliation.py:27-126 | for any state of any run there is a time from which max(⌈running/limit⌉, ⌈queued/limit⌉) passes exist and clean up |
| Stabilisation.CleanTenantDispatches | jobs/services/dispatcher.py:61-87 | in a clean state a tenant with a limit of at least 1 and a due job gets a dispatch, of the first candidate |
| Outbox.PublishEvent | jobs/services/outbox.py:38-78 | a pending event is sent and marked; a refused or lost send raises and leaves the event as it was, though a lost one was sent |
| Effects.PublishLeaves | jobs/services/outbox.py:52-78 | an accepted send of a pending event makes it PUBLISHED now; in every other case no row changes; the broker has the message unless it refused it |
| Publication.AcceptedIsPublished | jobs/services/outbox.py:59-62 | an accepted publication marks its event PUBLISHED now, leaves all others, and takes it out of every later pending query |
| Publication.PublishedIsForever | jobs/services/outbox.py:52-53 | in every run a published event never changes again and no pending query finds it |
| Outbox.PublishPending | jobs/services/outbox.py:18-35 | the batch publishes due events one by one until one raises |
| Publication.BatchTakesOldest | jobs/services/outbox.py:25-32 | a batch lists the due events oldest first and leaves only younger ones, and those only if it is full |
| Publication.BatchesDrain | jobs/services/outbox.py:25-35 | n batches whose sends are all accepted leave exactly max(0, due − n·limit) due pending events |
| Processes.PublishBatchIsALiveRun | jobs/services/outbox.py:18-35 | a batch of the publisher is a live run, however far it gets |
| Delivery.OutboxSoundStep | jobs/services/outbox.py:38-78 | every step keeps each event pending or sent, and each queued job the owner of an event of its current dispatch |
| Delivery.EventBalance | jobs/services/dispatcher.py:122-126 | one live step changes events minus attempts minus queued only by an unclaimed exit from the queue |
| Retry.PromoteReadyRetries | jobs/services/retry.py:19-63 | the loop makes the listed retries wait from now, refreshes their tenants and counts min(limit, due) |
| Effects.PromoteLeaves | jobs/services/retry.py:47-61 | each listed job is WAITING and ready since now, no other job changes |
| RetryBatches.BatchTakesEarliest | jobs/services/retry.py:33-56 | a batch promotes exactly min(limit, due) retries, none early, none before an earlier one, and leaves every other job as it is |
| RetryBatches.BatchesDrain | jobs/services/retry.py:30-63 | at a fixed time n batches leave exactly max(0, due − n·limit) due retries |
| RetryBatches.DrainedIffEnough | jobs/services/retry.py:30-63 | no due retry is left exactly when n·limit covers those there were |
| Cancellation.CancelJob | jobs/services/cancellation.py:22-62 | waiting, retrying and queued jobs are cancelled (a queued one gives up its slot), an executing one is asked to stop, every other stays |
| Effects.CancelLeaves | jobs/services/cancellation.py:35-60 | WAITING, RETRY_WAIT and QUEUED become CANCELLED now, EXECUTING becomes CANCEL_REQUESTED, the other four do not change; only a queued job gives up a slot |
| CancelledJobs.CancelledIsNeverDispatched | jobs/services/cancellation.py:39-48 | whatever follows in a live run, a waiting, retrying or queued job that is cancelled stays exactly so and gets no further dispatch |
| Heartbeat.RecordHeartbeat | jobs/services/heartbeat.py:28-63 | only a running attempt is renewed, with its job's reservation, for 300 seconds |
| Effects.BeatLeaves | jobs/services/heartbeat.py:38-63 | attempt and reservation run for 300 seconds from the heartbeat of a running attempt; otherwise nothing changes |
| Reservations.ReservationsRunOut | jobs/services/heartbeat.py:56-61 | in every run a reservation ends 300 seconds after its dispatch or the last heartbeat of a running attempt of its job |
| Reservations.QueuedSlotsLast | jobs/services/dispatcher.py:98-107 | in every run a queued job has a reservation for at least 300 seconds from its dispatch |
| Reservations.QueuedSlotsAreExact | jobs/services/dispatcher.py:98-107 | in a live run it ends exactly 300 seconds after the dispatch |
| StaleAttempts.QueuedSlotCanBeRenewed | jobs/services/heartbeat.py:42-61 | a run with a late worker in which the reservation of a queued job outlasts that |
| Timing.LeaseStep | jobs/services/heartbeat.py:38-63 | in every run a lease is its heartbeat plus 300 seconds, lies after the start, and never moves back |
| Submission.FindExisting | jobs/services/submission.py:54-60 | finds a job of the tenant with the key exactly when there is one |
| Submission.InsertOrGet | jobs/services/submission.py:62-83 | inserts exactly when the key is free and otherwise returns the job that has it; keys stay unique |
| Submission.Submit | jobs/views.py:50-55 | an uninterrupted submission: a new job is created exactly when the key was free, and only then is the cache refreshed |
| Effects.SubmitLeaves | jobs/services/submission.py:47-75 | a key that the tenant has used adds nothing; otherwise the job gets type, priority, payload, key and time of the request, waits and has no attempts |
| Clients.HistoryConsistent | jobs/services/submission.py:50-83 | with any interleaving of look-ups, inserts and other transactions, every answer names a job with the wanted key, and each key that appeared has one creator |
| Clients.OneJobOneCreator | jobs/services/submission.py:50-83 | clients answered for the same tenant and key got the same job, at most one of them created it, and none did exactly when it was there before |
| Clients.SameKeySameJob | jobs/services/submission.py:54-83 | clients that send a key get the same job if and only if tenant and key are the same, and it has that tenant and key |
| Clients.ServicesActElsewhere | jobs/models/job.py:164-176 | every other service is such an other transaction, a replay only if its random key is none that a client wants |
| Runs.UniqueKeysStep | jobs/models/job.py:164-176 | every step keeps at most one job per tenant and key |
| DeadLetters.ReplayDeadLetter | jobs/services/dead_letter.py:20-68 | inserts a fresh waiting copy with a new key, marks the letter with it and refreshes the tenant; a missing letter or used key changes nothing |
| Effects.ReplayLeaves | jobs/services/dead_letter.py:43-66 | the copy has tenant, type, priority and payload of the source, its own key, and waits from now; the letter is REPLAYED and names it |
| Runs.ReplaysKeepJobs | jobs/services/dead_letter.py:41-63 | replays, however many, leave the source and every other job as it is |
| Transitions.ValidateTransition | jobs/domain/state_machine.py:17-33 | succeeds exactly for a declared change, and never from a terminal status |
| Live.DeclaredAgainstLive | jobs/domain/transitions.py:16-49 | live changes are the declared ones plus QUEUED to CANCELLED, CANCEL_REQUESTED to RETRY_WAIT and CANCEL_REQUESTED to FAILED_FINAL, less QUEUED to CANCEL_REQUESTED and CANCEL_REQUESTED to CANCELLED; none leaves a terminal status |
| Live.LiveMoves | jobs/domain/transitions.py:16-49 | in a live run every step leaves a job as it is or moves its status along such a change, counting an attempt exactly on a claim |
| Live.QueuedIsCancelled | jobs/services/cancellation.py:44-48 | cancelling a queued job always takes the undeclared change |
| Live.CancelRequestIsReaped | jobs/services/failure.py:61-78 | a job asked to stop whose worker is given up waits for a retry or fails for good, never becoming CANCELLED |
| LateWorkers.OffGraphIff | jobs/services/execution.py:147-241 | in every run a step changes a status off the graph of live runs if and only if it finishes an attempt of a job that is neither EXECUTING nor CANCEL_REQUESTED and does not yet have the status that finishing writes |
| LateWorkers.TerminalLeftIff | jobs/services/execution.py:150-219 | in every run a terminal status is left if and only if an attempt of the job is completed and the job did not succeed, or fails with a retry to come or without the job having failed for good |
| UndeclaredChanges.UndeclaredChangesHappen | jobs/services/cancellation.py:44-52 | live runs that take QUEUED to CANCELLED, CANCEL_REQUESTED to RETRY_WAIT and CANCEL_REQUESTED to FAILED_FINAL |
| UndeclaredChanges.CancelledJobCanSucceed | jobs/services/execution.py:147-158 | a run in which a job is claimed, given up after its lease, cancelled, and then completed by its late worker: CANCELLED becomes SUCCEEDED |
| Live.StepLive | jobs/services/execution.py:136-264 | every live step keeps the live invariant: only the latest attempt of a claimed job runs, letters only of failed jobs, exact counters |
| Safety.StepSafe | jobs/services/execution.py:91-264 | every step of every run keeps the agreement of status, reservation, lock, attempts and letters, and bounded counters |
| Steps.IdentityStep | jobs/services/execution.py:115-123 | tenant, payload, priority, type and key of a job never change |
| Steps.NewJobStep | jobs/services/submission.py:62-75 | jobs appear only by a submission or a replay, with a key that was free |
| Steps.AttemptStep | jobs/models/attempt.py:118-130 | no step removes an attempt; only a claim of a queued job adds one, the next by number |
| Steps.LettersStep | jobs/services/failure.py:75-92 | a letter appears only as its job fails for good and is later changed only by a replay |
| Capacity.GapStep | jobs/services/execution.py:249-264 | in every run, exactly how a step changes reservation rows minus counter |
| Capacity.ExactIff | jobs/services/execution.py:253-264 | from an exact count a step stays exact if and only if it does not release, with the counter above 0, a slot that its job does not hold |
| Overcommit.LimitCanBeExceeded | jobs/services/execution.py:253-264 | a concrete run, the lease of the first worker over before it is given up, in which a tenant with limit 2 and counter 2 has three reservations |
| Cache.ExactAfterRefresh | jobs/services/scheduler_state.py:24-59 | right after a refresh all three cached fields are exact |
| Cache.CacheStep | jobs/views.py:50-55 | every step keeps each waiting job covered by the cache as of the last refresh |
| HiddenWork.HiddenIffNoneWasDue | jobs/tasks.py:61-65 | in every run due work of a tenant does not show if and only if no job of it was due at its last refresh, whatever happened since |
| HiddenWork.HiddenWorkCameLater | jobs/services/scheduler_state.py:40-48 | in every run, if due work does not show, `next_ready_at` lies after the last refresh and has come, and every due job became available after the refresh |
| HiddenWork.ExactUntilOneLeaves | jobs/services/scheduler_state.py:24-59 | in every run the three fields are exact as of the last refresh until a job of the tenant stops waiting |
| HiddenWork.HiddenIff | jobs/services/scheduler_state.py:40-48 | until then, due work does not show if and only if `next_ready_at` lies after the last refresh and has come |
| HiddenWork.DueJobIsHidden | jobs/views.py:50-55 | a run in which a job submitted for an hour later is due and the scheduler passes its tenant over |
| Timing.SpacingStep | jobs/services/failure.py:67-73 | every live step keeps ended attempts closed, waiting jobs due only after their delay, attempts spaced and letters late |
| Runs.EveryRunIsSafe | jobs/services/dispatcher.py:33-126 | the safety invariant, the leases, the outbox and unique keys hold in every state of every run |
| Runs.OneHolderPerResource | jobs/services/overlap.py:20-53 | in every run at most one active job works on a tenant's resource |
| Runs.AttemptsAreNumbered | jobs/services/execution.py:109-133 | in every run a job's attempts are exactly 1 to its count, at most 4, at most 3 while waiting, queued or retrying, and a claimed job's latest one runs |
| Runs.OvercommitBounded | jobs/services/dispatcher.py:61-63 | in every run the counter is within the limit and the reservation rows, which exceed counter and limit by at most the number of empty releases |
| Runs.FailedJobHasLetter | jobs/services/failure.py:75-92 | in every run a job failed for good has a dead letter, and exhausted retries mean a fourth attempt |
| Runs.QueuedJobIsAnnounced | jobs/services/dispatcher.py:122-126 | in every run the event of a queued job's current dispatch is pending or its message was handed to the broker |
| Runs.FailedSendsLeaveNoTrace | jobs/services/outbox.py:64-78 | in every run no event ever records a failed send |
| Runs.CacheCoversWaitingJobs | jobs/services/scheduler_state.py:24-59 | in every run `next_ready_at` is no later than any waiting job, and a job due at the last refresh shows as ready work of at least its priority |
| Runs.EveryLiveRunIsLive | jobs/services/execution.py:136-241 | the live invariant and the spacing hold in every state of every live run |
| Runs.CapacityIsExact | jobs/services/dispatcher.py:61-120 | in a live run counter, reservation rows and active jobs of a tenant are the same number, at most the limit |
| Runs.TerminalIsForever | jobs/models/job.py:27-30 | in a live run a job that succeeded, failed for good or was cancelled is never changed again, in any field |
| Runs.RetriesAreSpaced | jobs/services/execution.py:210-215 | in a live run attempt k+1 starts no earlier than the end of attempt k plus 3, 5 or 10 seconds for k = 1, 2 or 3 |
| Runs.GivenUpAfterAllDelays | jobs/services/failure.py:38-73 | in a live run retries are exhausted at least 18 seconds after the first attempt started |
| Runs.LetterIffFailedForGood | jobs/services/execution.py:216-235 | in a live run a dead letter exists if and only if its job is FAILED_FINAL |
| Runs.ChangesLeftStep | jobs/services/reconciliation.py:110-122 | a measure of attempts left and status drops with every status change, and a recovery raises it by one |
| Runs.StatusChangesBounded | jobs/services/failure.py:61-78 | in a live run a job recovered r times changed status at most 19 + 2r times |
| Runs.OneEventPerDispatch | jobs/services/execution.py:109-110 | in a live run a job's events are its attempts, its unclaimed exits from the queue and one if it is queued, so no duplicate message starts a second attempt |

## Left out

- One clock reading per transaction: `fail_attempt`, `reconcile_attempt`, `recover_queued`, `promote_ready_retries`, `replay_dead_letter`, `reconcile_expired`, `publish_pending` and the view's submission with its refresh read the time more than once, partly in a service they call; the model reads it once for each transaction, or pass, or batch, or submission with its refresh.
- Clock readings in the order of the commits: the code reads the time before it waits for row locks, so that a transaction may commit with a reading older than an earlier commit's. That the protocol's clock never goes back across steps is an assumption.
- Every service is one atomic step, the heartbeat and the refresh included, though they run as several statements without a lock; a heartbeat between the listing of the reaper and its recovery is a step that may come before the recovery, and the lease is not checked again there, as in the code.
- Runs.CacheCoversWaitingJobs: takes the view's submission and refresh as one step; in the instant between the two a new job is not yet covered, because the code refreshes in a second transaction.
- Stabilisation.OnlyExpiredAreAbandoned: takes listing and recovery as one step, because the code does not look at the lease again in between.
- Execution.Execute: takes the worker as uninterrupted, because any interruption is covered by the protocol's separate claim and report steps; the message of an exception raised by `complete_job` itself is a fixed string.
- Dispatcher.DispatchNext: the list and order of candidates are an argument constrained to be an answer to the query, because the database may break ties either way.
- Identifiers: attempts are named by job and number, reservations and dead letters by job, locks by tenant and key, events by position; random keys and identifiers are parameters.
- Events in order of creation are in order of position; equal creation times are not distinguished.
- Delivery of a cancellation to a running worker: no code acknowledges CANCEL_REQUESTED.
- Changes to `max_concurrent_jobs` and `is_active` while the system runs, and the deletion of tenants or jobs.
- The GLOBAL overlap scope, lock expiry, lease tokens, worker names and event payloads, which no service reads.
- A payload's `overlap_key` is a string; the rest of the payload is opaque, and values of other types are not modelled.
- Fairness across tenants: the scheduler takes 100 rows in no order.
- `retry_delay`, which nothing calls.
- HTTP views beyond the submit-then-refresh pair, serializers, settings, Celery scheduling, row-lock waits and deadlocks.
- Handlers and their registry: a handler returns or raises, and what it does is arbitrary.
