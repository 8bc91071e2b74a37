/** What every reachable state keeps, late workers and duplicate messages included. */
module Safety {
  import opened Tables
  import opened SchedulerState
  import opened Protocol
  import Execution
  import Failure
  import Dispatcher
  import Retry
  import Reconciliation
  import Outbox
  import Heartbeat
  import Cancellation
  import Submission
  import DeadLetters

  // ---- The invariant -------------------------------------------------------------------------

  /** Tenants of jobs exist, and a tenant with work has a scheduler row. */
  ghost predicate TenantsKnown(jobs: map<JobId, Job>, tenants: map<TenantId, nat>, sched: map<TenantId, SchedRow>) {
    && (forall j :: j in jobs ==> jobs[j].tenant in tenants)
    && (forall j :: j in jobs && (jobs[j].attemptCount > 0 || Active(jobs[j].status)) ==> jobs[j].tenant in sched)
    && (forall t :: t in sched ==> t in tenants)
  }

  /** A job has a reservation exactly while its status takes a slot. */
  ghost predicate SlotsMatch(jobs: map<JobId, Job>, reservations: map<JobId, Reservation>) {
    && (forall j :: j in reservations ==> j in jobs && reservations[j].tenant == jobs[j].tenant)
    && (forall j :: j in jobs ==> (j in reservations <==> Active(jobs[j].status)))
  }

  predicate NeedsLock(job: Job) {
    Active(job.status) && job.payload.overlapKey != ""
  }

  /** A job holds the lock of its resource exactly while it takes a slot, and no job holds any other. */
  ghost predicate LocksMatch(jobs: map<JobId, Job>, locks: map<LockKey, JobId>) {
    && (forall k :: k in locks ==> locks[k] in jobs && NeedsLock(jobs[locks[k]]) && k == LockOf(jobs[locks[k]]))
    && (forall j :: j in jobs && NeedsLock(jobs[j]) ==> LockOf(jobs[j]) in locks && locks[LockOf(jobs[j])] == j)
  }

  const MAX_ATTEMPTS: nat := 4

  /** How many attempts a job can have had in each status. */
  predicate CountFits(job: Job) {
    match job.status
    case Waiting | Queued | Cancelled => job.attemptCount <= 3
    case RetryWait => 1 <= job.attemptCount <= 3
    case Executing | CancelRequested | Succeeded | FailedFinal => 1 <= job.attemptCount <= MAX_ATTEMPTS
  }

  predicate LatestRuns(j: JobId, job: Job, attempts: map<AttemptId, Attempt>) {
    AttemptId(j, job.attemptCount) in attempts && attempts[AttemptId(j, job.attemptCount)].status.Running?
  }

  /** The attempts of a job are numbered 1 to its attempt count, and a claimed job's latest one runs. */
  ghost predicate AttemptsMatch(jobs: map<JobId, Job>, attempts: map<AttemptId, Attempt>) {
    && (forall a :: a in attempts ==> a.job in jobs && 1 <= a.number <= jobs[a.job].attemptCount)
    && (forall j, n :: j in jobs && 1 <= n <= jobs[j].attemptCount ==> AttemptId(j, n) in attempts)
    && (forall j :: j in jobs ==> CountFits(jobs[j]))
    && (forall j :: j in jobs && InHand(jobs[j].status) ==> LatestRuns(j, jobs[j], attempts))
  }

  /** The reservation rows of a tenant. */
  ghost function Held(reservations: map<JobId, Reservation>, t: TenantId): set<JobId> {
    set j | j in reservations && reservations[j].tenant == t
  }

  /** A counter is never above its tenant's limit, nor above the number of reservation rows. */
  ghost predicate CountersBounded(tenants: map<TenantId, nat>, reservations: map<JobId, Reservation>, sched: map<TenantId, SchedRow>) {
    forall t :: t in sched ==> sched[t].active <= |Held(reservations, t)| && t in tenants && sched[t].active <= tenants[t]
  }

  /** A job that failed for good has a dead letter; only a fourth attempt exhausts the retries. */
  ghost predicate LettersMatch(jobs: map<JobId, Job>, letters: map<JobId, DeadLetter>) {
    && (forall j :: j in letters ==> j in jobs)
    && (forall j :: j in jobs && jobs[j].status.FailedFinal? ==> j in letters)
    && (forall j :: j in letters && letters[j].reason.RetriesExhausted? ==> letters[j].lastAttempt == MAX_ATTEMPTS)
  }

  ghost predicate OutboxMatches(jobs: map<JobId, Job>, outbox: seq<OutboxRow>) {
    forall e :: 0 <= e < |outbox| ==> outbox[e].job in jobs
  }

  ghost predicate DbSafe(db: Db) {
    && TenantsKnown(db.jobs, db.tenants, db.sched)
    && SlotsMatch(db.jobs, db.reservations)
    && LocksMatch(db.jobs, db.locks)
    && AttemptsMatch(db.jobs, db.attempts)
    && CountersBounded(db.tenants, db.reservations, db.sched)
    && LettersMatch(db.jobs, db.deadLetters)
    && OutboxMatches(db.jobs, db.outbox)
  }

  lemma Fits(db: Db, j: JobId)
    requires DbSafe(db) && j in db.jobs
    ensures CountFits(db.jobs[j])
    ensures db.jobs[j].attemptCount > 0 || Active(db.jobs[j].status) ==> db.jobs[j].tenant in db.sched
  {
  }

  lemma Slots(db: Db)
    requires DbSafe(db)
    ensures SlotsMatch(db.jobs, db.reservations) && AttemptsMatch(db.jobs, db.attempts)
  {
  }

  lemma Letters(db: Db)
    requires DbSafe(db)
    ensures LettersMatch(db.jobs, db.deadLetters)
  {
  }

  /** The fields no service ever changes. */
  predicate SameIdentity(before: Job, after: Job) {
    && after.tenant == before.tenant && after.payload == before.payload && after.priority == before.priority
    && after.jobType == before.jobType && after.key == before.key
  }

  // ---- Jobs that stay in or out of their slots -----------------------------------------------

  /** No job enters or leaves a slot or a worker's hands; jobs may be added, waiting and unattempted. */
  ghost predicate Quiet(jobs: map<JobId, Job>, after: map<JobId, Job>, tenants: map<TenantId, nat>) {
    && (forall j :: j in jobs ==> j in after)
    && (forall j :: j in after && j !in jobs ==>
          after[j].status.Waiting? && after[j].attemptCount == 0 && after[j].tenant in tenants)
    && (forall j :: j in jobs ==>
          && SameIdentity(jobs[j], after[j]) && after[j].attemptCount == jobs[j].attemptCount
          && Active(after[j].status) == Active(jobs[j].status) && InHand(after[j].status) == InHand(jobs[j].status)
          && (after[j].status.FailedFinal? <==> jobs[j].status.FailedFinal?)
          && (CountFits(jobs[j]) ==> CountFits(after[j])))
  }

  lemma QuietTenants(jobs: map<JobId, Job>, after: map<JobId, Job>, tenants: map<TenantId, nat>, sched: map<TenantId, SchedRow>)
    requires Quiet(jobs, after, tenants) && TenantsKnown(jobs, tenants, sched)
    ensures TenantsKnown(after, tenants, sched)
  {
  }

  lemma QuietSlots(jobs: map<JobId, Job>, after: map<JobId, Job>, tenants: map<TenantId, nat>, reservations: map<JobId, Reservation>)
    requires Quiet(jobs, after, tenants) && SlotsMatch(jobs, reservations)
    ensures SlotsMatch(after, reservations)
  {
  }

  lemma QuietLocks(jobs: map<JobId, Job>, after: map<JobId, Job>, tenants: map<TenantId, nat>, locks: map<LockKey, JobId>)
    requires Quiet(jobs, after, tenants) && LocksMatch(jobs, locks)
    ensures LocksMatch(after, locks)
  {
    forall j | j in after && NeedsLock(after[j])
      ensures LockOf(after[j]) in locks && locks[LockOf(after[j])] == j
    {
      assert j in jobs && NeedsLock(jobs[j]);
    }
  }

  lemma QuietAttempts(jobs: map<JobId, Job>, after: map<JobId, Job>, tenants: map<TenantId, nat>, attempts: map<AttemptId, Attempt>)
    requires Quiet(jobs, after, tenants) && AttemptsMatch(jobs, attempts)
    ensures AttemptsMatch(after, attempts)
  {
    forall j | j in after && InHand(after[j].status)
      ensures LatestRuns(j, after[j], attempts)
    {
      assert j in jobs && LatestRuns(j, jobs[j], attempts);
    }
  }

  lemma QuietSafe(db: Db, after: map<JobId, Job>)
    requires DbSafe(db) && Quiet(db.jobs, after, db.tenants)
    ensures DbSafe(db.(jobs := after))
  {
    QuietTenants(db.jobs, after, db.tenants, db.sched);
    QuietSlots(db.jobs, after, db.tenants, db.reservations);
    QuietLocks(db.jobs, after, db.tenants, db.locks);
    QuietAttempts(db.jobs, after, db.tenants, db.attempts);
    assert LettersMatch(after, db.deadLetters);
    assert OutboxMatches(after, db.outbox);
  }

  // ---- Giving a slot back --------------------------------------------------------------------

  /** Job `j` becomes `job`, in a status without a slot, before its slot is released. Attempts of other
    * jobs stay as they are, and at most a dead letter of `j` is added.
    */
  ghost predicate Leaves(db: Db, mid: Db, j: JobId, job: Job) {
    && j in db.jobs && db.jobs[j].tenant in db.sched
    && SameIdentity(db.jobs[j], job) && job.attemptCount == db.jobs[j].attemptCount
    && !Active(job.status) && CountFits(job)
    && mid == db.(jobs := db.jobs[j := job], attempts := mid.attempts, deadLetters := mid.deadLetters)
    && mid.attempts.Keys == db.attempts.Keys
    && (forall a :: a in db.attempts && a.job != j ==> mid.attempts[a] == db.attempts[a])
    && db.deadLetters.Keys <= mid.deadLetters.Keys <= db.deadLetters.Keys + {j}
    && LettersMatch(mid.jobs, mid.deadLetters)
  }

  lemma ReleaseTenants(db: Db, mid: Db, j: JobId, job: Job)
    requires TenantsKnown(db.jobs, db.tenants, db.sched) && Leaves(db, mid, j, job)
    ensures var after := Execution.Released(mid, j); TenantsKnown(after.jobs, after.tenants, after.sched)
  {
  }

  lemma ReleaseSlots(db: Db, mid: Db, j: JobId, job: Job)
    requires SlotsMatch(db.jobs, db.reservations) && Leaves(db, mid, j, job)
    ensures var after := Execution.Released(mid, j); SlotsMatch(after.jobs, after.reservations)
  {
  }

  lemma ReleaseLocks(db: Db, mid: Db, j: JobId, job: Job)
    requires LocksMatch(db.jobs, db.locks) && Leaves(db, mid, j, job)
    ensures var after := Execution.Released(mid, j); LocksMatch(after.jobs, after.locks)
  {
    var after := Execution.Released(mid, j);
    forall i | i in after.jobs && NeedsLock(after.jobs[i])
      ensures LockOf(after.jobs[i]) in after.locks && after.locks[LockOf(after.jobs[i])] == i
    {
      assert i != j && NeedsLock(db.jobs[i]);
    }
  }

  lemma ReleaseAttempts(db: Db, mid: Db, j: JobId, job: Job)
    requires AttemptsMatch(db.jobs, db.attempts) && Leaves(db, mid, j, job)
    ensures AttemptsMatch(mid.jobs, mid.attempts)
  {
    forall i | i in mid.jobs && InHand(mid.jobs[i].status)
      ensures LatestRuns(i, mid.jobs[i], mid.attempts)
    {
      assert i != j && LatestRuns(i, db.jobs[i], db.attempts);
    }
  }

  lemma HeldAfterRelease(db: Db, mid: Db, j: JobId, job: Job, t: TenantId)
    requires SlotsMatch(db.jobs, db.reservations) && Leaves(db, mid, j, job)
    ensures Held(Execution.Released(mid, j).reservations, t)
      == if db.jobs[j].tenant == t then Held(db.reservations, t) - {j} else Held(db.reservations, t)
  {
  }

  lemma ReleaseCounters(db: Db, mid: Db, j: JobId, job: Job)
    requires SlotsMatch(db.jobs, db.reservations) && CountersBounded(db.tenants, db.reservations, db.sched)
    requires Leaves(db, mid, j, job)
    ensures var after := Execution.Released(mid, j); CountersBounded(after.tenants, after.reservations, after.sched)
  {
    var after := Execution.Released(mid, j);
    forall t | t in after.sched
      ensures after.sched[t].active <= |Held(after.reservations, t)| && t in after.tenants && after.sched[t].active <= after.tenants[t]
    {
      HeldAfterRelease(db, mid, j, job, t);
    }
  }

  lemma ReleaseSafe(db: Db, mid: Db, j: JobId, job: Job)
    requires DbSafe(db) && Leaves(db, mid, j, job)
    ensures DbSafe(Execution.Released(mid, j))
  {
    ReleaseTenants(db, mid, j, job);
    ReleaseSlots(db, mid, j, job);
    ReleaseLocks(db, mid, j, job);
    ReleaseAttempts(db, mid, j, job);
    ReleaseCounters(db, mid, j, job);
    assert OutboxMatches(mid.jobs, mid.outbox);
  }

  // ---- Taking a slot -------------------------------------------------------------------------

  ghost predicate Dispatchable(db: Db, t: TenantId, j: JobId) {
    && j in db.jobs && db.jobs[j].tenant == t && db.jobs[j].status.Waiting?
    && Dispatcher.HasCapacity(db, t) && Dispatcher.Free(db, j)
  }

  lemma EnqueueLocks(db: Db, t: TenantId, j: JobId, now: Time)
    requires LocksMatch(db.jobs, db.locks) && Dispatchable(db, t, j)
    ensures var after := Dispatcher.Enqueued(db, t, j, now); LocksMatch(after.jobs, after.locks)
  {
    var after := Dispatcher.Enqueued(db, t, j, now);
    forall i | i in after.jobs && NeedsLock(after.jobs[i])
      ensures LockOf(after.jobs[i]) in after.locks && after.locks[LockOf(after.jobs[i])] == i
    {
      assert i != j ==> NeedsLock(db.jobs[i]);
    }
  }

  lemma EnqueueSlots(db: Db, t: TenantId, j: JobId, now: Time)
    requires SlotsMatch(db.jobs, db.reservations) && Dispatchable(db, t, j)
    ensures var after := Dispatcher.Enqueued(db, t, j, now); SlotsMatch(after.jobs, after.reservations)
    ensures var after := Dispatcher.Enqueued(db, t, j, now);
      forall u :: Held(after.reservations, u) == if u == t then Held(db.reservations, u) + {j} else Held(db.reservations, u)
  {
  }

  lemma EnqueueCounters(db: Db, t: TenantId, j: JobId, now: Time)
    requires SlotsMatch(db.jobs, db.reservations) && CountersBounded(db.tenants, db.reservations, db.sched)
    requires Dispatchable(db, t, j)
    ensures var after := Dispatcher.Enqueued(db, t, j, now); CountersBounded(after.tenants, after.reservations, after.sched)
  {
    NotHeldYet(db, t, j);
    var after := Dispatcher.Enqueued(db, t, j, now);
    hide Held, SlotsMatch, Dispatcher.Free, Dispatcher.LocksWith;
    forall u | u in after.sched
      ensures after.sched[u].active <= |Held(after.reservations, u)| && u in after.tenants && after.sched[u].active <= after.tenants[u]
    {
      HeldAfterEnqueue(db, t, j, now, u);
    }
  }

  lemma NotHeldYet(db: Db, t: TenantId, j: JobId)
    requires SlotsMatch(db.jobs, db.reservations) && Dispatchable(db, t, j)
    ensures j !in Held(db.reservations, t)
  {
  }

  lemma HeldAfterEnqueue(db: Db, t: TenantId, j: JobId, now: Time, u: TenantId)
    requires SlotsMatch(db.jobs, db.reservations) && Dispatchable(db, t, j)
    ensures Held(Dispatcher.Enqueued(db, t, j, now).reservations, u)
      == if u == t then Held(db.reservations, u) + {j} else Held(db.reservations, u)
  {
  }

  lemma EnqueueAttempts(db: Db, t: TenantId, j: JobId, now: Time)
    requires AttemptsMatch(db.jobs, db.attempts) && Dispatchable(db, t, j)
    ensures var after := Dispatcher.Enqueued(db, t, j, now); AttemptsMatch(after.jobs, after.attempts)
  {
    var after := Dispatcher.Enqueued(db, t, j, now);
    assert CountFits(db.jobs[j]);
    forall i | i in after.jobs && InHand(after.jobs[i].status)
      ensures LatestRuns(i, after.jobs[i], after.attempts)
    {
      assert LatestRuns(i, db.jobs[i], db.attempts);
    }
  }

  lemma EnqueueOthers(db: Db, t: TenantId, j: JobId, now: Time)
    requires TenantsKnown(db.jobs, db.tenants, db.sched) && LettersMatch(db.jobs, db.deadLetters)
    requires OutboxMatches(db.jobs, db.outbox) && Dispatchable(db, t, j)
    ensures var after := Dispatcher.Enqueued(db, t, j, now);
      TenantsKnown(after.jobs, after.tenants, after.sched) && LettersMatch(after.jobs, after.deadLetters)
      && OutboxMatches(after.jobs, after.outbox)
  {
  }

  lemma EnqueueSafe(db: Db, t: TenantId, j: JobId, now: Time)
    requires DbSafe(db) && Dispatchable(db, t, j)
    ensures DbSafe(Dispatcher.Enqueued(db, t, j, now))
  {
    hide TenantsKnown, SlotsMatch, LocksMatch, AttemptsMatch, CountersBounded, LettersMatch, OutboxMatches;
    EnqueueSlots(db, t, j, now);
    EnqueueLocks(db, t, j, now);
    EnqueueAttempts(db, t, j, now);
    EnqueueCounters(db, t, j, now);
    EnqueueOthers(db, t, j, now);
  }

  // ---- Being claimed -------------------------------------------------------------------------

  /** The number of the next attempt is unused, so the uniqueness constraint never fires. */
  lemma NextAttemptIsNew(db: Db, j: JobId)
    requires AttemptsMatch(db.jobs, db.attempts) && j in db.jobs
    ensures Execution.NextAttempt(db, j) !in db.attempts
  {
  }

  lemma ClaimAttempts(db: Db, j: JobId, now: Time)
    requires AttemptsMatch(db.jobs, db.attempts) && Execution.Claimable(db, j)
    ensures var after := Execution.Claimed(db, j, now); AttemptsMatch(after.jobs, after.attempts)
  {
    NextAttemptIsNew(db, j);
    var after := Execution.Claimed(db, j, now);
    assert CountFits(db.jobs[j]);
    assert forall a :: a in after.attempts <==> a in db.attempts || a == Execution.NextAttempt(db, j);
    forall i | i in after.jobs && InHand(after.jobs[i].status)
      ensures LatestRuns(i, after.jobs[i], after.attempts)
    {
      assert i != j ==> LatestRuns(i, db.jobs[i], db.attempts);
    }
  }

  lemma ClaimLocks(db: Db, j: JobId, now: Time)
    requires LocksMatch(db.jobs, db.locks) && Execution.Claimable(db, j)
    ensures var after := Execution.Claimed(db, j, now); LocksMatch(after.jobs, after.locks)
  {
    var after := Execution.Claimed(db, j, now);
    forall i | i in after.jobs && NeedsLock(after.jobs[i])
      ensures LockOf(after.jobs[i]) in after.locks && after.locks[LockOf(after.jobs[i])] == i
    {
      assert NeedsLock(db.jobs[i]);
    }
  }

  lemma ClaimOthers(db: Db, j: JobId, now: Time)
    requires TenantsKnown(db.jobs, db.tenants, db.sched) && SlotsMatch(db.jobs, db.reservations) && Execution.Claimable(db, j)
    ensures var after := Execution.Claimed(db, j, now);
      TenantsKnown(after.jobs, after.tenants, after.sched) && SlotsMatch(after.jobs, after.reservations)
  {
  }

  lemma ClaimRecords(db: Db, j: JobId, now: Time)
    requires LettersMatch(db.jobs, db.deadLetters) && OutboxMatches(db.jobs, db.outbox) && Execution.Claimable(db, j)
    ensures var after := Execution.Claimed(db, j, now);
      LettersMatch(after.jobs, after.deadLetters) && OutboxMatches(after.jobs, after.outbox)
  {
  }

  lemma ClaimSafe(db: Db, j: JobId, now: Time)
    requires DbSafe(db)
    ensures DbSafe(Execution.Claimed(db, j, now))
  {
    hide TenantsKnown, SlotsMatch, LocksMatch, AttemptsMatch, CountersBounded, LettersMatch, OutboxMatches;
    if Execution.Claimable(db, j) {
      ClaimAttempts(db, j, now);
      ClaimLocks(db, j, now);
      ClaimOthers(db, j, now);
      ClaimRecords(db, j, now);
    }
  }

  // ---- Finishing, reaping, recovering, cancelling --------------------------------------------

  lemma SettledLettersMatch(db: Db, j: JobId, failure: FailureType, message: string, now: Time)
    requires LettersMatch(db.jobs, db.deadLetters) && j in db.jobs && CountFits(db.jobs[j]) && db.jobs[j].attemptCount >= 1
    ensures var job := Failure.SettledJob(db.jobs[j], failure, message, now);
      var letters := Failure.SettledLetters(db, j, failure, message, now);
      CountFits(job) && LettersMatch(db.jobs[j := job], letters)
  {
  }

  lemma SettledLeaves(db: Db, attempts: map<AttemptId, Attempt>, j: JobId, failure: FailureType, message: string, now: Time)
    requires LettersMatch(db.jobs, db.deadLetters) && j in db.jobs && CountFits(db.jobs[j]) && db.jobs[j].attemptCount >= 1
    requires db.jobs[j].tenant in db.sched
    requires attempts.Keys == db.attempts.Keys
    requires forall a :: a in db.attempts && a.job != j ==> attempts[a] == db.attempts[a]
    ensures Leaves(db, Failure.Settled(db.(attempts := attempts), j, failure, message, now), j,
                   Failure.SettledJob(db.jobs[j], failure, message, now))
  {
    SettledLettersMatch(db, j, failure, message, now);
    hide LettersMatch;
  }

  lemma FinalizedSafe(db: Db, attempts: map<AttemptId, Attempt>, j: JobId, failure: FailureType, message: string, now: Time)
    requires DbSafe(db) && j in db.jobs && db.jobs[j].attemptCount >= 1
    requires attempts.Keys == db.attempts.Keys
    requires forall a :: a in db.attempts && a.job != j ==> attempts[a] == db.attempts[a]
    ensures DbSafe(Failure.Finalized(db.(attempts := attempts), j, failure, message, now))
  {
    hide DbSafe;
    Letters(db);
    Fits(db, j);
    SettledLeaves(db, attempts, j, failure, message, now);
    ReleaseSafe(db, Failure.Settled(db.(attempts := attempts), j, failure, message, now), j,
                Failure.SettledJob(db.jobs[j], failure, message, now));
  }

  lemma SucceededLeaves(db: Db, a: AttemptId, result: string, now: Time)
    requires LettersMatch(db.jobs, db.deadLetters) && Execution.Finishable(db, a) && CountFits(db.jobs[a.job])
    requires db.jobs[a.job].attemptCount >= 1
    ensures Leaves(db, Execution.SucceededRows(db, a, result, now), a.job, Execution.SucceededJob(db.jobs[a.job], result, now))
  {
  }

  lemma AttemptIsCounted(db: Db, a: AttemptId)
    requires DbSafe(db) && a in db.attempts
    ensures a.job in db.jobs && db.jobs[a.job].attemptCount >= 1
  {
  }

  lemma CompleteSafe(db: Db, a: AttemptId, result: string, now: Time)
    requires DbSafe(db)
    ensures DbSafe(Execution.Completed(db, a, result, now))
  {
    hide DbSafe;
    if Execution.Finishable(db, a) {
      Letters(db);
      Fits(db, a.job);
      AttemptIsCounted(db, a);
      SucceededLeaves(db, a, result, now);
      ReleaseSafe(db, Execution.SucceededRows(db, a, result, now), a.job, Execution.SucceededJob(db.jobs[a.job], result, now));
    }
  }

  lemma FailServiceSafe(db: Db, a: AttemptId, message: string, failure: FailureType, now: Time)
    requires DbSafe(db)
    ensures DbSafe(Failure.AttemptFailed(db, a, message, failure, now))
  {
    hide DbSafe, Failure.Finalized;
    if Execution.Finishable(db, a) {
      AttemptIsCounted(db, a);
      var attempt := Failure.FailedAttempt(db.attempts[a], message, failure, now);
      FinalizedSafe(db, db.attempts[a := attempt], a.job, failure, message, now);
    }
  }

  lemma FailSafe(db: Db, a: AttemptId, message: string, traceback: string, failure: FailureType, now: Time)
    requires DbSafe(db)
    ensures DbSafe(Execution.Failed(db, a, message, traceback, failure, now))
  {
    hide DbSafe, Execution.FailedRows, Failure.Settled, Execution.Released;
    if Execution.Finishable(db, a) {
      AttemptIsCounted(db, a);
      Failure.FailureRowsAgree(db, a, message, traceback, failure, now);
      var attempt := Failure.FailedAttempt(db.attempts[a], message, failure, now).(traceback := Some(traceback));
      FinalizedSafe(db, db.attempts[a := attempt], a.job, failure, message, now);
    }
  }

  lemma ReapSafe(db: Db, a: AttemptId, now: Time)
    requires DbSafe(db)
    ensures DbSafe(Reconciliation.Reaped(db, a, now))
  {
    hide DbSafe, Failure.Finalized;
    if a in db.attempts && db.attempts[a].status.Running? {
      AttemptIsCounted(db, a);
      var attempt := Reconciliation.AbandonedAttempt(db.attempts[a], now);
      FinalizedSafe(db, db.attempts[a := attempt], a.job, Infrastructure, "Worker lease expired", now);
    }
  }

  lemma RefreshCounters(db: Db, tenants: set<TenantId>, now: Time)
    requires TenantsKnown(db.jobs, db.tenants, db.sched) && CountersBounded(db.tenants, db.reservations, db.sched)
    requires tenants <= db.tenants.Keys
    ensures var after := RefreshAll(db, tenants, now);
      TenantsKnown(after.jobs, after.tenants, after.sched) && CountersBounded(after.tenants, after.reservations, after.sched)
  {
    hide Held;
  }

  lemma RefreshSafe(db: Db, tenants: set<TenantId>, now: Time)
    requires DbSafe(db) && tenants <= db.tenants.Keys
    ensures DbSafe(RefreshAll(db, tenants, now))
  {
    hide TenantsKnown, SlotsMatch, LocksMatch, AttemptsMatch, CountersBounded, LettersMatch, OutboxMatches;
    RefreshCounters(db, tenants, now);
  }

  lemma RecoveredLeaves(db: Db, j: JobId, now: Time)
    requires LettersMatch(db.jobs, db.deadLetters) && j in db.jobs && db.jobs[j].status.Queued?
    requires CountFits(db.jobs[j]) && db.jobs[j].tenant in db.sched
    ensures var job := Reconciliation.RecoveredJob(db.jobs[j], now); Leaves(db, Reconciliation.RecoveredRows(db, j, now), j, job)
  {
  }

  lemma RecoveredTenants(db: Db, j: JobId, now: Time)
    requires j in db.jobs && db.jobs[j].tenant in db.sched && db.jobs[j].status.Queued?
    ensures var mid := Reconciliation.RecoveredRows(db, j, now);
      && Reconciliation.Recovered(db, j, now) == RefreshAll(Execution.Released(mid, j), {db.jobs[j].tenant}, now)
      && j in mid.jobs && mid.jobs[j].tenant == db.jobs[j].tenant && db.jobs[j].tenant in mid.sched
      && Execution.Released(mid, j).tenants == db.tenants
  {
  }

  lemma TenantOfJob(db: Db, j: JobId)
    requires DbSafe(db) && j in db.jobs
    ensures db.jobs[j].tenant in db.tenants
  {
  }

  lemma RecoverSafe(db: Db, j: JobId, now: Time)
    requires DbSafe(db)
    ensures DbSafe(Reconciliation.Recovered(db, j, now))
  {
    hide DbSafe;
    if !Execution.NoWayOut(db, j) && db.jobs[j].status.Queued? {
      Fits(db, j);
      TenantOfJob(db, j);
      Letters(db);
      RecoveredLeaves(db, j, now);
      RecoveredTenants(db, j, now);
      var mid := Reconciliation.RecoveredRows(db, j, now);
      ReleaseSafe(db, mid, j, Reconciliation.RecoveredJob(db.jobs[j], now));
      RefreshSafe(Execution.Released(mid, j), {db.jobs[j].tenant}, now);
    }
  }

  lemma CancelIsQuiet(jobs: map<JobId, Job>, tenants: map<TenantId, nat>, j: JobId, now: Time)
    requires j in jobs && !jobs[j].status.Queued?
    ensures Quiet(jobs, jobs[j := Cancellation.CancelledJob(jobs[j], now)], tenants)
  {
  }

  lemma CancelLeaves(db: Db, j: JobId, now: Time)
    requires LettersMatch(db.jobs, db.deadLetters) && j in db.jobs && db.jobs[j].status.Queued?
    requires CountFits(db.jobs[j]) && db.jobs[j].tenant in db.sched
    ensures var job := Cancellation.CancelledJob(db.jobs[j], now); Leaves(db, db.(jobs := db.jobs[j := job]), j, job)
  {
  }

  lemma CancelSafe(db: Db, j: JobId, now: Time)
    requires DbSafe(db)
    ensures DbSafe(Cancellation.CancelledBy(db, j, now))
  {
    hide DbSafe;
    if !Execution.NoWayOut(db, j) {
      var job := Cancellation.CancelledJob(db.jobs[j], now);
      Letters(db);
    Fits(db, j);
      if db.jobs[j].status.Queued? {
        CancelLeaves(db, j, now);
        ReleaseSafe(db, db.(jobs := db.jobs[j := job]), j, job);
      } else {
        CancelIsQuiet(db.jobs, db.tenants, j, now);
        QuietSafe(db, db.jobs[j := job]);
      }
    }
  }

  // ---- Everything else -----------------------------------------------------------------------

  /** The chosen job is waiting and free, and inserting its reservation never fails. */
  lemma ChoiceIsFree(db: Db, t: TenantId, rows: seq<JobId>, skipped: set<JobId>, now: Time)
    requires SlotsMatch(db.jobs, db.reservations)
    requires IsPage(rows, Dispatcher.Candidates(db, t, now, skipped), Dispatcher.CANDIDATE_LIMIT)
    ensures forall j :: j in rows ==> j in db.jobs
    ensures Dispatcher.Choice(db, t, rows).Some? ==>
      var j := Dispatcher.Choice(db, t, rows).value;
      Dispatchable(db, t, j) && j in rows && j in Dispatcher.Candidates(db, t, now, skipped) && j !in db.reservations
  {
    assert forall j :: j in rows ==> j in db.jobs;
    var r := Dispatcher.Choice(db, t, rows);
    if r.Some? {
      var i: nat :| Dispatcher.IsFirstFree(db, rows, i) && rows[i] == r.value;
      assert Dispatcher.IsFirstFree(db, rows, i);
      assert rows[i] in rows;
    }
  }

  lemma DispatchSafe(db: Db, t: TenantId, rows: seq<JobId>, skipped: set<JobId>, now: Time)
    requires DbSafe(db) && IsPage(rows, Dispatcher.Candidates(db, t, now, skipped), Dispatcher.CANDIDATE_LIMIT)
    ensures forall j :: j in rows ==> j in db.jobs
    ensures DbSafe(Dispatcher.Dispatched(db, t, rows, now))
  {
    ChoiceIsFree(db, t, rows, skipped, now);
    var r := Dispatcher.Choice(db, t, rows);
    if r.Some? {
      EnqueueSafe(db, t, r.value, now);
    }
  }

  lemma BeatAttempts(db: Db, a: AttemptId, now: Time)
    requires AttemptsMatch(db.jobs, db.attempts)
    ensures AttemptsMatch(db.jobs, Heartbeat.Beaten(db, a, now).attempts)
  {
    var after := Heartbeat.Beaten(db, a, now);
    forall i | i in after.jobs && InHand(after.jobs[i].status)
      ensures LatestRuns(i, after.jobs[i], after.attempts)
    {
      assert LatestRuns(i, db.jobs[i], db.attempts);
    }
  }

  lemma BeatSlots(db: Db, a: AttemptId, now: Time)
    requires SlotsMatch(db.jobs, db.reservations) && CountersBounded(db.tenants, db.reservations, db.sched)
    ensures var after := Heartbeat.Beaten(db, a, now);
      SlotsMatch(after.jobs, after.reservations) && CountersBounded(after.tenants, after.reservations, after.sched)
  {
    assert forall t :: Held(db.reservations, t) == Held(Heartbeat.Beaten(db, a, now).reservations, t);
  }

  lemma BeatSafe(db: Db, a: AttemptId, now: Time)
    requires DbSafe(db)
    ensures DbSafe(Heartbeat.Beaten(db, a, now))
  {
    hide TenantsKnown, SlotsMatch, LocksMatch, AttemptsMatch, CountersBounded, LettersMatch, OutboxMatches;
    BeatAttempts(db, a, now);
    BeatSlots(db, a, now);
  }

  lemma NewJobIsQuiet(jobs: map<JobId, Job>, tenants: map<TenantId, nat>, id: JobId, job: Job)
    requires id !in jobs && job.status.Waiting? && job.attemptCount == 0 && job.tenant in tenants
    ensures Quiet(jobs, jobs[id := job], tenants)
  {
  }

  lemma SubmitSafe(db: Db, id: JobId, req: Submission.Request, uuid: string, now: Time)
    requires DbSafe(db) && id !in db.jobs && req.tenant in db.tenants
    ensures DbSafe(Submission.Submitted(db, id, req, uuid, now))
  {
    hide DbSafe, Quiet, RefreshAll, Submission.KeyTaken;
    var key := Submission.KeyOf(req, uuid);
    if !Submission.KeyTaken(db, req.tenant, key) {
      NewJobIsQuiet(db.jobs, db.tenants, id, Submission.RequestedJob(req, key, now));
      QuietSafe(db, db.jobs[id := Submission.RequestedJob(req, key, now)]);
      RefreshSafe(Submission.Inserted(db, id, req, key, now), {req.tenant}, now);
    }
  }

  lemma MarkedLetterSafe(db: Db, j: JobId, letter: DeadLetter)
    requires DbSafe(db) && j in db.deadLetters
    requires letter.reason == db.deadLetters[j].reason && letter.lastAttempt == db.deadLetters[j].lastAttempt
    ensures DbSafe(db.(deadLetters := db.deadLetters[j := letter]))
  {
    assert LettersMatch(db.jobs, db.deadLetters[j := letter]);
    hide TenantsKnown, SlotsMatch, LocksMatch, AttemptsMatch, CountersBounded, LettersMatch, OutboxMatches;
  }

  lemma ReplayedRowsSafe(db: Db, j: JobId, id: JobId, key: string, now: Time)
    requires DbSafe(db) && id !in db.jobs && j in db.jobs && j in db.deadLetters
    ensures DbSafe(DeadLetters.ReplayedRows(db, j, id, key, now))
  {
    TenantOfJob(db, j);
    hide DbSafe, Quiet;
    var job := DeadLetters.CopiedJob(db.jobs[j], key, now);
    NewJobIsQuiet(db.jobs, db.tenants, id, job);
    QuietSafe(db, db.jobs[id := job]);
    MarkedLetterSafe(db.(jobs := db.jobs[id := job]), j, DeadLetters.MarkedLetter(db.deadLetters[j], id, now));
  }

  lemma ReplaySafe(db: Db, j: JobId, id: JobId, key: string, now: Time)
    requires DbSafe(db) && id !in db.jobs
    ensures DbSafe(DeadLetters.Replayed(db, j, id, key, now))
  {
    hide DbSafe;
    if !DeadLetters.ReplayRaises(db, j, key) {
      TenantOfJob(db, j);
      ReplayedRowsSafe(db, j, id, key, now);
      assert DeadLetters.ReplayedRows(db, j, id, key, now).tenants == db.tenants;
      RefreshSafe(DeadLetters.ReplayedRows(db, j, id, key, now), {db.jobs[j].tenant}, now);
    }
  }

  lemma PromotionIsQuiet(db: Db, rows: seq<JobId>, now: Time)
    requires forall j :: j in db.jobs ==> db.jobs[j].tenant in db.tenants
    requires forall j :: j in rows ==> j in db.jobs && db.jobs[j].status.RetryWait?
    ensures Quiet(db.jobs, Retry.PromotedJobs(db.jobs, rows, now), db.tenants)
    ensures Retry.TenantsOf(db.jobs, rows) <= db.tenants.Keys
  {
  }

  lemma PromoteSafe(db: Db, rows: seq<JobId>, skipped: set<JobId>, limit: nat, now: Time)
    requires DbSafe(db) && IsPage(rows, Retry.DueRetries(db, now, skipped), limit)
    ensures DbSafe(Retry.Promoted(db, rows, now))
  {
    forall j | j in db.jobs ensures db.jobs[j].tenant in db.tenants { TenantOfJob(db, j); }
    Retry.DueRows(db, rows, skipped, limit, now);
    hide DbSafe, Quiet, RefreshAll, IsPage, Retry.DueRetries, Retry.PromotedJobs;
    var promoted := Retry.PromotedJobs(db.jobs, rows, now);
    PromotionIsQuiet(db, rows, now);
    QuietSafe(db, promoted);
    RefreshSafe(db.(jobs := promoted), Retry.TenantsOf(db.jobs, rows), now);
  }

  lemma PublishOutbox(db: Db, e: nat, delivery: Outbox.Delivery, now: Time)
    requires OutboxMatches(db.jobs, db.outbox)
    ensures OutboxMatches(db.jobs, Outbox.PublishedOne(db, e, delivery, now).outbox)
  {
  }

  lemma PublishSafe(db: Db, e: nat, delivery: Outbox.Delivery, now: Time)
    requires DbSafe(db)
    ensures DbSafe(Outbox.PublishedOne(db, e, delivery, now))
  {
    hide TenantsKnown, SlotsMatch, LocksMatch, AttemptsMatch, CountersBounded, LettersMatch, OutboxMatches;
    PublishOutbox(db, e, delivery, now);
  }

  lemma StepSafe(w: World, s: Step)
    requires DbSafe(w.db) && Legal(w, s, false)
    ensures DbSafe(Apply(w.db, s))
  {
    hide DbSafe, IsPage;
    match s.action {
      case Submit(id, req, uuid) => SubmitSafe(w.db, id, req, uuid, s.now);
      case Dispatch(t, rows, skipped) => DispatchSafe(w.db, t, rows, skipped, s.now);
      case Publish(e, delivery) => PublishSafe(w.db, e, delivery, s.now);
      case Claim(message) => ClaimSafe(w.db, w.db.outbox[message].job, s.now);
      case Beat(a) => BeatSafe(w.db, a, s.now);
      case Complete(a, result) => CompleteSafe(w.db, a, result, s.now);
      case Fail(a, message, traceback, failure) => FailSafe(w.db, a, message, traceback, failure, s.now);
      case FailService(a, message, failure) => FailServiceSafe(w.db, a, message, failure, s.now);
      case Reap(a) => ReapSafe(w.db, a, s.now);
      case Recover(j) => RecoverSafe(w.db, j, s.now);
      case Promote(rows, skipped, limit) => PromoteSafe(w.db, rows, skipped, limit, s.now);
      case Cancel(j) => CancelSafe(w.db, j, s.now);
      case Replay(letter, id, key) => ReplaySafe(w.db, letter, id, key, s.now);
      case Refresh(t) => RefreshSafe(w.db, {t}, s.now);
    }
  }
}
