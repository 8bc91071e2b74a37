/** A run in which a queued job has an attempt that still runs, and what that does to its reservation. */
module StaleAttempts {
  import opened Tables
  import opened Protocol
  import opened Safety
  import opened Scenarios
  import Cache
  import Dispatcher
  import Effects
  import Execution
  import Outbox
  import Reaper
  import Reconciliation
  import Retry
  import SchedulerState
  import Stabilisation
  import UndeclaredChanges

  const SECOND_ATTEMPT := AttemptId(0, 2)

  /** Job 0 is the only job, and this is how it stands. */
  ghost predicate Lone(db: Db, status: JobStatus, count: nat, due: Time) {
    && db.tenants == TENANTS && db.jobs.Keys == {0} && 0 in db.sched
    && var job := db.jobs[0];
    && job.tenant == 0 && job.payload.overlapKey == "" && job.status == status && job.attemptCount == count && job.availableAt == due
  }

  /** A reachable world in which job 0 stands so. */
  ghost predicate LoneAt(w: World, status: JobStatus, count: nat, due: Time, time: Time) {
    DbSafe(w.db) && w.clock == time && Lone(w.db, status, count, due)
  }

  lemma LoneRow(db: Db, status: JobStatus, count: nat, due: Time)
    requires Lone(db, status, count, due)
    ensures 0 in db.jobs && 0 in db.sched && db.jobs[0].tenant == 0 && db.jobs[0].payload.overlapKey == ""
    ensures db.jobs[0].status == status && db.jobs[0].attemptCount == count && db.jobs[0].availableAt == due
  {
  }

  lemma LoneKeys(db: Db, status: JobStatus, count: nat, due: Time)
    requires Lone(db, status, count, due)
    ensures db.jobs.Keys == {0}
  {
  }

  lemma StaysSafe(w: World, s: Step)
    requires DbSafe(w.db) && Legal(w, s, false)
    ensures DbSafe(Exec(w, s).db) && Exec(w, s).clock == s.now
  {
    StepSafe(w, s);
  }

  // ---- The steps, one by one -----------------------------------------------------------------

  lemma OnlyRetry(db: Db, now: Time)
    requires db.jobs.Keys == {0} && db.jobs[0].status == RetryWait && db.jobs[0].availableAt <= now
    ensures IsPage([0], Retry.DueRetries(db, now, {}), 100)
  {
    var pool := Retry.DueRetries(db, now, {});
    assert pool.Keys == {0} && |pool| == |pool.Keys|;
  }

  lemma ReadyAtOnce(db: Db, now: Time)
    requires 0 in db.jobs && db.jobs[0].tenant == 0 && db.jobs[0].status == Waiting && db.jobs[0].availableAt <= now
    requires Cache.CacheExact(db, 0, now)
    ensures 0 in db.sched && db.sched[0].hasReady
  {
    assert 0 in SchedulerState.ReadyJobs(db, 0, now);
  }

  lemma OneTenant(jobs: map<JobId, Job>)
    requires jobs.Keys == {0} && jobs[0].tenant == 0
    ensures Retry.TenantsOf(jobs, [0]) == {0}
  {
  }

  lemma PromotedLone(db: Db, count: nat, due: Time, now: Time)
    requires Lone(db, RetryWait, count, due) && due <= now
    ensures var after := Retry.Promoted(db, [0], now);
      && Lone(after, Waiting, count, due) && after.sched[0].hasReady
      && after == db.(jobs := after.jobs, sched := after.sched)
  {
    Effects.PromoteLeaves(db, [0], now, 0);
    OneTenant(db.jobs);
    hide SchedulerState.RefreshedRow, Cache.CacheExact, Retry.TenantsOf;
    Cache.RefreshIsExact(db.(jobs := Retry.PromotedJobs(db.jobs, [0], now)), {0}, 0, now);
    hide Retry.PromotedJobs;
    ReadyAtOnce(Retry.Promoted(db, [0], now), now);
  }

  lemma PromoteLone(w: World, count: nat, due: Time, time: Time, now: Time)
    requires LoneAt(w, RetryWait, count, due, time) && time <= now && due <= now
    ensures var s := Step(Promote([0], {}, 100), now);
      var after := Exec(w, s);
      && Legal(w, s, true) && Listed(w.db, s) && LoneAt(after, Waiting, count, due, now)
      && 0 in after.db.sched && after.db.sched[0].hasReady
      && after.db.attempts == w.db.attempts && after.db.outbox == w.db.outbox && after.sent == w.sent
  {
    OnlyRetry(w.db, now);
    PromotedLone(w.db, count, due, now);
    hide IsPage, Retry.Promoted, DbSafe, Retry.DueRetries;
    StaysSafe(w, Step(Promote([0], {}, 100), now));
  }

  lemma NoSlotTaken(db: Db)
    requires DbSafe(db) && db.jobs.Keys == {0} && db.jobs[0].status == Waiting && 0 in db.sched
    ensures 0 !in db.reservations && db.sched[0].active == 0
  {
    assert Held(db.reservations, 0) == {};
  }

  lemma OnlyOne(db: Db, now: Time)
    requires db.jobs.Keys == {0} && db.jobs[0].tenant == 0 && db.jobs[0].status == Waiting && db.jobs[0].availableAt <= now
    ensures IsPage([0], Dispatcher.Candidates(db, 0, now, {}), Dispatcher.CANDIDATE_LIMIT)
  {
    var pool := Dispatcher.Candidates(db, 0, now, {});
    assert pool.Keys == {0} && |pool| == |pool.Keys|;
  }

  lemma DispatchedLone(db: Db, count: nat, due: Time, now: Time)
    requires Lone(db, Waiting, count, due) && 0 !in db.reservations && db.sched[0].active == 0
    ensures var after := Dispatcher.Dispatched(db, 0, [0], now);
      && Lone(after, Queued, count, due)
      && after.attempts == db.attempts && after.outbox == db.outbox + [OutboxRow(0, Pending, now, None, 0, None)]
      && after.jobs[0].queuedAt == Some(now)
      && 0 in after.reservations && after.reservations[0].expiresAt == now + 300 * SECOND
  {
    OnlyChoice(db, 0, now);
    hide Dispatcher.Dispatched, Dispatcher.LocksWith;
  }

  lemma DispatchLone(w: World, count: nat, due: Time, time: Time, now: Time)
    requires LoneAt(w, Waiting, count, due, time) && time <= now && due <= now && 0 in w.db.sched && w.db.sched[0].hasReady
    ensures var s := Step(Dispatch(0, [0], {}), now);
      var after := Exec(w, s);
      && Legal(w, s, true) && Listed(w.db, s) && LoneAt(after, Queued, count, due, now)
      && after.db.attempts == w.db.attempts && after.db.outbox == w.db.outbox + [OutboxRow(0, Pending, now, None, 0, None)]
      && 0 in after.db.jobs && after.db.jobs[0].queuedAt == Some(now)
      && 0 in after.db.reservations && after.db.reservations[0].expiresAt == now + 300 * SECOND
  {
    hide DbSafe, Lone, IsPage, Dispatcher.Dispatched, Dispatcher.Candidates;
    LoneKeys(w.db, Waiting, count, due);
    LoneRow(w.db, Waiting, count, due);
    NoSlotTaken(w.db);
    OnlyOne(w.db, now);
    DispatchedLone(w.db, count, due, now);
    LoneRow(Dispatcher.Dispatched(w.db, 0, [0], now), Queued, count, due);
    StaysSafe(w, Step(Dispatch(0, [0], {}), now));
  }

  lemma PublishLone(w: World, count: nat, due: Time, time: Time, e: nat)
    requires LoneAt(w, Queued, count, due, time) && e < |w.db.outbox| && w.db.outbox[e] == OutboxRow(0, Pending, time, None, 0, None)
    ensures var s := Step(Publish(e, Outbox.Accepted), time);
      var after := Exec(w, s);
      && Legal(w, s, true) && Listed(w.db, s) && LoneAt(after, Queued, count, due, time) && e in after.sent
      && e < |after.db.outbox| && after.db.outbox[e].job == 0 && after.db.attempts == w.db.attempts
  {
    hide DbSafe;
    StaysSafe(w, Step(Publish(e, Outbox.Accepted), time));
  }

  lemma ClaimedLone(db: Db, count: nat, due: Time, now: Time)
    requires Lone(db, Queued, count, due) && AttemptId(0, count + 1) !in db.attempts
    ensures var after := Execution.Claimed(db, 0, now);
      Lone(after, Executing, count + 1, due) && after.attempts == db.attempts[AttemptId(0, count + 1) := Execution.StartedAttempt(now)]
  {
  }

  lemma ClaimLone(w: World, count: nat, due: Time, time: Time, e: nat)
    requires LoneAt(w, Queued, count, due, time) && e in w.sent && e < |w.db.outbox| && w.db.outbox[e].job == 0
    ensures var s := Step(Claim(e), time);
      var after := Exec(w, s);
      && Legal(w, s, true) && Listed(w.db, s) && LoneAt(after, Executing, count + 1, due, time)
      && after.db.attempts == w.db.attempts[AttemptId(0, count + 1) := Execution.StartedAttempt(time)]
  {
    hide DbSafe, Lone, Execution.Claimed;
    LoneRow(w.db, Queued, count, due);
    Slots(w.db);
    NextAttemptIsNew(w.db, 0);
    ClaimedLone(w.db, count, due, time);
    StaysSafe(w, Step(Claim(e), time));
  }

  lemma FailedLone(db: Db, due: Time, now: Time)
    requires Lone(db, Executing, 2, due) && FIRST_ATTEMPT in db.attempts
    ensures var after := Execution.Failed(db, FIRST_ATTEMPT, "", "", Transient, now);
      && Lone(after, RetryWait, 2, now + 5 * SECOND)
      && after.attempts == db.attempts[FIRST_ATTEMPT := after.attempts[FIRST_ATTEMPT]]
      && after.attempts[FIRST_ATTEMPT].status == AttemptStatus.Failed
  {
    LoneRow(db, Executing, 2, due);
    Effects.FailLeaves(db, FIRST_ATTEMPT, "", "", Transient, now);
    hide Execution.Failed;
  }

  /** The first worker, given up long ago, reports a failure while the second one works. */
  lemma FailLone(w: World, due: Time, time: Time)
    requires LoneAt(w, Executing, 2, due, time) && FIRST_ATTEMPT in w.db.attempts
    ensures var s := Step(Fail(FIRST_ATTEMPT, "", "", Transient), time);
      var after := Exec(w, s);
      && Legal(w, s, false) && Listed(w.db, s) && LoneAt(after, RetryWait, 2, time + 5 * SECOND, time)
      && FIRST_ATTEMPT in after.db.attempts
      && after.db.attempts == w.db.attempts[FIRST_ATTEMPT := after.db.attempts[FIRST_ATTEMPT]]
      && after.db.attempts[FIRST_ATTEMPT].status == AttemptStatus.Failed
  {
    hide DbSafe, Lone, Execution.Failed;
    FailedLone(w.db, due, time);
    StaysSafe(w, Step(Fail(FIRST_ATTEMPT, "", "", Transient), time));
  }

  // ---- The run -------------------------------------------------------------------------------

  /** The first retry is due, its attempt reported as failed, and the second retry is due. */
  const RETRIED: Time := LATE + 3 * SECOND
  const QUEUED_AGAIN: Time := RETRIED + 5 * SECOND

  lemma GivenUpIsLone(w: World)
    requires Stage(w, 1, {}, {}, 0, LATE) && DbSafe(w.db) && 0 in w.db.jobs
    requires w.db.jobs[0].status == RetryWait && w.db.jobs[0].attemptCount == 1 && w.db.jobs[0].availableAt == RETRIED
    ensures LoneAt(w, RetryWait, 1, RETRIED, LATE)
  {
    hide DbSafe;
    assert PlainJob(0, w.db.jobs[0], {});
  }

  /** The job is queued, and its second attempt, claimed at `RETRIED`, is the one that runs. */
  ghost predicate Stale(w: World) {
    && LoneAt(w, Queued, 2, QUEUED_AGAIN, QUEUED_AGAIN)
    && FIRST_ATTEMPT in w.db.attempts && w.db.attempts[FIRST_ATTEMPT].status == AttemptStatus.Failed
    && SECOND_ATTEMPT in w.db.attempts && w.db.attempts[SECOND_ATTEMPT] == Execution.StartedAttempt(RETRIED)
    && w.db.jobs[0].queuedAt == Some(QUEUED_AGAIN)
    && 0 in w.db.reservations && w.db.reservations[0].expiresAt == QUEUED_AGAIN + 300 * SECOND
  }

  /** The job is claimed a second time while the worker of its first attempt is still out there. */
  lemma ClaimedAgain() returns (steps: seq<Step>)
    ensures IsScenario(steps, true)
    ensures var w := After(Start(), steps);
      && LoneAt(w, Executing, 2, RETRIED, RETRIED) && FIRST_ATTEMPT in w.db.attempts
      && SECOND_ATTEMPT in w.db.attempts && w.db.attempts[SECOND_ATTEMPT] == Execution.StartedAttempt(RETRIED)
  {
    hide Stage, Legal, Exec, After, IsScenario, Listed, LoneAt, DbSafe, Stale, Execution.StartedAttempt;
    steps := FirstJobGivenUp();
    UndeclaredChanges.ScenarioIsSafe(steps, true);
    GivenUpIsLone(After(Start(), steps));
    var e := |After(Start(), steps).db.outbox|;

    PromoteLone(After(Start(), steps), 1, RETRIED, LATE, RETRIED);
    Extend(steps, Step(Promote([0], {}, 100), RETRIED), true);
    steps := steps + [Step(Promote([0], {}, 100), RETRIED)];
    DispatchLone(After(Start(), steps), 1, RETRIED, RETRIED, RETRIED);
    Extend(steps, Step(Dispatch(0, [0], {}), RETRIED), true);
    steps := steps + [Step(Dispatch(0, [0], {}), RETRIED)];
    PublishLone(After(Start(), steps), 1, RETRIED, RETRIED, e);
    Extend(steps, Step(Publish(e, Outbox.Accepted), RETRIED), true);
    steps := steps + [Step(Publish(e, Outbox.Accepted), RETRIED)];
    ClaimLone(After(Start(), steps), 1, RETRIED, RETRIED, e);
    Extend(steps, Step(Claim(e), RETRIED), true);
    steps := steps + [Step(Claim(e), RETRIED)];
  }

  /** The first worker then reports a failure, so that the job is retried once more, and queued, while its
    * second attempt runs on.
    */
  lemma QueuedWhileRunning() returns (steps: seq<Step>)
    ensures IsScenario(steps, false) && Stale(After(Start(), steps))
  {
    hide Stage, Legal, Exec, After, IsScenario, Listed, LoneAt, DbSafe, Stale, Execution.StartedAttempt;
    steps := ClaimedAgain();
    LiveIsScenario(steps);
    var late, promote, dispatch := Step(Fail(FIRST_ATTEMPT, "", "", Transient), RETRIED),
      Step(Promote([0], {}, 100), QUEUED_AGAIN), Step(Dispatch(0, [0], {}), QUEUED_AGAIN);
    FailLone(After(Start(), steps), RETRIED, RETRIED);
    Extend(steps, late, false);
    steps := steps + [late];
    PromoteLone(After(Start(), steps), 2, QUEUED_AGAIN, RETRIED, QUEUED_AGAIN);
    LiveOrNot(After(Start(), steps), promote, false);
    Extend(steps, promote, false);
    steps := steps + [promote];
    DispatchLone(After(Start(), steps), 2, QUEUED_AGAIN, QUEUED_AGAIN, QUEUED_AGAIN);
    LiveOrNot(After(Start(), steps), dispatch, false);
    Extend(steps, dispatch, false);
    steps := steps + [dispatch];
    IsStale(After(Start(), steps));
  }

  lemma IsStale(w: World)
    requires LoneAt(w, Queued, 2, QUEUED_AGAIN, QUEUED_AGAIN)
    requires FIRST_ATTEMPT in w.db.attempts && w.db.attempts[FIRST_ATTEMPT].status == AttemptStatus.Failed
    requires SECOND_ATTEMPT in w.db.attempts && w.db.attempts[SECOND_ATTEMPT] == Execution.StartedAttempt(RETRIED)
    requires 0 in w.db.jobs && w.db.jobs[0].queuedAt == Some(QUEUED_AGAIN)
    requires 0 in w.db.reservations && w.db.reservations[0].expiresAt == QUEUED_AGAIN + 300 * SECOND
    ensures Stale(w)
  {
  }

  // ---- What it leads to ----------------------------------------------------------------------

  const OVER: Time := RETRIED + 300 * SECOND + 1

  lemma StalePass(w: World)
    requires Stale(w)
    ensures Reconciliation.PassRows(w.db, [SECOND_ATTEMPT], [], 100, OVER)
    ensures var after := Reconciliation.Reconciled(w.db, [SECOND_ATTEMPT], [], OVER).db;
      0 in after.jobs && after.jobs[0].status != Queued
  {
    OnlySecondOver(w.db);
    Reaper.ListedAttempts(w.db, [SECOND_ATTEMPT], 100, OVER);
    hide DbSafe, Reconciliation.ExpiredAttempts, Reconciliation.ReapedAll, IsPage;
    Reaper.ReapedAllJob(w.db, [SECOND_ATTEMPT], OVER, 0);
    Stabilisation.ReapedAllEffect(w.db, [SECOND_ATTEMPT], OVER);
    assert SECOND_ATTEMPT in [SECOND_ATTEMPT] && Reaper.AttemptOf([SECOND_ATTEMPT], 0);
    var mid := Reconciliation.ReapedAll(w.db, [SECOND_ATTEMPT], OVER).db;
    NoneQueued(w.db, mid);
  }

  lemma OnlyTwoAttempts(db: Db)
    requires DbSafe(db) && Lone(db, Queued, 2, QUEUED_AGAIN)
    ensures forall a :: a in db.attempts ==> a == FIRST_ATTEMPT || a == SECOND_ATTEMPT
  {
  }

  lemma OnlySecondOver(db: Db)
    requires DbSafe(db) && Lone(db, Queued, 2, QUEUED_AGAIN)
    requires FIRST_ATTEMPT in db.attempts && db.attempts[FIRST_ATTEMPT].status == AttemptStatus.Failed
    requires SECOND_ATTEMPT in db.attempts && db.attempts[SECOND_ATTEMPT] == Execution.StartedAttempt(RETRIED)
    ensures IsPage([SECOND_ATTEMPT], Reconciliation.ExpiredAttempts(db, OVER), 100)
  {
    hide DbSafe, Lone;
    OnlyTwoAttempts(db);
    var pool := Reconciliation.ExpiredAttempts(db, OVER);
    assert pool.Keys == {SECOND_ATTEMPT} && |pool| == |pool.Keys|;
  }

  lemma NoneQueued(db: Db, mid: Db)
    requires Stabilisation.Narrower(db, mid) && db.jobs.Keys == {0}
    requires 0 in mid.jobs && mid.jobs[0].status != Queued
    ensures IsPage([], Reconciliation.ExpiredQueued(mid, OVER), 100)
  {
    forall j
      ensures j !in Reconciliation.ExpiredQueued(mid, OVER)
    {
      assert j in Reconciliation.ExpiredQueued(mid, OVER) ==> j in Stabilisation.QueuedSet(mid) && j in Stabilisation.QueuedSet(db);
    }
    assert Reconciliation.ExpiredQueued(mid, OVER) == map[];
  }

  /** In a run with a late worker a pass can fail a job that was queued less than 300 seconds ago and whose
    * reservation is not over: the lease of an attempt that still runs is.
    */
  lemma FreshlyQueuedCanFail() returns (steps: seq<Step>)
    ensures IsScenario(steps, false)
    ensures var db := After(Start(), steps).db;
      && 0 in db.jobs && db.jobs[0].status == Queued && db.jobs[0].queuedAt.Some?
      && OVER < db.jobs[0].queuedAt.value + 300 * SECOND
      && 0 in db.reservations && OVER < db.reservations[0].expiresAt
      && Reconciliation.PassRows(db, [SECOND_ATTEMPT], [], 100, OVER)
      && var after := Reconciliation.Reconciled(db, [SECOND_ATTEMPT], [], OVER).db;
      && 0 in after.jobs && after.jobs[0].status != Queued
  {
    hide After, IsScenario, Reconciliation.PassRows, Reconciliation.Reconciled, DbSafe;
    steps := QueuedWhileRunning();
    StalePass(After(Start(), steps));
  }

  /** In such a run the reservation of a queued job can also outlast the 300 seconds from its dispatch: the
    * attempt that still runs renews it with its heartbeat.
    */
  lemma QueuedSlotCanBeRenewed() returns (steps: seq<Step>)
    ensures IsScenario(steps, false)
    ensures var db := After(Start(), steps).db;
      && 0 in db.jobs && db.jobs[0].status == Queued && db.jobs[0].queuedAt.Some?
      && 0 in db.reservations && db.jobs[0].queuedAt.value + 300 * SECOND < db.reservations[0].expiresAt
  {
    hide Stage, Legal, Exec, After, IsScenario, Listed, Stale, DbSafe;
    steps := QueuedWhileRunning();
    var beat := Step(Beat(SECOND_ATTEMPT), QUEUED_AGAIN + SECOND);
    StaleBeat(After(Start(), steps), beat.now);
    Extend(steps, beat, false);
    steps := steps + [beat];
  }

  lemma StaleBeat(w: World, now: Time)
    requires Stale(w) && now == QUEUED_AGAIN + SECOND
    ensures var s := Step(Beat(SECOND_ATTEMPT), now);
      var db := Exec(w, s).db;
      && Legal(w, s, false) && Listed(w.db, s)
      && 0 in db.jobs && db.jobs[0].status == Queued && db.jobs[0].queuedAt.Some?
      && 0 in db.reservations && db.jobs[0].queuedAt.value + 300 * SECOND < db.reservations[0].expiresAt
  {
    hide DbSafe;
  }
}
