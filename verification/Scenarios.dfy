/** Example runs, taken as the platform's processes would take them. */
module Scenarios {
  import opened Tables
  import opened Protocol
  import Capacity
  import Dispatcher
  import Effects
  import Execution
  import Outbox
  import Reconciliation
  import Runs
  import SchedulerState
  import Submission

  const TENANTS: map<TenantId, nat> := map[0 := 2]
  const FIRST_ATTEMPT := AttemptId(0, 1)

  ghost function Start(): World {
    Initial(TENANTS, 0)
  }

  /** The periodic task that takes this step would take it now: the reaper finds the row in its queries, the
    * publisher finds the event in its own, and the scheduler sees that the tenant has ready work.
    */
  ghost predicate Listed(db: Db, s: Step) {
    match s.action
    case Reap(a) => a in Reconciliation.ExpiredAttempts(db, s.now)
    case Recover(j) => j in Reconciliation.ExpiredQueued(db, s.now)
    case Publish(e, _) => e in Outbox.PendingEvents(db, s.now)
    case Dispatch(t, _, _) => t in db.sched && db.sched[t].hasReady
    case _ => true
  }

  /** A run from the start in which every process acts only on what its query lists. */
  ghost predicate IsScenario(steps: seq<Step>, live: bool) {
    IsRun(Start(), steps, live) && AllListed(steps)
  }

  ghost predicate AllListed(steps: seq<Step>) {
    steps == [] || (AllListed(steps[..|steps| - 1]) && Listed(After(Start(), steps[..|steps| - 1]).db, steps[|steps| - 1]))
  }

  /** A scenario grows by a step. */
  lemma Extend(steps: seq<Step>, s: Step, live: bool)
    requires IsScenario(steps, live) && Legal(After(Start(), steps), s, live) && Listed(After(Start(), steps).db, s)
    ensures IsScenario(steps + [s], live) && After(Start(), steps + [s]) == Exec(After(Start(), steps), s)
  {
    assert (steps + [s])[..|steps|] == steps;
  }

  /** Without the restriction to live runs, a live scenario is a scenario. */
  lemma LiveOrNot(w: World, s: Step, live: bool)
    requires Legal(w, s, true)
    ensures Legal(w, s, live)
  {
  }

  lemma LiveIsScenario(steps: seq<Step>)
    requires IsScenario(steps, true)
    ensures IsScenario(steps, false)
  {
    Runs.LiveRunIsRun(Start(), steps);
  }

  // ---- The rows of the examples --------------------------------------------------------------

  /** Job `n` asks for nothing but a slot, at once, under a key of its own. */
  function Asks(n: nat): Action {
    Submit(n, Submission.Request(0, "REPORTS", Payload("", ""), 3, "", Some(0)), seq(n + 1, _ => 'k'))
  }

  predicate PlainJob(j: JobId, job: Job, waiting: set<JobId>) {
    && job.tenant == 0 && job.payload.overlapKey == "" && |job.key| == j + 1
    && (job.status.Waiting? <==> j in waiting) && (job.status.Waiting? ==> job.availableAt <= 0)
    && (job.status.Waiting? || job.status.Queued? ==> job.attemptCount == 0)
  }

  /** Jobs 0 to n-1 exist, and of these `waiting` wait. */
  ghost predicate JobsAre(jobs: map<JobId, Job>, n: nat, waiting: set<JobId>) {
    (forall j: JobId :: j in jobs <==> j < n) && (forall j :: j in jobs ==> PlainJob(j, jobs[j], waiting))
  }

  /** The jobs in `held` have a reservation, and the counter says `active`. */
  ghost predicate SlotsAre(db: Db, held: set<JobId>, active: nat) {
    && db.reservations.Keys == held && (forall j :: j in db.reservations ==> db.reservations[j].tenant == 0)
    && Capacity.Counter(db.sched, 0) == active && db.tenants == TENANTS
  }

  ghost predicate RowsAre(db: Db, n: nat, waiting: set<JobId>, held: set<JobId>, active: nat) {
    JobsAre(db.jobs, n, waiting) && SlotsAre(db, held, active) && (n > 0 ==> 0 in db.sched)
  }

  /** A world of the examples; what a step may still change is said by its own lemma. */
  ghost predicate Stage(w: World, n: nat, waiting: set<JobId>, held: set<JobId>, active: nat, time: Time) {
    RowsAre(w.db, n, waiting, held, active) && w.clock == time && 0 <= time
  }

  // ---- A job is submitted and dispatched -----------------------------------------------------

  lemma KeyIsFree(db: Db, n: nat)
    requires JobsAre(db.jobs, n, {})
    ensures !Submission.KeyTaken(db, 0, Asks(n).uuid)
  {
    forall j | j in db.jobs
      ensures !Submission.HasKey(db, j, 0, Asks(n).uuid)
    {
      assert PlainJob(j, db.jobs[j], {});
      assert |Asks(n).uuid| == n + 1;
    }
  }

  lemma SubmittedJob(db: Db, n: nat, now: Time)
    requires JobsAre(db.jobs, n, {})
    ensures var after := Submission.Submitted(db, n, Asks(n).req, Asks(n).uuid, now);
      && after.jobs == db.jobs[n := Submission.RequestedJob(Asks(n).req, Asks(n).uuid, now)]
      && after == db.(jobs := after.jobs, sched := after.sched)
      && 0 in after.sched && Capacity.Counter(after.sched, 0) == Capacity.Counter(db.sched, 0)
      && after.sched[0].hasReady == (SchedulerState.ReadyJobs(after, 0, now) != {})
  {
    KeyIsFree(db, n);
    var after := Submission.Submitted(db, n, Asks(n).req, Asks(n).uuid, now);
    assert SchedulerState.ReadyJobs(after, 0, now) == SchedulerState.ReadyJobs(db.(jobs := after.jobs), 0, now);
    hide JobsAre, Submission.KeyTaken, SchedulerState.WaitingJobs, SchedulerState.ReadyJobs, SchedulerState.Priorities,
      SchedulerState.AvailableTimes;
  }

  lemma SubmittedRows(db: Db, n: nat, held: set<JobId>, active: nat, now: Time)
    requires RowsAre(db, n, {}, held, active) && 0 <= now
    ensures var after := Submission.Submitted(db, n, Asks(n).req, Asks(n).uuid, now);
      RowsAre(after, n + 1, {n}, held, active) && after.sched[0].hasReady
  {
    SubmittedJob(db, n, now);
    hide Submission.Submitted;
    assert PlainJob(n, Submission.RequestedJob(Asks(n).req, Asks(n).uuid, now), {n});
    assert n in SchedulerState.ReadyJobs(Submission.Submitted(db, n, Asks(n).req, Asks(n).uuid, now), 0, now);
  }

  lemma SubmitStage(w: World, n: nat, held: set<JobId>, active: nat, time: Time, now: Time)
    requires Stage(w, n, {}, held, active, time) && time <= now
    ensures var s := Step(Asks(n), now);
      && Legal(w, s, true) && Listed(w.db, s) && Stage(Exec(w, s), n + 1, {n}, held, active, now)
      && Exec(w, s).db.outbox == w.db.outbox && Exec(w, s).db.attempts == w.db.attempts && Exec(w, s).sent == w.sent
      && Exec(w, s).db.sched[0].hasReady
  {
    SubmittedJob(w.db, n, now);
    SubmittedRows(w.db, n, held, active, now);
    hide Submission.Submitted, PlainJob;
  }

  lemma OnlyCandidate(db: Db, n: nat, j: JobId, now: Time)
    requires JobsAre(db.jobs, n, {j}) && j < n && 0 <= now
    ensures IsPage([j], Dispatcher.Candidates(db, 0, now, {}), Dispatcher.CANDIDATE_LIMIT)
  {
    var pool := Dispatcher.Candidates(db, 0, now, {});
    assert PlainJob(j, db.jobs[j], {j});
    assert pool.Keys == {j};
    assert |pool| == |pool.Keys| == 1;
  }

  lemma OnlyChoice(db: Db, j: JobId, now: Time)
    requires j in db.jobs && db.jobs[j].payload.overlapKey == "" && Dispatcher.HasCapacity(db, 0) && j !in db.reservations
    ensures Dispatcher.Dispatched(db, 0, [j], now) == Dispatcher.Enqueued(db, 0, j, now)
  {
    hide Dispatcher.Enqueued;
    assert Dispatcher.Free(db, [j][0]);
  }

  lemma EnqueuedRows(db: Db, n: nat, j: JobId, held: set<JobId>, active: nat, now: Time)
    requires RowsAre(db, n, {j}, held, active) && j < n && j !in held
    ensures RowsAre(Dispatcher.Enqueued(db, 0, j, now), n, {}, held + {j}, active + 1)
  {
    assert PlainJob(j, db.jobs[j], {j});
  }

  lemma DispatchedRows(db: Db, n: nat, j: JobId, held: set<JobId>, active: nat, now: Time)
    requires RowsAre(db, n, {j}, held, active) && j < n && j !in held && active < 2
    ensures j in db.jobs && 0 in db.sched
    ensures Dispatcher.Dispatched(db, 0, [j], now) == Dispatcher.Enqueued(db, 0, j, now)
  {
    hide Dispatcher.Dispatched, Dispatcher.Enqueued;
    assert PlainJob(j, db.jobs[j], {j});
    OnlyChoice(db, j, now);
  }

  lemma DispatchStage(w: World, n: nat, j: JobId, held: set<JobId>, active: nat, time: Time, now: Time)
    requires Stage(w, n, {j}, held, active, time) && time <= now && j < n && j !in held && active < 2
    requires 0 in w.db.sched && w.db.sched[0].hasReady
    ensures var s := Step(Dispatch(0, [j], {}), now);
      && Legal(w, s, true) && Listed(w.db, s) && Stage(Exec(w, s), n, {}, held + {j}, active + 1, now)
      && Exec(w, s).db.outbox == w.db.outbox + [OutboxRow(j, Pending, now, None, 0, None)]
      && Exec(w, s).db.attempts == w.db.attempts && Exec(w, s).sent == w.sent
      && j in Exec(w, s).db.jobs && Exec(w, s).db.jobs[j].status.Queued?
  {
    hide RowsAre, IsPage, Dispatcher.Dispatched, Dispatcher.Candidates;
    RowsOf(w.db, n, {j}, held, active);
    OnlyCandidate(w.db, n, j, now);
    DispatchedRows(w.db, n, j, held, active, now);
    EnqueuedRows(w.db, n, j, held, active, now);
    hide JobsAre;
  }

  lemma RowsOf(db: Db, n: nat, waiting: set<JobId>, held: set<JobId>, active: nat)
    requires RowsAre(db, n, waiting, held, active)
    ensures JobsAre(db.jobs, n, waiting)
  {
  }

  /** The next job is submitted and given a slot. */
  lemma NextJob(steps: seq<Step>, live: bool, n: nat, held: set<JobId>, active: nat, time: Time, now: Time)
    returns (more: seq<Step>)
    requires IsScenario(steps, live) && Stage(After(Start(), steps), n, {}, held, active, time)
    requires time <= now && n !in held && active < 2
    ensures IsScenario(more, live) && Stage(After(Start(), more), n + 1, {}, held + {n}, active + 1, now)
    ensures var before, after := After(Start(), steps), After(Start(), more);
      && after.db.outbox == before.db.outbox + [OutboxRow(n, Pending, now, None, 0, None)]
      && after.db.attempts == before.db.attempts && after.sent == before.sent
      && n in after.db.jobs && after.db.jobs[n].status.Queued?
  {
    hide Stage, Legal, Exec, After, IsScenario, Listed;
    var w := After(Start(), steps);
    var submit, dispatch := Step(Asks(n), now), Step(Dispatch(0, [n], {}), now);
    SubmitStage(w, n, held, active, time, now);
    LiveOrNot(w, submit, live);
    Extend(steps, submit, live);
    more := steps + [submit];
    StageHasRow(After(Start(), more), n + 1, {n}, held, active, now);
    DispatchStage(After(Start(), more), n + 1, n, held, active, now, now);
    LiveOrNot(After(Start(), more), dispatch, live);
    Extend(more, dispatch, live);
    more := more + [dispatch];
  }

  lemma StageHasRow(w: World, n: nat, waiting: set<JobId>, held: set<JobId>, active: nat, time: Time)
    requires Stage(w, n, waiting, held, active, time) && n > 0
    ensures 0 in w.db.sched
  {
  }

  // ---- The first job: queued, claimed, given up -----------------------------------------------

  lemma Begins()
    ensures IsScenario([], true) && After(Start(), []) == Start() && Stage(Start(), 0, {}, {}, 0, 0)
  {
  }

  lemma PublishStage(w: World, held: set<JobId>, active: nat)
    requires Stage(w, 1, {}, held, active, 0) && w.db.outbox == [OutboxRow(0, Pending, 0, None, 0, None)]
    ensures var s := Step(Publish(0, Outbox.Accepted), 0);
      && Legal(w, s, true) && Listed(w.db, s) && Stage(Exec(w, s), 1, {}, held, active, 0) && 0 in Exec(w, s).sent
      && |Exec(w, s).db.outbox| == 1 && Exec(w, s).db.outbox[0].job == 0
      && Exec(w, s).db.attempts == w.db.attempts && Exec(w, s).db.jobs == w.db.jobs
  {
  }

  lemma ClaimStage(w: World, held: set<JobId>, active: nat)
    requires Stage(w, 1, {}, held, active, 0) && 0 in w.sent && |w.db.outbox| > 0 && w.db.outbox[0].job == 0
    requires w.db.attempts == map[] && w.db.jobs[0].status.Queued?
    ensures var s := Step(Claim(0), 0);
      && Legal(w, s, true) && Listed(w.db, s) && Stage(Exec(w, s), 1, {}, held, active, 0)
      && FirstClaimed(Exec(w, s).db)
  {
    assert PlainJob(0, w.db.jobs[0], {});
  }

  /** Job 0 is in the hands of the worker of its first attempt, which started at time 0. */
  ghost predicate FirstClaimed(db: Db) {
    && db.attempts == map[FIRST_ATTEMPT := Execution.StartedAttempt(0)]
    && 0 in db.jobs && db.jobs[0].attemptCount == 1 && db.jobs[0].status.Executing?
  }

  /** The first job is dispatched. */
  lemma FirstJobQueued() returns (steps: seq<Step>)
    ensures IsScenario(steps, true)
    ensures var w := After(Start(), steps);
      && Stage(w, 1, {}, {0}, 1, 0) && w.db.outbox == [OutboxRow(0, Pending, 0, None, 0, None)] && w.db.attempts == map[]
      && 0 in w.db.jobs && w.db.jobs[0].status.Queued?
  {
    hide Stage, Legal, Exec, After, IsScenario, Listed;
    Begins();
    assert {} + {0} == {0};
    steps := NextJob([], true, 0, {}, 0, 0, 0);
  }

  /** The first job is dispatched, announced and claimed. */
  lemma FirstJobClaimed() returns (steps: seq<Step>)
    ensures IsScenario(steps, true)
    ensures Stage(After(Start(), steps), 1, {}, {0}, 1, 0) && FirstClaimed(After(Start(), steps).db)
  {
    hide Stage, Legal, Exec, After, IsScenario, Listed, FirstClaimed;
    steps := FirstJobQueued();
    PublishStage(After(Start(), steps), {0}, 1);
    Extend(steps, Step(Publish(0, Outbox.Accepted), 0), true);
    steps := steps + [Step(Publish(0, Outbox.Accepted), 0)];
    ClaimStage(After(Start(), steps), {0}, 1);
    Extend(steps, Step(Claim(0), 0), true);
    steps := steps + [Step(Claim(0), 0)];
  }

  /** The first instant at which the lease of an attempt started at time 0 is over. */
  const LATE: Time := LEASE + 1

  lemma ReapedRows(db: Db)
    requires RowsAre(db, 1, {}, {0}, 1) && FirstClaimed(db)
    ensures var after := Reconciliation.Reaped(db, FIRST_ATTEMPT, LATE);
      RowsAre(after, 1, {}, {}, 0) && FIRST_ATTEMPT in after.attempts && 0 in after.jobs && after.jobs[0].status.RetryWait?
      && after.jobs[0].attemptCount == 1 && after.jobs[0].availableAt == LATE + 3 * SECOND && after.jobs.Keys == {0}
  {
    assert PlainJob(0, db.jobs[0], {});
    Effects.ReapLeaves(db, FIRST_ATTEMPT, LATE);
    hide Reconciliation.Reaped;
  }

  lemma ReapsOne(db: Db)
    requires !Reconciliation.ReapRaises(db, FIRST_ATTEMPT)
    ensures Reconciliation.ReapedAll(db, [FIRST_ATTEMPT], LATE) == Reconciliation.Progress(Reconciliation.Reaped(db, FIRST_ATTEMPT, LATE), true)
  {
    hide Reconciliation.Reaped, Reconciliation.ReapRaises;
    assert [FIRST_ATTEMPT][..0] == [];
    assert Reconciliation.ReapedAll(db, [], LATE) == Reconciliation.Progress(db, true);
  }

  lemma OneExpired(db: Db)
    requires FirstClaimed(db)
    ensures IsPage([FIRST_ATTEMPT], Reconciliation.ExpiredAttempts(db, LATE), 100)
  {
    var pool := Reconciliation.ExpiredAttempts(db, LATE);
    assert pool.Keys == {FIRST_ATTEMPT} && |pool| == |pool.Keys|;
  }

  lemma FirstCanBeReaped(db: Db)
    requires RowsAre(db, 1, {}, {0}, 1) && FirstClaimed(db)
    ensures !Reconciliation.ReapRaises(db, FIRST_ATTEMPT)
  {
    assert PlainJob(0, db.jobs[0], {});
  }

  /** The reaper finds the attempt once its lease is over, and nothing else. */
  lemma PassFindsIt(db: Db)
    requires RowsAre(db, 1, {}, {0}, 1) && FirstClaimed(db)
    ensures Reconciliation.PassRows(db, [FIRST_ATTEMPT], [], 100, LATE)
    ensures Reconciliation.Reconciled(db, [FIRST_ATTEMPT], [], LATE).db == Reconciliation.Reaped(db, FIRST_ATTEMPT, LATE)
  {
    ReapedRows(db);
    OneExpired(db);
    FirstCanBeReaped(db);
    ReapsOne(db);
    hide RowsAre, FirstClaimed, IsPage, Reconciliation.Reaped, Reconciliation.ReapRaises, Reconciliation.ReapedAll;
    NothingReserved(Reconciliation.Reaped(db, FIRST_ATTEMPT, LATE));
  }

  lemma NothingReserved(db: Db)
    requires RowsAre(db, 1, {}, {}, 0)
    ensures IsPage([], Reconciliation.ExpiredQueued(db, LATE), 100)
  {
    assert Reconciliation.ExpiredQueued(db, LATE) == map[];
  }

  lemma ReapStage(w: World)
    requires Stage(w, 1, {}, {0}, 1, 0) && FirstClaimed(w.db)
    ensures var s := Step(Reap(FIRST_ATTEMPT), LATE);
      && Legal(w, s, true) && Listed(w.db, s) && Stage(Exec(w, s), 1, {}, {}, 0, LATE)
      && FIRST_ATTEMPT in Exec(w, s).db.attempts && 0 in Exec(w, s).db.jobs && Exec(w, s).db.jobs[0].status.RetryWait?
      && Exec(w, s).db.jobs[0].attemptCount == 1 && Exec(w, s).db.jobs[0].availableAt == LATE + 3 * SECOND
  {
    ReapedRows(w.db);
    hide RowsAre, Reconciliation.Reaped;
  }

  /** The worker of the first job is silent for more than 300 seconds, and a pass of the reaper gives it up. */
  lemma FirstJobGivenUp() returns (steps: seq<Step>)
    ensures IsScenario(steps, true)
    ensures var w := After(Start(), steps);
      && Stage(w, 1, {}, {}, 0, LATE) && FIRST_ATTEMPT in w.db.attempts && 0 in w.db.jobs && w.db.jobs[0].status.RetryWait?
      && w.db.jobs[0].attemptCount == 1 && w.db.jobs[0].availableAt == LATE + 3 * SECOND
    ensures |steps| > 0
    ensures var before, pass := After(Start(), steps[..|steps| - 1]).db, [FIRST_ATTEMPT];
      && Reconciliation.PassRows(before, pass, [], 100, LATE)
      && After(Start(), steps).db == Reconciliation.Reconciled(before, pass, [], LATE).db
  {
    hide Stage, Legal, After, IsScenario, Listed, FirstClaimed, RowsAre, Reconciliation.PassRows, Reconciliation.Reconciled;
    steps := FirstJobClaimed();
    var before := After(Start(), steps);
    RowsAt(before, 1, {}, {0}, 1, 0);
    PassFindsIt(before.db);
    ReapStage(before);
    Extend(steps, Step(Reap(FIRST_ATTEMPT), LATE), true);
    assert (steps + [Step(Reap(FIRST_ATTEMPT), LATE)])[..|steps|] == steps;
    steps := steps + [Step(Reap(FIRST_ATTEMPT), LATE)];
  }

  lemma RowsAt(w: World, n: nat, waiting: set<JobId>, held: set<JobId>, active: nat, time: Time)
    requires Stage(w, n, waiting, held, active, time)
    ensures RowsAre(w.db, n, waiting, held, active)
  {
  }
}
