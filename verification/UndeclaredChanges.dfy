/** Runs that make the status changes the declared graph does not have. */
module UndeclaredChanges {
  import opened Tables
  import opened Protocol
  import opened Safety
  import opened Scenarios
  import Execution
  import Failure
  import Live
  import Runs
  import Steps

  /** The last step of the scenario takes job 0 from one status to another. */
  ghost predicate Takes(steps: seq<Step>, live: bool, from: JobStatus, to: JobStatus) {
    && steps != [] && IsScenario(steps, live)
    && var before, after := After(Start(), steps[..|steps| - 1]).db.jobs, After(Start(), steps).db.jobs;
    && 0 in before && 0 in after && before[0].status == from && after[0].status == to
  }

  lemma LastStep(steps: seq<Step>, s: Step, live: bool, from: JobStatus, to: JobStatus)
    requires IsScenario(steps, live) && Legal(After(Start(), steps), s, live) && Listed(After(Start(), steps).db, s)
    requires 0 in After(Start(), steps).db.jobs && After(Start(), steps).db.jobs[0].status == from
    requires 0 in Exec(After(Start(), steps), s).db.jobs && Exec(After(Start(), steps), s).db.jobs[0].status == to
    ensures Takes(steps + [s], live, from, to)
  {
    hide Legal, Exec, Listed, IsScenario, After;
    Extend(steps, s, live);
    assert (steps + [s])[..|steps|] == steps;
  }

  lemma ScenarioIsSafe(steps: seq<Step>, live: bool)
    requires IsScenario(steps, live)
    ensures DbSafe(After(Start(), steps).db)
  {
    hide After, DbSafe;
    if live {
      Runs.LiveRunIsRun(Start(), steps);
    }
    SafeRun(steps);
  }

  lemma SafeRun(steps: seq<Step>)
    requires IsRun(Start(), steps, false)
    ensures DbSafe(After(Start(), steps).db)
  {
    hide After, IsRun, DbSafe;
    Runs.EveryRunIsSafe(TENANTS, 0, steps);
  }

  // ---- Steps from a claimed or given up job ---------------------------------------------------

  lemma CancelFirst(w: World, now: Time)
    requires DbSafe(w.db) && w.clock <= now && 0 in w.db.jobs
    requires w.db.jobs[0].status.Executing? || w.db.jobs[0].status.RetryWait?
    ensures var s := Step(Cancel(0), now);
      var after := Exec(w, s);
      && Legal(w, s, true) && Listed(w.db, s) && after.clock == now && after.db.attempts == w.db.attempts
      && 0 in after.db.jobs && after.db.jobs[0].attemptCount == w.db.jobs[0].attemptCount
      && after.db.jobs[0].status == if w.db.jobs[0].status.Executing? then CancelRequested else JobStatus.Cancelled
  {
    hide DbSafe;
    Fits(w.db, 0);
  }

  lemma FailedStatus(db: Db, failure: FailureType, now: Time)
    requires Execution.Finishable(db, FIRST_ATTEMPT) && db.jobs[0].attemptCount == 1
    ensures var after := Execution.Failed(db, FIRST_ATTEMPT, "", "", failure, now);
      0 in after.jobs && after.jobs[0].status == if failure.Permanent? then FailedFinal else RetryWait
  {
    hide Execution.Failed, Failure.SettledLetters;
    Steps.FailedRows(db, FIRST_ATTEMPT, "", "", failure, now);
  }

  lemma CompletedStatus(db: Db, now: Time)
    requires Execution.Finishable(db, FIRST_ATTEMPT)
    ensures var after := Execution.Completed(db, FIRST_ATTEMPT, "", now);
      0 in after.jobs && after.jobs[0].status == JobStatus.Succeeded
  {
    hide Execution.Completed;
    Steps.CompletedRows(db, FIRST_ATTEMPT, "", now);
  }

  lemma FailFirst(w: World, failure: FailureType, now: Time)
    requires DbSafe(w.db) && w.clock <= now && RunningAttempt(w.db, FIRST_ATTEMPT) && 0 in w.db.jobs && w.db.jobs[0].attemptCount == 1
    ensures var s := Step(Fail(FIRST_ATTEMPT, "", "", failure), now);
      && Legal(w, s, true) && Listed(w.db, s) && 0 in Exec(w, s).db.jobs
      && Exec(w, s).db.jobs[0].status == if failure.Permanent? then FailedFinal else RetryWait
  {
    hide DbSafe, Execution.Failed;
    Fits(w.db, 0);
    FailedStatus(w.db, failure, now);
  }

  lemma CompleteFirst(w: World, now: Time)
    requires DbSafe(w.db) && w.clock <= now && FIRST_ATTEMPT in w.db.attempts && 0 in w.db.jobs && w.db.jobs[0].attemptCount >= 1
    ensures var s := Step(Complete(FIRST_ATTEMPT, ""), now);
      && Legal(w, s, false) && Listed(w.db, s) && 0 in Exec(w, s).db.jobs && Exec(w, s).db.jobs[0].status == JobStatus.Succeeded
  {
    hide DbSafe, Execution.Completed;
    Fits(w.db, 0);
    CompletedStatus(w.db, now);
  }

  lemma ClockIs(w: World, n: nat, waiting: set<JobId>, held: set<JobId>, active: nat, time: Time)
    requires Stage(w, n, waiting, held, active, time)
    ensures w.clock == time
  {
  }

  lemma ClaimedRuns(db: Db)
    requires FirstClaimed(db)
    ensures RunningAttempt(db, FIRST_ATTEMPT) && 0 in db.jobs && db.jobs[0].attemptCount == 1 && db.jobs[0].status.Executing?
  {
  }

  /** A worker has job 0 in hand, and the job is asked to stop. */
  lemma FirstJobAskedToStop() returns (steps: seq<Step>)
    ensures IsScenario(steps, true)
    ensures var w := After(Start(), steps);
      && DbSafe(w.db) && w.clock == 0 && RunningAttempt(w.db, FIRST_ATTEMPT)
      && 0 in w.db.jobs && w.db.jobs[0].attemptCount == 1 && w.db.jobs[0].status.CancelRequested?
  {
    hide *;
    steps := FirstJobClaimed();
    var w := After(Start(), steps);
    ScenarioIsSafe(steps, true);
    ClockIs(w, 1, {}, {0}, 1, 0);
    ClaimedRuns(w.db);
    CancelFirst(w, 0);
    var s := Step(Cancel(0), 0);
    SameAttemptRuns(w.db, Exec(w, s).db);
    Extend(steps, s, true);
    steps := steps + [s];
    ScenarioIsSafe(steps, true);
  }

  lemma SameAttemptRuns(db: Db, after: Db)
    requires RunningAttempt(db, FIRST_ATTEMPT) && after.attempts == db.attempts
    ensures RunningAttempt(after, FIRST_ATTEMPT)
  {
  }

  /** Each of the three undeclared changes is made by some live run. */
  lemma UndeclaredChangesHappen() returns (cancel: seq<Step>, retry: seq<Step>, bury: seq<Step>)
    ensures Takes(cancel, true, Queued, JobStatus.Cancelled)
    ensures Takes(retry, true, CancelRequested, RetryWait)
    ensures Takes(bury, true, CancelRequested, FailedFinal)
  {
    hide *;
    var queued := FirstJobQueued();
    var w := After(Start(), queued);
    ScenarioIsSafe(queued, true);
    ClockIs(w, 1, {}, {0}, 1, 0);
    QueuedCancels(w);
    LastStep(queued, Step(Cancel(0), 0), true, Queued, JobStatus.Cancelled);
    cancel := queued + [Step(Cancel(0), 0)];

    var asked := FirstJobAskedToStop();
    w := After(Start(), asked);
    var transient, permanent := Step(Fail(FIRST_ATTEMPT, "", "", Transient), 0), Step(Fail(FIRST_ATTEMPT, "", "", Permanent), 0);
    FailFirst(w, Transient, 0);
    LastStep(asked, transient, true, CancelRequested, RetryWait);
    retry := asked + [transient];
    FailFirst(w, Permanent, 0);
    LastStep(asked, permanent, true, CancelRequested, FailedFinal);
    bury := asked + [permanent];
  }

  lemma QueuedCancels(w: World)
    requires DbSafe(w.db) && w.clock == 0 && 0 in w.db.jobs && w.db.jobs[0].status.Queued?
    ensures var s := Step(Cancel(0), 0);
      Legal(w, s, true) && Listed(w.db, s) && 0 in Exec(w, s).db.jobs && Exec(w, s).db.jobs[0].status == JobStatus.Cancelled
  {
    hide DbSafe, Apply, Legal;
    Live.QueuedIsCancelled(w, 0, 0);
  }

  /** A terminal status is left in some run: the worker of a job falls silent, the reaper gives it up, the job
    * is cancelled while it waits for its retry, and then the worker completes after all.
    */
  lemma CancelledJobCanSucceed() returns (steps: seq<Step>)
    ensures Takes(steps, false, JobStatus.Cancelled, JobStatus.Succeeded)
  {
    hide *;
    steps := FirstJobGivenUp();
    var w := After(Start(), steps);
    ScenarioIsSafe(steps, true);
    ClockIs(w, 1, {}, {}, 0, LATE);
    TriedOnce(w.db);
    CancelFirst(w, LATE);
    Extend(steps, Step(Cancel(0), LATE), true);
    steps := steps + [Step(Cancel(0), LATE)];
    LiveIsScenario(steps);
    ScenarioIsSafe(steps, false);
    CompleteFirst(After(Start(), steps), LATE);
    LastStep(steps, Step(Complete(FIRST_ATTEMPT, ""), LATE), false, JobStatus.Cancelled, JobStatus.Succeeded);
    steps := steps + [Step(Complete(FIRST_ATTEMPT, ""), LATE)];
  }

  lemma TriedOnce(db: Db)
    requires DbSafe(db) && 0 in db.jobs && FIRST_ATTEMPT in db.attempts
    ensures db.jobs[0].attemptCount >= 1
  {
    AttemptIsCounted(db, FIRST_ATTEMPT);
  }
}
