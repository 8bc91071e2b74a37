/** What late workers do to the status graph: exactly which steps leave it, over every run. */
module LateWorkers {
  import opened Tables
  import opened Protocol
  import opened Safety
  import opened Steps
  import opened Live
  import Execution
  import Failure
  import Runs

  /** The step finishes an attempt of `j`, and every row it needs is there. */
  ghost predicate Finishes(db: Db, action: Action, j: JobId) {
    && Finishing(action) && action.attempt.job == j && Execution.Finishable(db, action.attempt)
    && (action.Reap? ==> RunningAttempt(db, action.attempt))
  }

  /** The status is not yet the one that finishing the attempt writes. */
  predicate StatusDiffers(action: Action, job: Job)
    requires Finishing(action)
  {
    if action.Complete? then !job.status.Succeeded?
    else if Execution.CanRetry(FailureOf(action).value.1, job.attemptCount) then !job.status.RetryWait?
    else !job.status.FailedFinal?
  }

  lemma FinishedStatus(w: World, s: Step, j: JobId)
    requires SlotsMatch(w.db.jobs, w.db.reservations) && Legal(w, s, false)
    requires j in w.db.jobs && Finishes(w.db, s.action, j)
    ensures j in Apply(w.db, s).jobs
    ensures var status := Apply(w.db, s).jobs[j].status;
      && (status != w.db.jobs[j].status <==> StatusDiffers(s.action, w.db.jobs[j]))
      && (LiveEdge(w.db.jobs[j].status, status) <==> InHand(w.db.jobs[j].status))
  {
    hide SlotsMatch, Apply, Legal, Failure.SettledLetters;
    StepRows(w, s);
  }

  lemma NotFinished(w: World, s: Step, j: JobId)
    requires SlotsMatch(w.db.jobs, w.db.reservations) && Legal(w, s, false)
    requires j in w.db.jobs && !Finishes(w.db, s.action, j)
    ensures j in Apply(w.db, s).jobs
    ensures var status := Apply(w.db, s).jobs[j].status;
      status == w.db.jobs[j].status || LiveEdge(w.db.jobs[j].status, status)
  {
    hide SlotsMatch, Apply, Legal;
    if Finishing(s.action) {
      OthersKept(w, s, j);
    } else {
      hide LiveMove, Changes;
      JobStep(w, s, j);
      var after := Apply(w.db, s).jobs[j];
      if after != w.db.jobs[j] {
        ChangeIsLive(w, s, j, after);
        MovesOnGraph(w, s, j, w.db.jobs[j], after);
      }
    }
  }

  lemma OthersKept(w: World, s: Step, j: JobId)
    requires SlotsMatch(w.db.jobs, w.db.reservations) && Legal(w, s, false)
    requires j in w.db.jobs && Finishing(s.action) && !Finishes(w.db, s.action, j)
    ensures j in Apply(w.db, s).jobs && Apply(w.db, s).jobs[j] == w.db.jobs[j]
  {
    hide SlotsMatch, Apply, Legal, Failure.SettledLetters, Failure.SettledJob, Execution.SucceededJob;
    StepRows(w, s);
  }

  lemma MovesOnGraph(w: World, s: Step, j: JobId, before: Job, after: Job)
    requires LiveMove(w, s, j, before, after)
    ensures after.status == before.status || LiveEdge(before.status, after.status)
  {
  }

  /** Where the graph is left: in every run a step moves a job neither along an edge of live runs nor not at
    * all exactly when it finishes an attempt of a job that is in no worker's hands, and whose status is
    * not the one it writes already. Neither `complete_job` nor `fail_job` checks that.
    */
  lemma OffGraphIff(tenants: map<TenantId, nat>, clock: Time, steps: seq<Step>, s: Step, j: JobId)
    requires IsRun(Initial(tenants, clock), steps, false)
    requires var w := After(Initial(tenants, clock), steps);
      Legal(w, s, false) && j in w.db.jobs
    ensures var db := After(Initial(tenants, clock), steps).db;
      var was, after := db.jobs[j], Apply(db, s).jobs;
      && j in after
      && (after[j].status != was.status && !LiveEdge(was.status, after[j].status) <==>
          Finishes(db, s.action, j) && !InHand(was.status) && StatusDiffers(s.action, was))
  {
    hide Apply, Legal, DbSafe, StatusDiffers;
    Runs.EveryRunIsSafe(tenants, clock, steps);
    var w := After(Initial(tenants, clock), steps);
    Slots(w.db);
    if Finishes(w.db, s.action, j) {
      FinishedStatus(w, s, j);
    } else {
      NotFinished(w, s, j);
    }
  }

  /** Where a terminal status is left: in every run a job that succeeded, failed for good or was cancelled
    * changes status exactly when a worker completes an attempt of one that did not succeed, or an attempt
    * fails that may be retried, or whose job did not fail for good.
    */
  lemma TerminalLeftIff(tenants: map<TenantId, nat>, clock: Time, steps: seq<Step>, s: Step, j: JobId)
    requires IsRun(Initial(tenants, clock), steps, false)
    requires var w := After(Initial(tenants, clock), steps);
      Legal(w, s, false) && j in w.db.jobs && Terminal(w.db.jobs[j].status)
    ensures var db := After(Initial(tenants, clock), steps).db;
      var was, after := db.jobs[j], Apply(db, s).jobs;
      && j in after
      && (after[j].status != was.status <==>
          Finishes(db, s.action, j)
          && (if s.action.Complete? then !was.status.Succeeded?
              else Execution.CanRetry(FailureOf(s.action).value.1, was.attemptCount) || !was.status.FailedFinal?))
  {
    hide Apply, Legal, DbSafe;
    Runs.EveryRunIsSafe(tenants, clock, steps);
    var w := After(Initial(tenants, clock), steps);
    Slots(w.db);
    if Finishes(w.db, s.action, j) {
      FinishedStatus(w, s, j);
    } else {
      NotFinished(w, s, j);
    }
  }
}
