/** How long reservations last, over whole runs. */
module Reservations {
  import opened Tables
  import opened Protocol
  import opened Safety
  import opened Live
  import Cancellation
  import Dispatcher
  import Effects
  import Execution
  import Failure
  import Retry
  import Runs
  import SchedulerState
  import Steps
  import Submission

  // ---- One step ------------------------------------------------------------------------------

  /** The step gives `j` a slot, or is a heartbeat of an attempt of `j` that runs. */
  ghost predicate Renews(w: World, s: Step, j: JobId) {
    match s.action
    case Dispatch(t, rows, _) => (forall i :: i in rows ==> i in w.db.jobs) && Dispatcher.Choice(w.db, t, rows) == Some(j)
    case Beat(a) => RunningAttempt(w.db, a) && a.job == j
    case _ => false
  }

  /** The reservation of `j` after a step: renewed for 300 seconds, or as it was. */
  ghost predicate ReservationAfter(w: World, s: Step, after: map<JobId, Reservation>, j: JobId) {
    j in after ==>
      if Renews(w, s, j) then after[j].expiresAt == s.now + 300 * SECOND
      else j in w.db.reservations && after[j] == w.db.reservations[j]
  }

  /** No reservation is new or changed. */
  ghost predicate NoneRenewed(before: map<JobId, Reservation>, after: map<JobId, Reservation>) {
    forall j :: j in after ==> j in before && after[j] == before[j]
  }

  lemma GivenUp(db: Db, after: Db, j: JobId)
    requires j in db.jobs && Effects.SlotGivenUp(db, after, j)
    ensures NoneRenewed(db.reservations, after.reservations)
  {
  }

  lemma FinishingStep(w: World, s: Step)
    requires Finishing(s.action)
    ensures NoneRenewed(w.db.reservations, Apply(w.db, s).reservations)
  {
    hide Effects.SlotGivenUp, Effects.Fails, Execution.Released, Execution.SucceededRows, Execution.FailedRows, Failure.Finalized;
    if Execution.Finishable(w.db, s.action.attempt) {
      match s.action {
        case Complete(a, result) => Effects.CompleteLeaves(w.db, a, result, s.now);
        case Fail(a, message, traceback, failure) => Effects.FailLeaves(w.db, a, message, traceback, failure, s.now);
        case FailService(a, message, failure) => Effects.FailAttemptLeaves(w.db, a, message, failure, s.now);
        case Reap(a) =>
          if RunningAttempt(w.db, a) {
            Effects.ReapLeaves(w.db, a, s.now);
          }
      }
      if s.action.Reap? ==> RunningAttempt(w.db, s.action.attempt) {
        GivenUp(w.db, Apply(w.db, s), s.action.attempt.job);
      }
    }
  }

  lemma LeavingStep(w: World, s: Step)
    requires s.action.Recover? || s.action.Cancel?
    ensures NoneRenewed(w.db.reservations, Apply(w.db, s).reservations)
  {
    hide Effects.SlotGivenUp, Execution.Released, SchedulerState.RefreshAll, Cancellation.CancelledJob;
    if !Execution.NoWayOut(w.db, s.action.job) && w.db.jobs[s.action.job].status.Queued? {
      if s.action.Recover? {
        Effects.RecoverLeaves(w.db, s.action.job, s.now);
      } else {
        Effects.CancelLeaves(w.db, s.action.job, s.now);
      }
      GivenUp(w.db, Apply(w.db, s), s.action.job);
    }
  }

  lemma AddingStep(w: World, s: Step)
    requires s.action.Submit? || s.action.Replay?
    ensures Apply(w.db, s).reservations == w.db.reservations
  {
    hide Submission.KeyTaken, SchedulerState.RefreshedRow;
  }

  lemma OtherStep(w: World, s: Step)
    requires s.action.Publish? || s.action.Claim? || s.action.Promote? || s.action.Refresh?
    ensures Apply(w.db, s).reservations == w.db.reservations
  {
    hide SchedulerState.RefreshedRow, Retry.PromotedJobs, Execution.ClaimedJob;
  }

  lemma DispatchStep(w: World, s: Step, j: JobId)
    requires s.action.Dispatch? && SlotsMatch(w.db.jobs, w.db.reservations) && Legal(w, s, false)
    ensures ReservationAfter(w, s, Apply(w.db, s).reservations, j)
  {
    hide SlotsMatch, Legal, Dispatcher.Choice;
    Steps.StepRows(w, s);
  }

  lemma BeatStep(w: World, s: Step, j: JobId)
    requires s.action.Beat?
    ensures ReservationAfter(w, s, Apply(w.db, s).reservations, j)
  {
  }

  lemma ReservationStep(w: World, s: Step, j: JobId)
    requires SlotsMatch(w.db.jobs, w.db.reservations) && Legal(w, s, false)
    ensures ReservationAfter(w, s, Apply(w.db, s).reservations, j)
  {
    hide SlotsMatch, Legal, Apply;
    if Finishing(s.action) {
      FinishingStep(w, s);
    } else if s.action.Recover? || s.action.Cancel? {
      LeavingStep(w, s);
    } else if s.action.Dispatch? {
      DispatchStep(w, s, j);
    } else if s.action.Beat? {
      BeatStep(w, s, j);
    } else if s.action.Submit? || s.action.Replay? {
      AddingStep(w, s);
    } else {
      OtherStep(w, s);
    }
  }

  // ---- Every run -----------------------------------------------------------------------------

  /** When `j` was last given a slot or last showed a sign of life. */
  ghost function LastSign(w: World, steps: seq<Step>, j: JobId): Option<Time> {
    if steps == [] then None
    else
      var before := steps[..|steps| - 1];
      if Renews(After(w, before), steps[|steps| - 1], j) then Some(steps[|steps| - 1].now) else LastSign(w, before, j)
  }

  /** In every run a reservation runs out 300 seconds after its dispatch or its last heartbeat since. */
  lemma {:induction false} ReservationsRunOut(tenants: map<TenantId, nat>, clock: Time, steps: seq<Step>, j: JobId)
    requires IsRun(Initial(tenants, clock), steps, false)
    ensures var start := Initial(tenants, clock);
      var reservations := After(start, steps).db.reservations;
      j in reservations ==>
        LastSign(start, steps, j).Some? && reservations[j].expiresAt == LastSign(start, steps, j).value + 300 * SECOND
  {
    if steps != [] {
      var before := steps[..|steps| - 1];
      ReservationsRunOut(tenants, clock, before, j);
      Runs.EveryRunIsSafe(tenants, clock, before);
      var w := After(Initial(tenants, clock), before);
      hide Apply, Legal, DbSafe, Renews;
      Slots(w.db);
      ReservationStep(w, steps[|steps| - 1], j);
    }
  }

  /** A queued job has a reservation, for at least 300 seconds from its dispatch. */
  ghost predicate QueuedSlot(w: World, j: JobId) {
    j in w.db.jobs && w.db.jobs[j].status == Queued ==>
      && j in w.db.reservations && w.db.jobs[j].queuedAt.Some? && w.db.jobs[j].queuedAt.value <= w.clock
      && w.db.jobs[j].queuedAt.value + 300 * SECOND <= w.db.reservations[j].expiresAt
  }

  lemma QueuedSlotStep(w: World, s: Step, j: JobId)
    requires DbSafe(w.db) && Legal(w, s, false) && QueuedSlot(w, j)
    ensures QueuedSlot(Exec(w, s), j)
  {
    hide DbSafe, Legal, Apply;
    LegalAdvances(w, s);
    Slots(w.db);
    StepSafe(w, s);
    Slots(Apply(w.db, s));
    ReservationStep(w, s, j);
    if j in w.db.jobs {
      Steps.JobStep(w, s, j);
      QueuedByDispatch(w, s, j);
    } else if j in Apply(w.db, s).jobs {
      Steps.NewJobStep(w, s, j);
    }
  }

  lemma LegalAdvances(w: World, s: Step)
    requires Legal(w, s, false)
    ensures w.clock <= s.now
  {
  }

  lemma QueuedByDispatch(w: World, s: Step, j: JobId)
    requires SlotsMatch(w.db.jobs, w.db.reservations) && Legal(w, s, false) && j in w.db.jobs
    ensures j in Apply(w.db, s).jobs
    ensures var job := Apply(w.db, s).jobs[j];
      job.status == Queued ==>
        || (job == w.db.jobs[j] && (s.action.Dispatch? ==> !Renews(w, s, j)))
        || (Renews(w, s, j) && s.action.Dispatch? && job.queuedAt == Some(s.now))
  {
    hide SlotsMatch, Legal, Apply;
    Steps.JobStep(w, s, j);
    if s.action.Dispatch? {
      DispatchedJob(w, s, j);
    }
  }

  lemma DispatchedJob(w: World, s: Step, j: JobId)
    requires s.action.Dispatch? && SlotsMatch(w.db.jobs, w.db.reservations) && Legal(w, s, false) && j in w.db.jobs
    ensures j in Apply(w.db, s).jobs
    ensures if Renews(w, s, j) then w.db.jobs[j].status == Waiting && Apply(w.db, s).jobs[j].queuedAt == Some(s.now)
      else Apply(w.db, s).jobs[j] == w.db.jobs[j]
  {
    hide SlotsMatch, Legal, Dispatcher.Choice;
    Steps.StepRows(w, s);
  }

  lemma {:induction false} QueuedSlotsLast(tenants: map<TenantId, nat>, clock: Time, steps: seq<Step>, j: JobId)
    requires IsRun(Initial(tenants, clock), steps, false)
    ensures QueuedSlot(After(Initial(tenants, clock), steps), j)
  {
    if steps != [] {
      var before := steps[..|steps| - 1];
      QueuedSlotsLast(tenants, clock, before, j);
      Runs.EveryRunIsSafe(tenants, clock, before);
      hide Apply, Legal, DbSafe, QueuedSlot;
      QueuedSlotStep(After(Initial(tenants, clock), before), steps[|steps| - 1], j);
    }
  }

  // ---- Live runs -----------------------------------------------------------------------------

  /** A queued job's reservation runs out exactly 300 seconds after its dispatch. */
  ghost predicate QueuedSlotExact(db: Db, j: JobId) {
    j in db.jobs && db.jobs[j].status == Queued ==>
      && j in db.reservations && db.jobs[j].queuedAt.Some?
      && db.reservations[j].expiresAt == db.jobs[j].queuedAt.value + 300 * SECOND
  }

  lemma NoBeatInQueue(w: World, s: Step, j: JobId)
    requires SoleRunning(w.db.jobs, w.db.attempts) && j in w.db.jobs && w.db.jobs[j].status == Queued
    ensures s.action.Beat? ==> !Renews(w, s, j)
  {
  }

  lemma QueuedSlotExactStep(w: World, s: Step, j: JobId)
    requires DbLive(w.db) && Legal(w, s, true) && QueuedSlotExact(w.db, j)
    ensures QueuedSlotExact(Apply(w.db, s), j)
  {
    hide DbSafe, SoleRunning, LettersExact, CountersExact, Legal, Apply, Renews;
    LiveIsLegal(w, s);
    Slots(w.db);
    StepSafe(w, s);
    Slots(Apply(w.db, s));
    ReservationStep(w, s, j);
    if j in w.db.jobs {
      Steps.JobStep(w, s, j);
      QueuedByDispatch(w, s, j);
      if w.db.jobs[j].status == Queued {
        NoBeatInQueue(w, s, j);
        OnlyTwoRenew(w, s, j);
      }
    } else if j in Apply(w.db, s).jobs {
      Steps.NewJobStep(w, s, j);
    }
  }

  lemma OnlyTwoRenew(w: World, s: Step, j: JobId)
    ensures Renews(w, s, j) ==> s.action.Dispatch? || s.action.Beat?
  {
  }

  lemma {:induction false} QueuedSlotsAreExact(tenants: map<TenantId, nat>, clock: Time, steps: seq<Step>, j: JobId)
    requires IsRun(Initial(tenants, clock), steps, true)
    ensures QueuedSlotExact(After(Initial(tenants, clock), steps).db, j)
  {
    if steps != [] {
      var before := steps[..|steps| - 1];
      QueuedSlotsAreExact(tenants, clock, before, j);
      Runs.EveryLiveRunIsLive(tenants, clock, before);
      hide Apply, Legal, DbLive, QueuedSlotExact;
      QueuedSlotExactStep(After(Initial(tenants, clock), before), steps[|steps| - 1], j);
    }
  }
}
