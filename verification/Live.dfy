/** What holds besides when workers finish only attempts that are still running. */
module Live {
  import opened Tables
  import opened Protocol
  import opened Safety
  import opened Steps
  import Capacity
  import Execution
  import Failure
  import Reconciliation
  import Transitions

  /** Only the latest attempt of a claimed job runs. */
  ghost predicate SoleRunning(jobs: map<JobId, Job>, attempts: map<AttemptId, Attempt>) {
    forall a :: a in attempts && attempts[a].status.Running? ==>
      a.job in jobs && a.number == jobs[a.job].attemptCount && InHand(jobs[a.job].status)
  }

  ghost predicate LettersExact(jobs: map<JobId, Job>, letters: map<JobId, DeadLetter>) {
    forall j :: j in letters ==> j in jobs && jobs[j].status.FailedFinal?
  }

  /** Every tenant's counter is the number of its reservation rows. */
  ghost predicate CountersExact(db: Db) {
    forall t :: Capacity.Gap(db, t) == 0
  }

  ghost predicate DbLive(db: Db) {
    && DbSafe(db)
    && SoleRunning(db.jobs, db.attempts)
    && LettersExact(db.jobs, db.deadLetters)
    && CountersExact(db)
  }

  // ---- Status changes ------------------------------------------------------------------------

  /** The status changes that live runs make. */
  predicate LiveEdge(from: JobStatus, to: JobStatus) {
    match from
    case Waiting => to.Queued? || to.Cancelled?
    case Queued => to.Executing? || to.Waiting? || to.Cancelled?
    case Executing => to.Succeeded? || to.RetryWait? || to.FailedFinal? || to.CancelRequested?
    case RetryWait => to.Waiting? || to.Cancelled?
    case CancelRequested => to.Succeeded? || to.RetryWait? || to.FailedFinal?
    case Succeeded | FailedFinal | Cancelled => false
  }

  /** Against the declared graph: three changes are made that it does not declare, and two that it
    * declares are never made.
    */
  lemma DeclaredAgainstLive(from: JobStatus, to: JobStatus)
    ensures LiveEdge(from, to) && !Transitions.Declared(from, to) <==>
      (from, to) in {(Queued, JobStatus.Cancelled), (CancelRequested, RetryWait), (CancelRequested, FailedFinal)}
    ensures Transitions.Declared(from, to) && !LiveEdge(from, to) <==>
      (from, to) in {(Queued, CancelRequested), (CancelRequested, JobStatus.Cancelled)}
    ensures Terminal(from) ==> !LiveEdge(from, to)
  {
  }

  ghost predicate Recovers(w: World, s: Step, j: JobId) {
    s.action == Recover(j) && j in w.db.jobs && w.db.jobs[j].status.Queued?
  }

  /** One step of a live run, seen from one job: it keeps its status and its attempts, or moves along an
    * edge, and a move counts an attempt exactly when a worker claims the job.
    */
  ghost predicate LiveMove(w: World, s: Step, j: JobId, before: Job, after: Job) {
    && SameIdentity(before, after)
    && (after.status == before.status || LiveEdge(before.status, after.status))
    && after.attemptCount == before.attemptCount + (if before.status.Queued? && after.status.Executing? then 1 else 0)
    && (before.status.Queued? && after.status.Waiting? ==> Recovers(w, s, j))
    && (after.status == before.status ==> after == before)
  }

  /** Live workers only finish the attempt of a job they have in hand. */
  lemma FinishesInHand(w: World, s: Step, a: AttemptId)
    requires SoleRunning(w.db.jobs, w.db.attempts) && Legal(w, s, true)
    requires s.action.Complete? ==> a == s.action.attempt
    requires s.action.Fail? ==> a == s.action.attempt
    requires s.action.FailService? ==> a == s.action.attempt
    requires s.action.Reap? ==> a == s.action.attempt && RunningAttempt(w.db, a)
    requires s.action.Complete? || s.action.Fail? || s.action.FailService? || s.action.Reap?
    ensures RunningAttempt(w.db, a) && a.job in w.db.jobs && InHand(w.db.jobs[a.job].status) && a.number == w.db.jobs[a.job].attemptCount
  {
  }

  predicate Finishing(action: Action) {
    action.Complete? || action.Fail? || action.FailService? || action.Reap?
  }

  lemma ChangeIsLive(w: World, s: Step, j: JobId, after: Job)
    requires j in w.db.jobs && Changes(w, s, j, after)
    requires Finishing(s.action) ==> InHand(w.db.jobs[j].status)
    ensures LiveMove(w, s, j, w.db.jobs[j], after)
  {
  }

  /** In a live run every job moves along the edges above, or stays as it is. */
  lemma LiveMoves(w: World, s: Step, j: JobId)
    requires SlotsMatch(w.db.jobs, w.db.reservations) && SoleRunning(w.db.jobs, w.db.attempts)
    requires Legal(w, s, true) && j in w.db.jobs
    ensures j in Apply(w.db, s).jobs && LiveMove(w, s, j, w.db.jobs[j], Apply(w.db, s).jobs[j])
  {
    LiveIsLegal(w, s);
    hide SlotsMatch, Apply, IsPage, LiveMove, Changes;
    JobStep(w, s, j);
    var after := Apply(w.db, s).jobs[j];
    if after != w.db.jobs[j] {
      if Finishing(s.action) {
        FinishedJobInHand(w, s, j, after);
      }
      ChangeIsLive(w, s, j, after);
    } else {
      StaysLive(w, s, j);
    }
  }

  lemma FinishedJobInHand(w: World, s: Step, j: JobId, after: Job)
    requires SoleRunning(w.db.jobs, w.db.attempts) && Legal(w, s, true)
    requires j in w.db.jobs && Changes(w, s, j, after) && Finishing(s.action)
    ensures InHand(w.db.jobs[j].status)
  {
    FinishesInHand(w, s, s.action.attempt);
  }

  lemma StaysLive(w: World, s: Step, j: JobId)
    requires j in w.db.jobs
    ensures LiveMove(w, s, j, w.db.jobs[j], w.db.jobs[j])
  {
  }

  /** The extra edges are taken whenever their service meets the status. */
  lemma QueuedIsCancelled(w: World, j: JobId, now: Time)
    requires DbSafe(w.db) && w.clock <= now && j in w.db.jobs && w.db.jobs[j].status.Queued?
    ensures var s := Step(Cancel(j), now);
      Legal(w, s, true) && j in Apply(w.db, s).jobs && Apply(w.db, s).jobs[j].status == JobStatus.Cancelled
  {
    hide DbSafe;
    Fits(w.db, j);
  }

  lemma CancelRequestIsReaped(w: World, j: JobId, now: Time)
    requires DbSafe(w.db) && w.clock <= now && j in w.db.jobs && w.db.jobs[j].status.CancelRequested?
    ensures var s := Step(Reap(AttemptId(j, w.db.jobs[j].attemptCount)), now);
      && Legal(w, s, true) && j in Apply(w.db, s).jobs
      && Apply(w.db, s).jobs[j].status == if w.db.jobs[j].attemptCount < MAX_ATTEMPTS then RetryWait else FailedFinal
  {
    hide DbSafe, Reconciliation.Reaped, Failure.SettledLetters;
    Fits(w.db, j);
    LatestIsRunning(w.db, j);
    ReapedRows(w.db, AttemptId(j, w.db.jobs[j].attemptCount), now);
  }

  lemma LatestIsRunning(db: Db, j: JobId)
    requires DbSafe(db) && j in db.jobs && InHand(db.jobs[j].status)
    ensures RunningAttempt(db, AttemptId(j, db.jobs[j].attemptCount))
  {
    assert LatestRuns(j, db.jobs[j], db.attempts);
  }

  // ---- The invariant is kept -----------------------------------------------------------------

  lemma SoleRunningStep(w: World, s: Step)
    requires SlotsMatch(w.db.jobs, w.db.reservations) && AttemptsMatch(w.db.jobs, w.db.attempts)
    requires SoleRunning(w.db.jobs, w.db.attempts) && Legal(w, s, true)
    ensures var after := Apply(w.db, s); SoleRunning(after.jobs, after.attempts)
  {
    LiveIsLegal(w, s);
    AttemptStep(w, s);
    hide SlotsMatch, IsPage, Apply, AttemptsMatch;
    var after := Apply(w.db, s);
    forall a | a in after.attempts && after.attempts[a].status.Running?
      ensures a.job in after.jobs && a.number == after.jobs[a.job].attemptCount && InHand(after.jobs[a.job].status)
    {
      if a in w.db.attempts {
        RunningStays(w, s, a, after);
      } else {
        ClaimedRuns(w, s, a);
      }
    }
  }

  lemma RunningStays(w: World, s: Step, a: AttemptId, after: Db)
    requires SlotsMatch(w.db.jobs, w.db.reservations) && SoleRunning(w.db.jobs, w.db.attempts) && Legal(w, s, true)
    requires after == Apply(w.db, s) && AttemptsAfter(w, s, after)
    requires a in w.db.attempts && a in after.attempts && after.attempts[a].status.Running?
    ensures a.job in after.jobs && a.number == after.jobs[a.job].attemptCount && InHand(after.jobs[a.job].status)
  {
    LiveIsLegal(w, s);
    assert RunningAttempt(w.db, a) by {
      hide Apply, IsPage;
      assert after.attempts[a] == w.db.attempts[a] || AttemptChanges(w, s, a, after.attempts[a]);
    }
    JobStep(w, s, a.job);
    hide SlotsMatch, Apply, IsPage;
    if after.jobs[a.job] != w.db.jobs[a.job] {
      assert Changes(w, s, a.job, after.jobs[a.job]);
      match s.action {
        case Complete(b, _) => FinishesInHand(w, s, b); FinishedStops(w, s, after, b);
        case Fail(b, _, _, _) => FinishesInHand(w, s, b); FinishedStops(w, s, after, b);
        case FailService(b, _, _) => FinishesInHand(w, s, b); FinishedStops(w, s, after, b);
        case Reap(b) => FinishesInHand(w, s, b); FinishedStops(w, s, after, b);
        case _ =>
      }
    }
  }

  /** The attempt that a step finishes does not run afterwards. */
  lemma FinishedStops(w: World, s: Step, after: Db, a: AttemptId)
    requires SlotsMatch(w.db.jobs, w.db.reservations) && Legal(w, s, false) && after == Apply(w.db, s)
    requires a in w.db.attempts && a.job in w.db.jobs && after.jobs != w.db.jobs
    requires s.action.Complete? || s.action.Fail? || s.action.FailService? || s.action.Reap?
    requires a == s.action.attempt
    ensures a in after.attempts && !after.attempts[a].status.Running?
  {
    StepRows(w, s);
    hide SlotsMatch, Apply, IsPage, Failure.SettledJob, Failure.SettledLetters, Execution.SucceededJob;
  }

  lemma ClaimedRuns(w: World, s: Step, a: AttemptId)
    requires SlotsMatch(w.db.jobs, w.db.reservations) && Legal(w, s, false)
    requires a in Apply(w.db, s).attempts && a !in w.db.attempts && AttemptsAfter(w, s, Apply(w.db, s))
    ensures var after := Apply(w.db, s);
      a.job in after.jobs && a.number == after.jobs[a.job].attemptCount && InHand(after.jobs[a.job].status)
  {
    assert Starts(w, s, a, Apply(w.db, s).attempts[a]);
  }

  lemma LettersExactStep(w: World, s: Step)
    requires SlotsMatch(w.db.jobs, w.db.reservations) && SoleRunning(w.db.jobs, w.db.attempts)
    requires LettersExact(w.db.jobs, w.db.deadLetters) && Legal(w, s, true)
    ensures var after := Apply(w.db, s); LettersExact(after.jobs, after.deadLetters)
  {
    LiveIsLegal(w, s);
    LettersStep(w, s);
    hide SlotsMatch, SoleRunning, Apply, Legal;
    var after := Apply(w.db, s);
    forall j | j in after.deadLetters
      ensures j in after.jobs && after.jobs[j].status.FailedFinal?
    {
      if j in w.db.deadLetters {
        LiveMoves(w, s, j);
      }
    }
  }

  lemma NeverEmptyRelease(w: World, s: Step, t: TenantId)
    requires SlotsMatch(w.db.jobs, w.db.reservations) && SoleRunning(w.db.jobs, w.db.attempts) && Legal(w, s, true)
    ensures !Capacity.EmptyRelease(w.db, s.action, t)
  {
    var j := Capacity.ReleasedJob(w.db, s.action);
    if j.Some? && j.value in w.db.jobs {
      match s.action {
        case Complete(a, _) => FinishesInHand(w, s, a);
        case Fail(a, _, _, _) => FinishesInHand(w, s, a);
        case FailService(a, _, _) => FinishesInHand(w, s, a);
        case Reap(a) => FinishesInHand(w, s, a);
        case _ =>
      }
      Capacity.SlotTenant(w.db, j.value);
    }
  }

  lemma CountersExactStep(w: World, s: Step)
    requires DbSafe(w.db) && SoleRunning(w.db.jobs, w.db.attempts) && CountersExact(w.db) && Legal(w, s, true)
    ensures CountersExact(Apply(w.db, s))
  {
    hide DbSafe, SoleRunning, Apply, Legal, Capacity.Gap, Capacity.EmptyRelease;
    LiveIsLegal(w, s);
    Slots(w.db);
    forall t
      ensures Capacity.Gap(Apply(w.db, s), t) == 0
    {
      NeverEmptyRelease(w, s, t);
      Capacity.ExactIff(w, s, t);
    }
  }

  /** A step of a live run keeps the whole invariant. */
  lemma StepLive(w: World, s: Step)
    requires DbLive(w.db) && Legal(w, s, true)
    ensures DbLive(Apply(w.db, s))
  {
    LiveIsLegal(w, s);
    hide Apply, Legal, SoleRunning, LettersExact, CountersExact;
    StepSafe(w, s);
    SoleRunningStep(w, s);
    LettersExactStep(w, s);
    CountersExactStep(w, s);
  }
}
