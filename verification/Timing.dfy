/** Leases in every run, and the spacing of retries in live runs. */
module Timing {
  import opened Tables
  import opened Protocol
  import opened Safety
  import opened Steps
  import opened Live
  import Execution
  import Failure
  import Reconciliation

  // ---- Leases --------------------------------------------------------------------------------

  /** Every lease runs for 300 seconds from the last heartbeat, which lies in the past. */
  ghost predicate LeasesMatch(w: World) {
    forall a :: a in w.db.attempts ==> LeaseFits(w.db.attempts[a], w.clock)
  }

  predicate LeaseFits(attempt: Attempt, clock: Time) {
    attempt.leaseExpiresAt == attempt.heartbeatAt + 300 * SECOND && attempt.startedAt <= attempt.heartbeatAt <= clock
  }

  lemma LeaseOfAttempt(w: World, s: Step, a: AttemptId, after: Db)
    requires LeasesMatch(w) && w.clock <= s.now && AttemptsAfter(w, s, after) && a in after.attempts
    ensures LeaseFits(after.attempts[a], s.now)
    ensures a in w.db.attempts ==> w.db.attempts[a].leaseExpiresAt <= after.attempts[a].leaseExpiresAt
  {
    if a in w.db.attempts {
      assert LeaseFits(w.db.attempts[a], w.clock);
      assert after.attempts[a] == w.db.attempts[a] || AttemptChanges(w, s, a, after.attempts[a]);
    } else {
      assert Starts(w, s, a, after.attempts[a]);
    }
  }

  /** A step keeps every lease in place, or moves it forward. */
  lemma LeaseStep(w: World, s: Step)
    requires DbSafe(w.db) && LeasesMatch(w) && Legal(w, s, false)
    ensures LeasesMatch(Exec(w, s))
    ensures forall a :: a in w.db.attempts ==>
      (a in Exec(w, s).db.attempts && w.db.attempts[a].leaseExpiresAt <= Exec(w, s).db.attempts[a].leaseExpiresAt)
  {
    assert w.clock <= s.now;
    AttemptStep(w, s);
    var after := Apply(w.db, s);
    assert w.db.attempts.Keys <= after.attempts.Keys;
    hide DbSafe, Apply, Legal, AttemptsAfter;
    forall a | a in after.attempts
      ensures LeaseFits(after.attempts[a], s.now)
      ensures a in w.db.attempts ==> w.db.attempts[a].leaseExpiresAt <= after.attempts[a].leaseExpiresAt
    {
      LeaseOfAttempt(w, s, a, after);
    }
  }

  // ---- Spacing -------------------------------------------------------------------------------

  /** The delay after attempt `k` fails. */
  function Delay(k: nat): Time {
    if k == 1 then 3 * SECOND else if k == 2 then 5 * SECOND else if k == 3 then 10 * SECOND else 0
  }

  predicate Closed(attempt: Attempt, clock: Time) {
    attempt.finishedAt.Some? && attempt.startedAt <= attempt.finishedAt.value <= clock
  }

  /** An attempt has an end exactly when it no longer runs. */
  ghost predicate EndsRecorded(w: World) {
    forall a :: a in w.db.attempts ==>
      && w.db.attempts[a].startedAt <= w.clock
      && (if w.db.attempts[a].status.Running? then w.db.attempts[a].finishedAt.None? else Closed(w.db.attempts[a], w.clock))
  }

  predicate Idle(s: JobStatus) {
    s.Waiting? || s.Queued? || s.RetryWait?
  }

  /** Attempt `a` ended at least its delay before `time`. */
  ghost predicate DelayOver(attempts: map<AttemptId, Attempt>, a: AttemptId, time: Time) {
    a in attempts && attempts[a].finishedAt.Some? && attempts[a].finishedAt.value + Delay(a.number) <= time
  }

  /** A job between attempts is not available before the delay of its last attempt is over. */
  ghost predicate DueAfterDelay(w: World) {
    forall j :: j in w.db.jobs && Idle(w.db.jobs[j].status) ==>
      && (w.db.jobs[j].attemptCount >= 1 ==> DelayOver(w.db.attempts, AttemptId(j, w.db.jobs[j].attemptCount), w.db.jobs[j].availableAt))
      && (w.db.jobs[j].status.Queued? ==> w.db.jobs[j].availableAt <= w.clock)
  }

  /** An attempt starts no earlier than the end of the one before it plus that one's delay. */
  ghost predicate Spaced(attempts: map<AttemptId, Attempt>) {
    forall a, b :: a in attempts && b in attempts && a.job == b.job && b.number == a.number + 1 ==>
      DelayOver(attempts, a, attempts[b].startedAt)
  }

  const ALL_DELAYS: Time := 18 * SECOND

  /** A job is given up no earlier than all its delays after its first attempt started. */
  ghost predicate LettersLate(w: World) {
    forall j :: j in w.db.deadLetters && w.db.deadLetters[j].reason.RetriesExhausted? ==>
      AttemptId(j, 1) in w.db.attempts && w.db.attempts[AttemptId(j, 1)].startedAt + ALL_DELAYS <= w.db.deadLetters[j].createdAt
  }

  ghost predicate WorldSpaced(w: World) {
    EndsRecorded(w) && DueAfterDelay(w) && Spaced(w.db.attempts) && LettersLate(w)
  }

  /** In a live run an attempt that has ended stays as it is, and a start never changes. */
  lemma AttemptIsStable(w: World, s: Step, a: AttemptId, after: Db)
    requires AttemptsAfter(w, s, after) && Legal(w, s, true) && a in w.db.attempts
    ensures a in after.attempts && after.attempts[a].startedAt == w.db.attempts[a].startedAt
    ensures !w.db.attempts[a].status.Running? ==> after.attempts[a] == w.db.attempts[a]
    ensures w.db.attempts[a].status.Running? && !after.attempts[a].status.Running? ==> after.attempts[a].finishedAt == Some(s.now)
    ensures w.db.attempts[a].status.Running? && after.attempts[a].status.Running? ==>
      after.attempts[a].finishedAt == w.db.attempts[a].finishedAt
  {
    hide IsPage;
    assert after.attempts[a] == w.db.attempts[a] || AttemptChanges(w, s, a, after.attempts[a]);
  }

  lemma EndsStep(w: World, s: Step)
    requires DbLive(w.db) && EndsRecorded(w) && Legal(w, s, true)
    ensures EndsRecorded(Exec(w, s))
  {
    hide DbSafe, SoleRunning, LettersExact, CountersExact, Apply, Legal, AttemptsAfter, Closed;
    LiveIsLegal(w, s);
    Slots(w.db);
    AttemptStep(w, s);
    var after := Apply(w.db, s);
    forall a | a in after.attempts
      ensures after.attempts[a].startedAt <= s.now
      ensures if after.attempts[a].status.Running? then after.attempts[a].finishedAt.None? else Closed(after.attempts[a], s.now)
    {
      if a in w.db.attempts {
        AttemptIsStable(w, s, a, after);
        ClosedStays(w.db.attempts[a], after.attempts[a], w.clock, s.now);
      } else {
        NewAttempt(w, s, a, after);
      }
    }
  }

  lemma ClosedStays(before: Attempt, after: Attempt, clock: Time, now: Time)
    requires clock <= now && before.startedAt <= clock && after.startedAt == before.startedAt
    ensures Closed(before, clock) && after == before ==> Closed(after, now)
    ensures after.finishedAt == Some(now) ==> Closed(after, now)
  {
  }

  lemma NewAttempt(w: World, s: Step, a: AttemptId, after: Db)
    requires AttemptsAfter(w, s, after) && a in after.attempts && a !in w.db.attempts
    ensures Starts(w, s, a, after.attempts[a])
  {
  }

  /** The latest attempt of an idle job is over. */
  lemma IdleIsOver(w: World, j: JobId)
    requires SoleRunning(w.db.jobs, w.db.attempts) && j in w.db.jobs && !InHand(w.db.jobs[j].status)
    ensures forall a :: a in w.db.attempts && a.job == j ==> !w.db.attempts[a].status.Running?
  {
  }

  lemma DelayStays(w: World, s: Step, a: AttemptId, after: Db, time: Time)
    requires AttemptsAfter(w, s, after) && Legal(w, s, true)
    requires DelayOver(w.db.attempts, a, time) && !w.db.attempts[a].status.Running?
    ensures DelayOver(after.attempts, a, time)
  {
    AttemptIsStable(w, s, a, after);
  }

  /** A job that stays idle keeps its due time; one that fails and may be retried gets a new one. */
  lemma DueJobStep(w: World, s: Step, j: JobId, after: Db)
    requires DbSafe(w.db) && SoleRunning(w.db.jobs, w.db.attempts) && DueAfterDelay(w) && Legal(w, s, true)
    requires after == Apply(w.db, s) && AttemptsAfter(w, s, after)
    requires j in w.db.jobs && j in after.jobs && Idle(after.jobs[j].status)
    ensures after.jobs[j].attemptCount >= 1 ==> DelayOver(after.attempts, AttemptId(j, after.jobs[j].attemptCount), after.jobs[j].availableAt)
    ensures after.jobs[j].status.Queued? ==> after.jobs[j].availableAt <= s.now
  {
    hide DbSafe, SoleRunning, Apply, Legal, AttemptsAfter, DelayOver;
    LiveIsLegal(w, s);
    Slots(w.db);
    JobStep(w, s, j);
    var before, job := w.db.jobs[j], after.jobs[j];
    if job != before && Finishing(s.action) {
      FinishedJobInHand(w, s, j, job);
      RetryIsDelayed(w, s, j, after);
    } else {
      IdleStays(w, s, j, after);
      IdleIsOver(w, j);
      if job.attemptCount >= 1 {
        var a := AttemptId(j, job.attemptCount);
        assert DelayOver(w.db.attempts, a, job.availableAt);
        DelayOverHas(w.db.attempts, a, job.availableAt);
        DelayStays(w, s, a, after, job.availableAt);
      }
    }
  }

  lemma DelayOverHas(attempts: map<AttemptId, Attempt>, a: AttemptId, time: Time)
    requires DelayOver(attempts, a, time)
    ensures a in attempts
  {
  }

  lemma IdleStays(w: World, s: Step, j: JobId, after: Db)
    requires j in w.db.jobs && j in after.jobs && Idle(after.jobs[j].status) && JobAfter(w, s, j, after)
    requires after.jobs[j] != w.db.jobs[j] ==> !Finishing(s.action)
    ensures Idle(w.db.jobs[j].status) && after.jobs[j].availableAt == w.db.jobs[j].availableAt
    ensures after.jobs[j].attemptCount == w.db.jobs[j].attemptCount
    ensures after.jobs[j].status.Queued? ==> w.db.jobs[j].status.Queued? || after.jobs[j].availableAt <= s.now
  {
  }

  lemma SettledIsDelayed(db: Db, after: Db, a: AttemptId, attempt: Attempt, failure: FailureType, message: string, now: Time)
    requires a.job in db.jobs && SettledRows(db, after, a, attempt, failure, message, now)
    requires a.number == db.jobs[a.job].attemptCount && attempt.finishedAt == Some(now)
    ensures !after.jobs[a.job].status.Queued? && after.jobs[a.job].attemptCount == a.number
    ensures Idle(after.jobs[a.job].status) ==> DelayOver(after.attempts, a, after.jobs[a.job].availableAt)
  {
    hide Failure.SettledLetters;
  }

  lemma RetryIsDelayed(w: World, s: Step, j: JobId, after: Db)
    requires SlotsMatch(w.db.jobs, w.db.reservations) && SoleRunning(w.db.jobs, w.db.attempts) && Legal(w, s, true)
    requires after == Apply(w.db, s) && j in w.db.jobs && j in after.jobs && Finishing(s.action)
    requires Changes(w, s, j, after.jobs[j]) && Idle(after.jobs[j].status) && after.jobs[j] != w.db.jobs[j]
    ensures !after.jobs[j].status.Queued?
    ensures DelayOver(after.attempts, AttemptId(j, after.jobs[j].attemptCount), after.jobs[j].availableAt)
  {
    hide SlotsMatch, SoleRunning, Apply, Legal, SettledRows, DelayOver, Idle, Failure.SettledJob;
    LiveIsLegal(w, s);
    FinishesInHand(w, s, s.action.attempt);
    StepRows(w, s);
    match s.action {
      case Complete(a, result) => assert after.jobs[j] == Execution.SucceededJob(w.db.jobs[j], result, s.now);
        SucceededIsNotIdle(w.db.jobs[j], result, s.now);
      case Fail(a, message, traceback, failure) =>
        SettledIsDelayed(w.db, after, a, FailedAttempt(w.db.attempts[a], message, Some(traceback), failure, s.now), failure, message, s.now);
      case FailService(a, message, failure) =>
        SettledIsDelayed(w.db, after, a, FailedAttempt(w.db.attempts[a], message, None, failure, s.now), failure, message, s.now);
      case Reap(a) =>
        SettledIsDelayed(w.db, after, a, Reconciliation.AbandonedAttempt(w.db.attempts[a], s.now), Infrastructure,
                         "Worker lease expired", s.now);
    }
  }

  lemma SucceededIsNotIdle(job: Job, result: string, now: Time)
    ensures !Idle(Execution.SucceededJob(job, result, now).status)
  {
  }

  lemma DueStep(w: World, s: Step)
    requires DbLive(w.db) && DueAfterDelay(w) && Legal(w, s, true)
    ensures DueAfterDelay(Exec(w, s))
  {
    hide Apply, Legal, AttemptsAfter, LettersExact, CountersExact, DbSafe;
    LiveIsLegal(w, s);
    Slots(w.db);
    AttemptStep(w, s);
    var after := Apply(w.db, s);
    forall j | j in after.jobs && Idle(after.jobs[j].status)
      ensures after.jobs[j].attemptCount >= 1 ==> DelayOver(after.attempts, AttemptId(j, after.jobs[j].attemptCount), after.jobs[j].availableAt)
      ensures after.jobs[j].status.Queued? ==> after.jobs[j].availableAt <= s.now
    {
      if j in w.db.jobs {
        DueJobStep(w, s, j, after);
      } else {
        NewJobIsFresh(w, s, j);
      }
    }
  }

  lemma NewJobIsFresh(w: World, s: Step, j: JobId)
    requires DbSafe(w.db) && Legal(w, s, false) && j in Apply(w.db, s).jobs && j !in w.db.jobs
    ensures Apply(w.db, s).jobs[j].attemptCount == 0 && Apply(w.db, s).jobs[j].status.Waiting?
  {
    NewJobStep(w, s, j);
  }

  lemma SpacedStep(w: World, s: Step)
    requires DbLive(w.db) && DueAfterDelay(w) && Spaced(w.db.attempts) && Legal(w, s, true)
    ensures Spaced(Apply(w.db, s).attempts)
  {
    hide Apply, Legal, AttemptsAfter, LettersExact, CountersExact, DelayOver, DbSafe;
    LiveIsLegal(w, s);
    Slots(w.db);
    AttemptStep(w, s);
    var after := Apply(w.db, s);
    forall a, b | a in after.attempts && b in after.attempts && a.job == b.job && b.number == a.number + 1
      ensures DelayOver(after.attempts, a, after.attempts[b].startedAt)
    {
      SpacedPair(w, s, a, b, after);
    }
  }

  lemma SpacedPair(w: World, s: Step, a: AttemptId, b: AttemptId, after: Db)
    requires DbSafe(w.db) && SoleRunning(w.db.jobs, w.db.attempts) && DueAfterDelay(w) && Spaced(w.db.attempts) && Legal(w, s, true)
    requires AttemptsAfter(w, s, after)
    requires a in after.attempts && b in after.attempts && a.job == b.job && b.number == a.number + 1
    ensures DelayOver(after.attempts, a, after.attempts[b].startedAt)
  {
    NumbersInOrder(w.db);
    hide DbSafe, Legal, SoleRunning, DueAfterDelay, DelayOver, AttemptsAfter;
    if a !in w.db.attempts {
      NewAttempt(w, s, a, after);
      NewAttempt(w, s, b, after);
    } else if b in w.db.attempts {
      AttemptIsStable(w, s, b, after);
      EarlierIsOver(w, a, b);
      DelayStays(w, s, a, after, w.db.attempts[b].startedAt);
    } else {
      NewAttempt(w, s, b, after);
      NextIsSpaced(w, s, a, b, after);
    }
  }

  lemma EarlierIsOver(w: World, a: AttemptId, b: AttemptId)
    requires DbSafe(w.db) && SoleRunning(w.db.jobs, w.db.attempts) && a in w.db.attempts && b in w.db.attempts
    requires a.job == b.job && a.number < b.number
    ensures !w.db.attempts[a].status.Running?
  {
    NumbersInOrder(w.db);
    hide DbSafe;
  }

  lemma NextIsSpaced(w: World, s: Step, a: AttemptId, b: AttemptId, after: Db)
    requires SoleRunning(w.db.jobs, w.db.attempts) && DueAfterDelay(w) && Legal(w, s, true) && AttemptsAfter(w, s, after)
    requires a in w.db.attempts && b in after.attempts && a.job == b.job && b.number == a.number + 1 && a.number >= 1
    requires Starts(w, s, b, after.attempts[b])
    ensures DelayOver(after.attempts, a, after.attempts[b].startedAt)
  {
    hide Legal, AttemptsAfter;
    assert w.clock <= s.now by { ClockAdvances(w, s); }
    assert a == AttemptId(a.job, w.db.jobs[a.job].attemptCount);
    assert DelayOver(w.db.attempts, a, w.db.jobs[a.job].availableAt);
    IdleIsOver(w, a.job);
    DelayStays(w, s, a, after, s.now);
  }

  lemma ClockAdvances(w: World, s: Step)
    requires Legal(w, s, true)
    ensures w.clock <= s.now
  {
  }

  lemma NumbersInOrder(db: Db)
    requires DbSafe(db)
    ensures forall a :: a in db.attempts ==> a.job in db.jobs && 1 <= a.number <= db.jobs[a.job].attemptCount
  {
  }

  /** Four attempts spaced by their delays span at least all the delays. */
  lemma FourAttemptsSpan(w: World, j: JobId)
    requires DbSafe(w.db) && EndsRecorded(w) && Spaced(w.db.attempts) && j in w.db.jobs && w.db.jobs[j].attemptCount == MAX_ATTEMPTS
    ensures AttemptId(j, 1) in w.db.attempts && w.db.attempts[AttemptId(j, 1)].startedAt + ALL_DELAYS <= w.clock
  {
    var a1, a2, a3, a4 := AttemptId(j, 1), AttemptId(j, 2), AttemptId(j, 3), AttemptId(j, 4);
    AllPresent(w.db, j);
    hide DbSafe;
    assert DelayOver(w.db.attempts, a1, w.db.attempts[a2].startedAt);
    assert DelayOver(w.db.attempts, a2, w.db.attempts[a3].startedAt);
    assert DelayOver(w.db.attempts, a3, w.db.attempts[a4].startedAt);
  }

  lemma AllPresent(db: Db, j: JobId)
    requires DbSafe(db) && j in db.jobs && db.jobs[j].attemptCount == MAX_ATTEMPTS
    ensures forall n :: 1 <= n <= 4 ==> AttemptId(j, n) in db.attempts
  {
  }

  lemma LettersLateStep(w: World, s: Step)
    requires DbLive(w.db) && WorldSpaced(w) && Legal(w, s, true)
    ensures LettersLate(Exec(w, s))
  {
    hide Apply, Legal, AttemptsAfter, DbSafe, LettersExact, CountersExact, SoleRunning, DueAfterDelay;
    LiveIsLegal(w, s);
    Slots(w.db);
    AttemptStep(w, s);
    LettersStep(w, s);
    StepSafe(w, s);
    var after := Apply(w.db, s);
    Letters(after);
    forall j | j in after.deadLetters && after.deadLetters[j].reason.RetriesExhausted?
      ensures AttemptId(j, 1) in after.attempts && after.attempts[AttemptId(j, 1)].startedAt + ALL_DELAYS <= after.deadLetters[j].createdAt
    {
      if j !in w.db.deadLetters {
        assert w.db.jobs[j].attemptCount == MAX_ATTEMPTS;
        FourAttemptsSpan(w, j);
      }
      AttemptIsStable(w, s, AttemptId(j, 1), after);
    }
  }

  lemma SpacingStep(w: World, s: Step)
    requires DbLive(w.db) && WorldSpaced(w) && Legal(w, s, true)
    ensures WorldSpaced(Exec(w, s))
  {
    hide DbLive, Legal, Apply, EndsRecorded, DueAfterDelay, Spaced, LettersLate;
    EndsStep(w, s);
    DueStep(w, s);
    SpacedStep(w, s);
    LettersLateStep(w, s);
  }
}
