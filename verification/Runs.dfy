/** The theorems over whole runs, from empty tables on. */
module Runs {
  import opened Tables
  import opened Protocol
  import opened Safety
  import opened Live
  import opened Timing
  import Cache
  import Capacity
  import Delivery
  import Steps
  import Submission

  // ---- Every run -----------------------------------------------------------------------------

  /** What every reachable world keeps. */
  ghost predicate WorldSafe(w: World) {
    DbSafe(w.db) && LeasesMatch(w) && Delivery.OutboxSound(w) && Submission.UniqueKeys(w.db)
  }

  lemma HeldOfNone(t: TenantId)
    ensures Held(map[], t) == {}
  {
  }

  lemma InitialSafe(tenants: map<TenantId, nat>, clock: Time)
    ensures WorldSafe(Initial(tenants, clock))
    ensures forall t :: Capacity.Gap(Initial(tenants, clock).db, t) == 0
  {
    forall t ensures Held(map[], t) == {} { HeldOfNone(t); }
  }

  /** The uniqueness constraint on keys is one the services never run into. */
  lemma UniqueKeysStep(w: World, s: Step)
    requires DbSafe(w.db) && Submission.UniqueKeys(w.db) && Legal(w, s, false)
    ensures Submission.UniqueKeys(Apply(w.db, s))
  {
    hide DbSafe, Apply, Legal, Submission.KeyTaken;
    Slots(w.db);
    var after := Apply(w.db, s);
    forall i, j | i in after.jobs && j in after.jobs && after.jobs[i].tenant == after.jobs[j].tenant && after.jobs[i].key == after.jobs[j].key
      ensures i == j
    {
      KeyKept(w, s, i);
      KeyKept(w, s, j);
      AddedAlone(w, s, i, j);
      if i in w.db.jobs && j !in w.db.jobs {
        UnusedKey(w.db, after.jobs[j].tenant, after.jobs[j].key, i);
      } else if j in w.db.jobs && i !in w.db.jobs {
        UnusedKey(w.db, after.jobs[i].tenant, after.jobs[i].key, j);
      }
    }
  }

  /** Tenant and key of a job never change, and a new job's key was free. */
  lemma KeyKept(w: World, s: Step, j: JobId)
    requires SlotsMatch(w.db.jobs, w.db.reservations) && Legal(w, s, false) && j in Apply(w.db, s).jobs
    ensures var job := Apply(w.db, s).jobs[j];
      if j in w.db.jobs then SameIdentity(w.db.jobs[j], job) else !Submission.KeyTaken(w.db, job.tenant, job.key)
  {
    hide SlotsMatch, Apply, Legal, Submission.KeyTaken;
    if j in w.db.jobs {
      Steps.IdentityStep(w, s, j);
    } else {
      Steps.NewJobStep(w, s, j);
    }
  }

  lemma AddedAlone(w: World, s: Step, i: JobId, j: JobId)
    requires SlotsMatch(w.db.jobs, w.db.reservations) && Legal(w, s, false)
    requires i in Apply(w.db, s).jobs && j in Apply(w.db, s).jobs
    ensures i !in w.db.jobs && j !in w.db.jobs ==> i == j
  {
    hide SlotsMatch, Apply, Legal, Submission.KeyTaken;
    if i !in w.db.jobs && j !in w.db.jobs {
      Steps.NewJobStep(w, s, i);
      Steps.NewJobStep(w, s, j);
    }
  }

  lemma UnusedKey(db: Db, t: TenantId, key: string, j: JobId)
    requires !Submission.KeyTaken(db, t, key) && j in db.jobs
    ensures !(db.jobs[j].tenant == t && db.jobs[j].key == key)
  {
    assert Submission.HasKey(db, j, t, key) ==> Submission.KeyTaken(db, t, key);
  }

  lemma {:induction false} EveryRunIsSafe(tenants: map<TenantId, nat>, clock: Time, steps: seq<Step>)
    requires IsRun(Initial(tenants, clock), steps, false)
    ensures WorldSafe(After(Initial(tenants, clock), steps))
  {
    var start := Initial(tenants, clock);
    if steps == [] {
      InitialSafe(tenants, clock);
    } else {
      var before, s := steps[..|steps| - 1], steps[|steps| - 1];
      EveryRunIsSafe(tenants, clock, before);
      var w := After(start, before);
      hide Apply, Legal, DbSafe, LeasesMatch, Delivery.OutboxSound, Submission.UniqueKeys;
      StepSafe(w, s);
      LeaseStep(w, s);
      Delivery.OutboxSoundStep(w, s);
      UniqueKeysStep(w, s);
    }
  }

  lemma {:induction false} LiveRunIsRun(w: World, steps: seq<Step>)
    requires IsRun(w, steps, true)
    ensures IsRun(w, steps, false)
  {
    if steps != [] {
      LiveRunIsRun(w, steps[..|steps| - 1]);
      LiveIsLegal(After(w, steps[..|steps| - 1]), steps[|steps| - 1]);
    }
  }

  /** Mutual exclusion: in every run at most one job that takes a slot works on a tenant's resource. */
  lemma OneHolderPerResource(tenants: map<TenantId, nat>, clock: Time, steps: seq<Step>, i: JobId, j: JobId)
    requires IsRun(Initial(tenants, clock), steps, false)
    ensures var db := After(Initial(tenants, clock), steps).db;
      i in db.jobs && j in db.jobs && NeedsLock(db.jobs[i]) && NeedsLock(db.jobs[j]) && LockOf(db.jobs[i]) == LockOf(db.jobs[j])
      ==> i == j
  {
    EveryRunIsSafe(tenants, clock, steps);
    var db := After(Initial(tenants, clock), steps).db;
    assert LocksMatch(db.jobs, db.locks);
  }

  /** Bounded attempts: in every run, late workers and duplicate messages included, the attempts of a job
    * are numbered 1 to its attempt count, which is at most 4 and at most 3 while another may follow.
    */
  lemma AttemptsAreNumbered(tenants: map<TenantId, nat>, clock: Time, steps: seq<Step>, j: JobId, n: nat)
    requires IsRun(Initial(tenants, clock), steps, false)
    ensures var db := After(Initial(tenants, clock), steps).db;
      && (AttemptId(j, n) in db.attempts <==> j in db.jobs && 1 <= n <= db.jobs[j].attemptCount)
      && (j in db.jobs ==> db.jobs[j].attemptCount <= if Idle(db.jobs[j].status) then 3 else 4)
      && (j in db.jobs && InHand(db.jobs[j].status) ==> LatestRuns(j, db.jobs[j], db.attempts))
  {
    EveryRunIsSafe(tenants, clock, steps);
    var db := After(Initial(tenants, clock), steps).db;
    Slots(db);
    assert j in db.jobs ==> CountFits(db.jobs[j]);
  }

  /** How many steps of a run released a slot of `t` for a job that held none. */
  ghost function EmptyReleases(w: World, steps: seq<Step>, t: TenantId): nat {
    if steps == [] then 0
    else
      var before := steps[..|steps| - 1];
      EmptyReleases(w, before, t) +
      if Capacity.EmptyRelease(After(w, before).db, steps[|steps| - 1].action, t) then 1 else 0
  }

  lemma {:induction false} GapOfRun(tenants: map<TenantId, nat>, clock: Time, steps: seq<Step>, t: TenantId)
    requires IsRun(Initial(tenants, clock), steps, false)
    ensures Capacity.Gap(After(Initial(tenants, clock), steps).db, t) <= EmptyReleases(Initial(tenants, clock), steps, t)
  {
    if steps == [] {
      InitialSafe(tenants, clock);
    } else {
      var before := steps[..|steps| - 1];
      GapOfRun(tenants, clock, before, t);
      EveryRunIsSafe(tenants, clock, before);
      var w := After(Initial(tenants, clock), before);
      hide Apply, Legal, DbSafe, Capacity.Gap, Capacity.EmptyRelease;
      Slots(w.db);
      Capacity.GapStep(w, steps[|steps| - 1], t);
    }
  }

  /** How far capacity can degrade: the counter stays within the limit and within the reservation rows, and
    * the rows exceed the limit by no more than the number of empty releases so far.
    */
  lemma OvercommitBounded(tenants: map<TenantId, nat>, clock: Time, steps: seq<Step>, t: TenantId)
    requires IsRun(Initial(tenants, clock), steps, false)
    ensures var db := After(Initial(tenants, clock), steps).db;
      var k := EmptyReleases(Initial(tenants, clock), steps, t);
      t in db.sched ==>
        && t in db.tenants && db.sched[t].active <= db.tenants[t] && db.sched[t].active <= |Held(db.reservations, t)|
        && |Held(db.reservations, t)| <= db.sched[t].active + k
        && |Held(db.reservations, t)| <= db.tenants[t] + k
  {
    EveryRunIsSafe(tenants, clock, steps);
    GapOfRun(tenants, clock, steps, t);
    var db := After(Initial(tenants, clock), steps).db;
    assert CountersBounded(db.tenants, db.reservations, db.sched);
  }

  /** Dead letters in every run: a job that failed for good has one, and only a fourth attempt exhausts
    * the retries.
    */
  lemma FailedJobHasLetter(tenants: map<TenantId, nat>, clock: Time, steps: seq<Step>, j: JobId)
    requires IsRun(Initial(tenants, clock), steps, false)
    ensures var db := After(Initial(tenants, clock), steps).db;
      && (j in db.jobs && db.jobs[j].status.FailedFinal? ==> j in db.deadLetters)
      && (j in db.deadLetters ==> j in db.jobs)
      && (j in db.deadLetters && db.deadLetters[j].reason.RetriesExhausted? ==> db.deadLetters[j].lastAttempt == MAX_ATTEMPTS)
  {
    EveryRunIsSafe(tenants, clock, steps);
    Letters(After(Initial(tenants, clock), steps).db);
  }

  /** Replaying, however often, leaves the source of a dead letter and every other job as they are. */
  lemma {:induction false} ReplaysKeepJobs(w: World, steps: seq<Step>, j: JobId)
    requires DbSafe(w.db) && IsRun(w, steps, false) && j in w.db.jobs
    requires forall s :: s in steps ==> s.action.Replay?
    ensures DbSafe(After(w, steps).db) && j in After(w, steps).db.jobs && After(w, steps).db.jobs[j] == w.db.jobs[j]
  {
    hide DbSafe, Apply, Legal;
    if steps != [] {
      var before, s := steps[..|steps| - 1], steps[|steps| - 1];
      ReplaysKeepJobs(w, before, j);
      assert s in steps;
      Slots(After(w, before).db);
      Steps.JobStep(After(w, before), s, j);
      StepSafe(After(w, before), s);
    }
  }

  /** The message of a queued job is on its way: the event of its current dispatch is pending, or its
    * message was handed to the broker.
    */
  lemma QueuedJobIsAnnounced(tenants: map<TenantId, nat>, clock: Time, steps: seq<Step>, j: JobId)
    requires IsRun(Initial(tenants, clock), steps, false)
    ensures var w := After(Initial(tenants, clock), steps);
      j in w.db.jobs && w.db.jobs[j].status.Queued? ==>
        var e := Delivery.LatestEvent(w.db.outbox, j);
        e.Some? && Delivery.PendingOrSent(w, e.value) && w.db.jobs[j].queuedAt == Some(w.db.outbox[e.value].availableAt)
  {
    EveryRunIsSafe(tenants, clock, steps);
    var w := After(Initial(tenants, clock), steps);
    if j in w.db.jobs && w.db.jobs[j].status.Queued? {
      assert Delivery.HasCurrentEvent(w.db.outbox, j, w.db.jobs[j]);
      assert Delivery.RowSound(w, Delivery.LatestEvent(w.db.outbox, j).value);
    }
  }

  /** The counter of failed sends and the last error of an event are never recorded: the transaction that
    * writes them is always rolled back.
    */
  lemma FailedSendsLeaveNoTrace(tenants: map<TenantId, nat>, clock: Time, steps: seq<Step>, e: nat)
    requires IsRun(Initial(tenants, clock), steps, false)
    ensures var outbox := After(Initial(tenants, clock), steps).db.outbox;
      e < |outbox| ==> outbox[e].publishAttempts == 0 && outbox[e].lastError.None?
  {
    EveryRunIsSafe(tenants, clock, steps);
    var w := After(Initial(tenants, clock), steps);
    assert e < |w.db.outbox| ==> Delivery.RowSound(w, e);
  }

  /** When the scheduler row of `t` was last refreshed in a run. */
  ghost function LastRefresh(w: World, steps: seq<Step>, t: TenantId): Option<Time> {
    if steps == [] then None
    else
      var before := steps[..|steps| - 1];
      if Cache.Refreshes(After(w, before), steps[|steps| - 1], t) then Some(steps[|steps| - 1].now)
      else LastRefresh(w, before, t)
  }

  /** The readiness cache never loses work, in any run. */
  lemma {:induction false} CacheCoversWaitingJobs(tenants: map<TenantId, nat>, clock: Time, steps: seq<Step>, t: TenantId)
    requires IsRun(Initial(tenants, clock), steps, false)
    ensures Cache.CacheCovers(After(Initial(tenants, clock), steps).db, t, LastRefresh(Initial(tenants, clock), steps, t))
  {
    if steps != [] {
      var before := steps[..|steps| - 1];
      CacheCoversWaitingJobs(tenants, clock, before, t);
      EveryRunIsSafe(tenants, clock, before);
      var w := After(Initial(tenants, clock), before);
      hide Apply, Legal, DbSafe, Cache.CacheCovers, Cache.Refreshes;
      Slots(w.db);
      Cache.CacheStep(w, steps[|steps| - 1], t, LastRefresh(Initial(tenants, clock), before, t));
    }
  }

  // ---- Live runs -----------------------------------------------------------------------------

  ghost predicate WorldLive(w: World) {
    DbLive(w.db) && WorldSpaced(w)
  }

  lemma InitialLive(tenants: map<TenantId, nat>, clock: Time)
    ensures WorldLive(Initial(tenants, clock))
  {
    InitialSafe(tenants, clock);
  }

  lemma {:induction false} EveryLiveRunIsLive(tenants: map<TenantId, nat>, clock: Time, steps: seq<Step>)
    requires IsRun(Initial(tenants, clock), steps, true)
    ensures WorldLive(After(Initial(tenants, clock), steps))
  {
    if steps == [] {
      InitialLive(tenants, clock);
    } else {
      var before, s := steps[..|steps| - 1], steps[|steps| - 1];
      EveryLiveRunIsLive(tenants, clock, before);
      hide Apply, Legal, DbLive, WorldSpaced;
      var w := After(Initial(tenants, clock), before);
      StepLive(w, s);
      SpacingStep(w, s);
    }
  }

  ghost function ActiveJobs(db: Db, t: TenantId): set<JobId> {
    set j | j in db.jobs && db.jobs[j].tenant == t && Active(db.jobs[j].status)
  }

  /** Capacity safety: in a live run a tenant's counter is the number of its reservation rows and of its
    * jobs that take a slot, and never exceeds the limit.
    */
  lemma CapacityIsExact(tenants: map<TenantId, nat>, clock: Time, steps: seq<Step>, t: TenantId)
    requires IsRun(Initial(tenants, clock), steps, true)
    ensures var db := After(Initial(tenants, clock), steps).db;
      t in db.sched ==>
        && t in db.tenants && db.sched[t].active == |Held(db.reservations, t)| == |ActiveJobs(db, t)|
        && db.sched[t].active <= db.tenants[t]
  {
    EveryLiveRunIsLive(tenants, clock, steps);
    var db := After(Initial(tenants, clock), steps).db;
    if t in db.sched {
      assert CountersBounded(db.tenants, db.reservations, db.sched) && Capacity.Gap(db, t) == 0;
      assert SlotsMatch(db.jobs, db.reservations);
      hide DbLive, DbSafe;
      assert Held(db.reservations, t) == ActiveJobs(db, t);
    }
  }

  lemma {:induction false} RunAppended(w: World, first: seq<Step>, more: seq<Step>)
    requires IsRun(w, first + more, true)
    ensures IsRun(w, first, true)
  {
    if more == [] {
      assert first + more == first;
    } else {
      var n := |more| - 1;
      assert (first + more)[..|first + more| - 1] == first + more[..n];
      RunAppended(w, first, more[..n]);
    }
  }

  lemma TerminalStep(w: World, s: Step, j: JobId)
    requires DbLive(w.db) && Legal(w, s, true) && j in w.db.jobs && Terminal(w.db.jobs[j].status)
    ensures j in Apply(w.db, s).jobs && Apply(w.db, s).jobs[j] == w.db.jobs[j]
  {
    hide Apply, Legal, DbSafe, SoleRunning, LettersExact, CountersExact;
    Slots(w.db);
    LiveMoves(w, s, j);
  }

  /** A finished job is never touched again in a live run. */
  lemma {:induction false} TerminalIsForever(tenants: map<TenantId, nat>, clock: Time, first: seq<Step>, more: seq<Step>, j: JobId)
    requires IsRun(Initial(tenants, clock), first + more, true)
    requires j in After(Initial(tenants, clock), first).db.jobs && Terminal(After(Initial(tenants, clock), first).db.jobs[j].status)
    ensures var start := Initial(tenants, clock);
      j in After(start, first + more).db.jobs
      && After(start, first + more).db.jobs[j] == After(start, first).db.jobs[j]
  {
    hide Apply, Legal, DbLive, WorldSpaced, Terminal;
    if more == [] {
      assert first + more == first;
    } else {
      var n := |more| - 1;
      var steps, before := first + more, first + more[..n];
      assert steps[..|steps| - 1] == before && steps[|steps| - 1] == more[n];
      TerminalIsForever(tenants, clock, first, more[..n], j);
      EveryLiveRunIsLive(tenants, clock, before);
      TerminalStep(After(Initial(tenants, clock), before), more[n], j);
    }
  }

  lemma AttemptsNumberedInLive(tenants: map<TenantId, nat>, clock: Time, steps: seq<Step>, a: AttemptId, b: AttemptId)
    requires IsRun(Initial(tenants, clock), steps, true)
    ensures var attempts := After(Initial(tenants, clock), steps).db.attempts;
      a in attempts && b in attempts ==> 1 <= a.number && b.number <= 4
  {
    LiveRunIsRun(Initial(tenants, clock), steps);
    AttemptsAreNumbered(tenants, clock, steps, a.job, a.number);
    AttemptsAreNumbered(tenants, clock, steps, b.job, b.number);
  }

  /** Retry spacing: in a live run each attempt starts no earlier than the end of the one before plus its delay. */
  lemma RetriesAreSpaced(tenants: map<TenantId, nat>, clock: Time, steps: seq<Step>, a: AttemptId, b: AttemptId)
    requires IsRun(Initial(tenants, clock), steps, true)
    requires a.job == b.job && b.number == a.number + 1
    ensures var attempts := After(Initial(tenants, clock), steps).db.attempts;
      a in attempts && b in attempts ==>
        && 1 <= a.number <= 3 && attempts[a].finishedAt.Some?
        && attempts[a].finishedAt.value + (if a.number == 1 then 3 * SECOND else if a.number == 2 then 5 * SECOND else 10 * SECOND)
          <= attempts[b].startedAt
  {
    hide After, IsRun, DbLive, EndsRecorded, DueAfterDelay, LettersLate;
    EveryLiveRunIsLive(tenants, clock, steps);
    var attempts := After(Initial(tenants, clock), steps).db.attempts;
    AttemptsNumberedInLive(tenants, clock, steps, a, b);
    assert a in attempts && b in attempts ==> DelayOver(attempts, a, attempts[b].startedAt);
  }

  /** In a live run a job whose retries are exhausted was tried for at least 18 seconds, in four attempts. */
  lemma GivenUpAfterAllDelays(tenants: map<TenantId, nat>, clock: Time, steps: seq<Step>, j: JobId)
    requires IsRun(Initial(tenants, clock), steps, true)
    ensures var db := After(Initial(tenants, clock), steps).db;
      j in db.deadLetters && db.deadLetters[j].reason.RetriesExhausted? ==>
        && db.deadLetters[j].lastAttempt == 4 && AttemptId(j, 1) in db.attempts
        && db.attempts[AttemptId(j, 1)].startedAt + 18 * SECOND <= db.deadLetters[j].createdAt
  {
    EveryLiveRunIsLive(tenants, clock, steps);
    var db := After(Initial(tenants, clock), steps).db;
    Letters(db);
  }

  /** In a live run the dead letters are those of the jobs that failed for good. */
  lemma LetterIffFailedForGood(tenants: map<TenantId, nat>, clock: Time, steps: seq<Step>, j: JobId)
    requires IsRun(Initial(tenants, clock), steps, true)
    ensures var db := After(Initial(tenants, clock), steps).db;
      j in db.deadLetters <==> j in db.jobs && db.jobs[j].status.FailedFinal?
  {
    EveryLiveRunIsLive(tenants, clock, steps);
    Letters(After(Initial(tenants, clock), steps).db);
  }

  // ---- Counting along a live run -------------------------------------------------------------

  /** How many steps of a run changed the status of `j`. */
  ghost function StatusChanges(w: World, steps: seq<Step>, j: JobId): nat {
    if steps == [] then 0
    else
      var before := steps[..|steps| - 1];
      var was, now := After(w, before).db.jobs, After(w, steps).db.jobs;
      StatusChanges(w, before, j) + if j in was && j in now && was[j].status != now[j].status then 1 else 0
  }

  /** How many steps of a run recovered `j` from the queue. */
  ghost function Recoveries(w: World, steps: seq<Step>, j: JobId): nat {
    if steps == [] then 0
    else
      var before := steps[..|steps| - 1];
      Recoveries(w, before, j) + if Recovers(After(w, before), steps[|steps| - 1], j) then 1 else 0
  }

  /** How many steps of a run took `j` out of the queue by recovering or cancelling it. */
  ghost function UnclaimedExits(w: World, steps: seq<Step>, j: JobId): nat {
    if steps == [] then 0
    else
      var before := steps[..|steps| - 1];
      UnclaimedExits(w, before, j) + if Delivery.LeavesQueue(After(w, before), steps[|steps| - 1], j) then 1 else 0
  }

  /** The most status changes still ahead of a job that is not recovered again. */
  function ChangesLeft(job: Job): int {
    match job.status
    case Waiting => 5 * (3 - job.attemptCount) + 4
    case Queued => 5 * (3 - job.attemptCount) + 3
    case Executing => 5 * (MAX_ATTEMPTS - job.attemptCount) + 2
    case CancelRequested => 5 * (MAX_ATTEMPTS - job.attemptCount) + 1
    case RetryWait => 5 * (MAX_ATTEMPTS - job.attemptCount)
    case Succeeded | FailedFinal | Cancelled => 0
  }

  /** The measure drops with every status change, save that a recovery raises it by one. */
  lemma ChangesLeftStep(w: World, s: Step, j: JobId)
    requires DbLive(w.db) && Legal(w, s, true) && j in w.db.jobs
    ensures var after := Apply(w.db, s).jobs;
      && j in after && 0 <= ChangesLeft(after[j])
      && ChangesLeft(after[j]) + (if after[j].status != w.db.jobs[j].status then 1 else 0)
        <= ChangesLeft(w.db.jobs[j]) + (if Recovers(w, s, j) then 2 else 0)
  {
    hide DbSafe, SoleRunning, LettersExact, CountersExact, Apply, Legal;
    LiveIsLegal(w, s);
    Slots(w.db);
    Fits(w.db, j);
    LiveMoves(w, s, j);
    StepSafe(w, s);
    Fits(Apply(w.db, s), j);
  }

  lemma NewJobHasNoPast(w: World, s: Step, j: JobId)
    requires DbSafe(w.db) && Legal(w, s, false) && j !in w.db.jobs && j in Apply(w.db, s).jobs
    ensures ChangesLeft(Apply(w.db, s).jobs[j]) == 19 && !Apply(w.db, s).jobs[j].status.Queued?
    ensures Apply(w.db, s).jobs[j].attemptCount == 0
  {
    hide DbSafe, Apply, Legal;
    NewJobIsFresh(w, s, j);
  }

  lemma {:induction false} AbsentJobNeverChanged(w: World, steps: seq<Step>, j: JobId)
    requires IsRun(w, steps, false) && DbSafe(w.db) && j !in After(w, steps).db.jobs
    ensures StatusChanges(w, steps, j) == 0 && Recoveries(w, steps, j) == 0 && UnclaimedExits(w, steps, j) == 0
    ensures DbSafe(After(w, steps).db)
  {
    if steps != [] {
      var before, s := steps[..|steps| - 1], steps[|steps| - 1];
      hide DbSafe, Apply, Legal;
      RunKeepsSafe(w, before);
      Slots(After(w, before).db);
      if j in After(w, before).db.jobs {
        Steps.JobStep(After(w, before), s, j);
      }
      AbsentJobNeverChanged(w, before, j);
      StepSafe(After(w, before), s);
    }
  }

  lemma {:induction false} RunKeepsSafe(w: World, steps: seq<Step>)
    requires IsRun(w, steps, false) && DbSafe(w.db)
    ensures DbSafe(After(w, steps).db)
  {
    hide DbSafe, Apply, Legal;
    if steps != [] {
      RunKeepsSafe(w, steps[..|steps| - 1]);
      StepSafe(After(w, steps[..|steps| - 1]), steps[|steps| - 1]);
    }
  }

  /** Termination: in a live run a job that was recovered r times changed status at most 19 + 2r times. */
  lemma {:induction false} StatusChangesBounded(tenants: map<TenantId, nat>, clock: Time, steps: seq<Step>, j: JobId)
    requires IsRun(Initial(tenants, clock), steps, true)
    ensures var start := Initial(tenants, clock);
      var jobs := After(start, steps).db.jobs;
      j in jobs ==>
        && 0 <= ChangesLeft(jobs[j])
        && StatusChanges(start, steps, j) + ChangesLeft(jobs[j]) <= 19 + 2 * Recoveries(start, steps, j)
  {
    var start := Initial(tenants, clock);
    if steps != [] && j in After(start, steps).db.jobs {
      var before, s := steps[..|steps| - 1], steps[|steps| - 1];
      StatusChangesBounded(tenants, clock, before, j);
      EveryLiveRunIsLive(tenants, clock, before);
      var w := After(start, before);
      hide Apply, Legal, DbSafe, SoleRunning, LettersExact, CountersExact, WorldSpaced, ChangesLeft;
      if j in w.db.jobs {
        ChangesLeftStep(w, s, j);
      } else {
        LiveIsLegal(w, s);
        LiveRunIsRun(start, before);
        InitialLive(tenants, clock);
        AbsentJobNeverChanged(start, before, j);
        NewJobHasNoPast(w, s, j);
      }
    }
  }

  /** One event per dispatch: in a live run the events of a job are its attempts, its exits from the queue
    * by recovery or cancellation, and the one it waits on if it is queued. Messages that come twice, late
    * or out of order therefore never start a second attempt for a dispatch.
    */
  lemma {:induction false} OneEventPerDispatch(tenants: map<TenantId, nat>, clock: Time, steps: seq<Step>, j: JobId)
    requires IsRun(Initial(tenants, clock), steps, true)
    ensures var start := Initial(tenants, clock);
      var db := After(start, steps).db;
      j in db.jobs ==>
        Delivery.Events(db.outbox, j)
          == db.jobs[j].attemptCount + UnclaimedExits(start, steps, j) + Delivery.QueuedOne(db.jobs[j])
  {
    var start := Initial(tenants, clock);
    if steps != [] && j in After(start, steps).db.jobs {
      var before, s := steps[..|steps| - 1], steps[|steps| - 1];
      OneEventPerDispatch(tenants, clock, before, j);
      EveryLiveRunIsLive(tenants, clock, before);
      var w := After(start, before);
      hide Apply, Legal, DbSafe, SoleRunning, LettersExact, CountersExact, WorldSpaced;
      if j in w.db.jobs {
        Delivery.EventBalance(w, s, j);
      } else {
        LiveIsLegal(w, s);
        LiveRunIsRun(start, before);
        InitialLive(tenants, clock);
        AbsentJobNeverChanged(start, before, j);
        NewJobHasNoPast(w, s, j);
        NoEventsBefore(w, s, j);
      }
    }
  }

  lemma {:induction false} NoEventsOf(outbox: seq<OutboxRow>, j: JobId)
    requires forall e :: 0 <= e < |outbox| ==> outbox[e].job != j
    ensures Delivery.Events(outbox, j) == 0
  {
    if outbox != [] {
      NoEventsOf(outbox[..|outbox| - 1], j);
    }
  }

  lemma NoEventsBefore(w: World, s: Step, j: JobId)
    requires DbSafe(w.db) && Legal(w, s, false) && j !in w.db.jobs && j in Apply(w.db, s).jobs
    ensures Delivery.Events(Apply(w.db, s).outbox, j) == 0
  {
    assert OutboxMatches(w.db.jobs, w.db.outbox);
    Slots(w.db);
    hide DbSafe, Apply, Legal;
    Steps.NewJobStep(w, s, j);
    Steps.OutboxStep(w, s);
    NoEventsOf(w.db.outbox, j);
  }
}
