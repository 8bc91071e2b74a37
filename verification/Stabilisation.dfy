/** The reaper brings any reachable state, however damaged, back to a clean one. */
module Stabilisation {
  import opened Tables
  import opened Protocol
  import opened Safety
  import opened Reconciliation
  import Dispatcher
  import Execution
  import Failure
  import Runs
  import SchedulerState
  import Steps
  import Timing

  ghost function RunningSet(db: Db): set<AttemptId> {
    set a | a in db.attempts && db.attempts[a].status.Running?
  }

  ghost function QueuedSet(db: Db): set<JobId> {
    set j | j in db.jobs && db.jobs[j].status.Queued?
  }

  /** Every lease of a running attempt and every reservation ended before `now`. */
  ghost predicate AllExpired(db: Db, now: Time) {
    && (forall a :: a in db.attempts && db.attempts[a].status.Running? ==> db.attempts[a].leaseExpiresAt < now)
    && (forall j :: j in db.reservations ==> db.reservations[j].expiresAt < now)
  }

  /** Nothing runs, nothing is queued, and no slot, lock or count is left over. */
  ghost predicate Clean(db: Db) {
    && (forall j :: j in db.jobs ==> !Active(db.jobs[j].status))
    && RunningSet(db) == {} && db.reservations == map[] && db.locks == map[]
    && (forall t :: t in db.sched ==> db.sched[t].active == 0)
  }

  /** `after` has no running attempt, reservation or queued job that `db` does not have. */
  ghost predicate Narrower(db: Db, after: Db) {
    && (forall a :: a in RunningSet(after) ==> a in RunningSet(db) && after.attempts[a] == db.attempts[a])
    && (forall j :: j in after.reservations ==> j in db.reservations && after.reservations[j] == db.reservations[j])
    && QueuedSet(after) <= QueuedSet(db)
  }

  lemma NarrowerExpired(db: Db, after: Db, now: Time, later: Time)
    requires Narrower(db, after) && AllExpired(db, now) && now <= later
    ensures AllExpired(after, later)
  {
    forall a | a in after.attempts && after.attempts[a].status.Running?
      ensures after.attempts[a].leaseExpiresAt < later
    {
      assert a in RunningSet(after);
    }
  }

  lemma NarrowerTwice(a: Db, b: Db, c: Db)
    requires Narrower(a, b) && Narrower(b, c)
    ensures Narrower(a, c)
  {
  }

  // ---- One transaction -----------------------------------------------------------------------

  /** In a safe state every row that a recovery reads is there. */
  lemma ReapNeverRaises(db: Db, a: AttemptId)
    requires DbSafe(db) && a in db.attempts
    ensures !ReapRaises(db, a) && Execution.Finishable(db, a)
  {
    AttemptIsCounted(db, a);
    Fits(db, a.job);
  }

  lemma ReapEffect(db: Db, a: AttemptId, now: Time)
    requires DbSafe(db) && a in RunningSet(db)
    ensures var after := Reaped(db, a, now);
      DbSafe(after) && Narrower(db, after) && RunningSet(after) == RunningSet(db) - {a} && after.tenants == db.tenants
  {
    hide DbSafe;
    ReapNeverRaises(db, a);
    ReapSafe(db, a, now);
    ReapedNarrows(db, a, now);
  }

  lemma ReapedNarrows(db: Db, a: AttemptId, now: Time)
    requires RunningAttempt(db, a) && Execution.Finishable(db, a)
    ensures var after := Reaped(db, a, now);
      Narrower(db, after) && RunningSet(after) == RunningSet(db) - {a} && after.tenants == db.tenants
  {
    Steps.ReapedRows(db, a, now);
    hide Failure.SettledLetters;
    var after := Reaped(db, a, now);
    assert after.attempts == db.attempts[a := AbandonedAttempt(db.attempts[a], now)];
    assert after.reservations == db.reservations - {a.job};
    assert !after.jobs[a.job].status.Queued?;
  }

  lemma RecoverEffect(db: Db, j: JobId, now: Time)
    requires DbSafe(db) && j in QueuedSet(db)
    ensures var after := Recovered(db, j, now);
      !Execution.NoWayOut(db, j) && DbSafe(after) && Narrower(db, after) && QueuedSet(after) == QueuedSet(db) - {j}
      && RunningSet(after) == RunningSet(db)
  {
    hide DbSafe;
    Fits(db, j);
    RecoverSafe(db, j, now);
    RecoveredNarrows(db, j, now);
  }

  lemma RecoveredNarrows(db: Db, j: JobId, now: Time)
    requires j in db.jobs && db.jobs[j].status.Queued? && db.jobs[j].tenant in db.sched
    ensures var after := Recovered(db, j, now);
      Narrower(db, after) && QueuedSet(after) == QueuedSet(db) - {j} && RunningSet(after) == RunningSet(db)
  {
    hide SchedulerState.RefreshedRow;
    Steps.RecoveredRows(db, j, now);
    var after := Recovered(db, j, now);
    assert after.reservations == db.reservations - {j};
  }

  // ---- One pass ------------------------------------------------------------------------------

  lemma {:induction false} ReapedAllEffect(db: Db, rows: seq<AttemptId>, now: Time)
    requires DbSafe(db) && forall a :: a in rows ==> a in RunningSet(db)
    requires forall i, k :: 0 <= i < k < |rows| ==> rows[i] != rows[k]
    ensures var p := ReapedAll(db, rows, now);
      p.ok && DbSafe(p.db) && Narrower(db, p.db) && RunningSet(p.db) == RunningSet(db) - Elements(rows)
  {
    hide DbSafe, RunningSet, QueuedSet, Reaped, ReapRaises;
    if rows == [] {
      NarrowerSelf(db);
      assert RunningSet(db) == RunningSet(db) - Elements(rows);
    } else {
      var n := |rows| - 1;
      assert forall a :: a in rows[..n] ==> a in rows;
      ReapedAllEffect(db, rows[..n], now);
      var p := ReapedAll(db, rows[..n], now);
      assert rows[n] in rows && rows[n] !in rows[..n];
      assert rows[n] in RunningSet(p.db);
      RunningIsAttempt(p.db, rows[n]);
      ReapNeverRaises(p.db, rows[n]);
      ReapEffect(p.db, rows[n], now);
      NarrowerTwice(db, p.db, Reaped(p.db, rows[n], now));
      assert rows == rows[..n] + [rows[n]];
      assert Elements(rows) == Elements(rows[..n]) + {rows[n]};
    }
  }

  lemma RunningIsAttempt(db: Db, a: AttemptId)
    requires a in RunningSet(db)
    ensures RunningAttempt(db, a)
  {
  }

  lemma NarrowerSelf(db: Db)
    ensures Narrower(db, db)
  {
  }

  lemma {:induction false} RecoveredAllEffect(db: Db, rows: seq<JobId>, now: Time)
    requires DbSafe(db) && forall j :: j in rows ==> j in QueuedSet(db)
    requires forall i, k :: 0 <= i < k < |rows| ==> rows[i] != rows[k]
    ensures var p := RecoveredAll(db, rows, now);
      p.ok && DbSafe(p.db) && Narrower(db, p.db) && QueuedSet(p.db) == QueuedSet(db) - Elements(rows) && RunningSet(p.db) == RunningSet(db)
  {
    hide DbSafe, RunningSet, QueuedSet, Recovered, Execution.NoWayOut;
    if rows == [] {
      NarrowerSelf(db);
      assert QueuedSet(db) == QueuedSet(db) - Elements(rows);
    } else {
      var n := |rows| - 1;
      assert forall j :: j in rows[..n] ==> j in rows;
      RecoveredAllEffect(db, rows[..n], now);
      var p := RecoveredAll(db, rows[..n], now);
      assert rows[n] in rows && rows[n] !in rows[..n];
      RecoverEffect(p.db, rows[n], now);
      NarrowerTwice(db, p.db, Recovered(p.db, rows[n], now));
      assert rows == rows[..n] + [rows[n]];
      assert Elements(rows) == Elements(rows[..n]) + {rows[n]};
    }
  }

  lemma ExpiredAttemptsAre(db: Db, now: Time)
    ensures ExpiredAttempts(db, now).Keys <= RunningSet(db)
    ensures forall a :: a in ExpiredAttempts(db, now) ==> db.attempts[a].leaseExpiresAt < now
    ensures AllExpired(db, now) ==> ExpiredAttempts(db, now).Keys == RunningSet(db)
    ensures |ExpiredAttempts(db, now)| == |ExpiredAttempts(db, now).Keys|
  {
  }

  lemma ExpiredQueuedAre(db: Db, now: Time)
    requires DbSafe(db)
    ensures ExpiredQueued(db, now).Keys <= QueuedSet(db)
    ensures AllExpired(db, now) ==> ExpiredQueued(db, now).Keys == QueuedSet(db)
    ensures |ExpiredQueued(db, now)| == |ExpiredQueued(db, now).Keys|
  {
    Slots(db);
    hide DbSafe;
  }

  /** A pass of the reaper never fails, keeps the state safe, and takes `limit` running attempts and up to
    * `limit` queued jobs off the books, all whose time is up.
    */
  lemma PassEffect(db: Db, attempts: seq<AttemptId>, queued: seq<JobId>, limit: nat, now: Time)
    requires DbSafe(db) && PassRows(db, attempts, queued, limit, now)
    ensures var p := Reconciled(db, attempts, queued, now);
      && p.ok && DbSafe(p.db) && Narrower(db, p.db)
      && RunningSet(p.db) == RunningSet(db) - Elements(attempts) && Elements(attempts) <= ExpiredAttempts(db, now).Keys
      && (AllExpired(db, now) ==>
            |RunningSet(p.db)| == Less(|RunningSet(db)|, limit) && |QueuedSet(p.db)| <= Less(|QueuedSet(db)|, limit))
  {
    hide DbSafe, RunningSet, QueuedSet, ExpiredAttempts, ExpiredQueued, ReapedAll, RecoveredAll, IsPage, AllExpired, Narrower;
    ExpiredAttemptsAre(db, now);
    PageOf(attempts, ExpiredAttempts(db, now), limit);
    ReapedAllEffect(db, attempts, now);
    var mid := ReapedAll(db, attempts, now).db;
    ExpiredQueuedAre(mid, now);
    PageOf(queued, ExpiredQueued(mid, now), limit);
    RecoveredAllEffect(mid, queued, now);
    var after := RecoveredAll(mid, queued, now).db;
    NarrowerTwice(db, mid, after);
    if AllExpired(db, now) {
      NarrowerExpired(db, mid, now, now);
      LessWithout(RunningSet(db), Elements(attempts), limit);
      LessWithout(QueuedSet(mid), Elements(queued), limit);
      NarrowerQueued(db, mid);
    }
  }

  lemma NarrowerQueued(db: Db, after: Db)
    requires Narrower(db, after)
    ensures |QueuedSet(after)| <= |QueuedSet(db)|
  {
    SubsetCount(QueuedSet(after), QueuedSet(db));
  }

  /** A pass abandons only attempts whose last heartbeat is more than 300 seconds old. */
  lemma OnlyExpiredAreAbandoned(w: World, attempts: seq<AttemptId>, queued: seq<JobId>, limit: nat, now: Time, a: AttemptId)
    requires DbSafe(w.db) && Timing.LeasesMatch(w) && PassRows(w.db, attempts, queued, limit, now)
    requires a in RunningSet(w.db)
    ensures a !in RunningSet(Reconciled(w.db, attempts, queued, now).db) ==> w.db.attempts[a].heartbeatAt + 300 * SECOND < now
  {
    hide DbSafe, PassRows, Reconciled;
    PassEffect(w.db, attempts, queued, limit, now);
    ExpiredAttemptsAre(w.db, now);
    assert Timing.LeaseFits(w.db.attempts[a], w.clock);
  }

  // ---- Repeated passes -----------------------------------------------------------------------

  datatype Pass = Pass(now: Time, attempts: seq<AttemptId>, queued: seq<JobId>)

  ghost function AfterPasses(db: Db, passes: seq<Pass>): Db {
    if passes == [] then db
    else Reconciled(AfterPasses(db, passes[..|passes| - 1]), passes[|passes| - 1].attempts, passes[|passes| - 1].queued, passes[|passes| - 1].now).db
  }

  /** The reaper runs again and again, from time `since` on, and no other step does. */
  ghost predicate ArePasses(db: Db, passes: seq<Pass>, limit: nat, since: Time) {
    passes == [] ||
    (var last := passes[|passes| - 1];
     && ArePasses(db, passes[..|passes| - 1], limit, since) && since <= last.now
     && PassRows(AfterPasses(db, passes[..|passes| - 1]), last.attempts, last.queued, limit, last.now))
  }

  lemma {:induction false} PassesShrink(db: Db, passes: seq<Pass>, limit: nat, since: Time)
    requires DbSafe(db) && AllExpired(db, since) && ArePasses(db, passes, limit, since)
    ensures var after := AfterPasses(db, passes);
      && DbSafe(after) && Narrower(db, after)
      && |RunningSet(after)| <= Less(|RunningSet(db)|, |passes| * limit)
      && |QueuedSet(after)| <= Less(|QueuedSet(db)|, |passes| * limit)
  {
    hide DbSafe, RunningSet, QueuedSet, AllExpired, PassRows, Reconciled, Narrower;
    if passes == [] {
      NarrowerSelf(db);
    } else {
      var n := |passes| - 1;
      var p := passes[n];
      PassesShrink(db, passes[..n], limit, since);
      var before := AfterPasses(db, passes[..n]);
      NarrowerExpired(db, before, since, p.now);
      PassEffect(before, p.attempts, p.queued, limit, p.now);
      NarrowerTwice(db, before, AfterPasses(db, passes));
      LessAgain(|RunningSet(db)|, limit, n + 1, |RunningSet(before)|);
      LessAgain(|QueuedSet(db)|, limit, n + 1, |QueuedSet(before)|);
    }
  }

  lemma ClaimedJobRuns(db: Db)
    requires DbSafe(db)
    ensures forall j :: j in db.jobs && InHand(db.jobs[j].status) ==> AttemptId(j, db.jobs[j].attemptCount) in RunningSet(db)
    ensures forall j :: j in db.jobs && db.jobs[j].status.Queued? ==> j in QueuedSet(db)
  {
    assert forall j :: j in db.jobs && InHand(db.jobs[j].status) ==> LatestRuns(j, db.jobs[j], db.attempts);
  }

  lemma EmptyIsClean(db: Db)
    requires DbSafe(db) && RunningSet(db) == {} && QueuedSet(db) == {}
    ensures Clean(db)
  {
    ClaimedJobRuns(db);
    assert SlotsMatch(db.jobs, db.reservations) && LocksMatch(db.jobs, db.locks);
    assert forall j :: j in db.jobs ==> !Active(db.jobs[j].status);
    assert db.reservations.Keys == {};
    assert db.locks.Keys == {};
    NoneHeld(db);
  }

  lemma NoneHeld(db: Db)
    requires CountersBounded(db.tenants, db.reservations, db.sched) && db.reservations.Keys == {}
    ensures forall t :: t in db.sched ==> db.sched[t].active == 0
  {
    forall t | t in db.sched ensures db.sched[t].active == 0 {
      assert Held(db.reservations, t) == {};
    }
  }

  /** Self-stabilisation: from any world that any run reaches, late workers included, once every lease and
    * reservation is over, enough passes for the running attempts and the queued jobs leave nothing behind.
    */
  lemma ReaperCleansUp(tenants: map<TenantId, nat>, clock: Time, steps: seq<Step>, passes: seq<Pass>, limit: nat, since: Time)
    requires IsRun(Initial(tenants, clock), steps, false)
    requires var db := After(Initial(tenants, clock), steps).db;
      && AllExpired(db, since) && ArePasses(db, passes, limit, since)
      && |RunningSet(db)| <= |passes| * limit && |QueuedSet(db)| <= |passes| * limit
    ensures Clean(AfterPasses(After(Initial(tenants, clock), steps).db, passes))
  {
    hide DbSafe, RunningSet, QueuedSet, AllExpired, ArePasses, AfterPasses, Clean, After, Narrower;
    Runs.EveryRunIsSafe(tenants, clock, steps);
    var db := After(Initial(tenants, clock), steps).db;
    PassesShrink(db, passes, limit, since);
    EmptyIsClean(AfterPasses(db, passes));
  }

  // ---- What the theorem is good for ----------------------------------------------------------

  /** In a clean state nothing is blocked: a tenant that may run a job at all and has one that is due, and not
    * locked by another transaction, gets a dispatch.
    */
  lemma CleanTenantDispatches(db: Db, t: TenantId, rows: seq<JobId>, skipped: set<JobId>, now: Time)
    requires DbSafe(db) && Clean(db) && t in db.sched && t in db.tenants && db.tenants[t] >= 1
    requires IsPage(rows, Dispatcher.Candidates(db, t, now, skipped), Dispatcher.CANDIDATE_LIMIT)
    requires Dispatcher.Candidates(db, t, now, skipped) != map[]
    ensures forall j :: j in rows ==> j in db.jobs
    ensures Dispatcher.Choice(db, t, rows).Some? && !Dispatcher.CollidesOnReservation(db, t, rows)
    ensures |rows| > 0 && Dispatcher.Choice(db, t, rows).value == rows[0]
  {
    var pool := Dispatcher.Candidates(db, t, now, skipped);
    assert Dispatcher.HasCapacity(db, t) && db.locks == map[] && db.reservations == map[];
    hide DbSafe, Clean;
    assert |pool| > 0 && rows[0] in rows;
    assert Dispatcher.Free(db, rows[0]);
    Dispatcher.ChosenFirst(db, rows, 0);
  }

  /** The latest of finitely many instants. */
  lemma {:induction false} SomeBound(times: set<Time>) returns (bound: Time)
    ensures forall x :: x in times ==> x < bound
    decreases |times|
  {
    if x :| x in times {
      var others := SomeBound(times - {x});
      bound := if x < others then others else x + 1;
      forall y | y in times
        ensures y < bound
      {
        assert y == x || y in times - {x};
      }
    } else {
      bound := 0;
    }
  }

  /** Every lease and reservation is over at some time. */
  lemma AllExpireSometime(db: Db, clock: Time) returns (since: Time)
    ensures clock <= since && AllExpired(db, since)
  {
    var leases := set a | a in db.attempts :: db.attempts[a].leaseExpiresAt;
    var slots := set j | j in db.reservations :: db.reservations[j].expiresAt;
    var bound := SomeBound(leases + slots);
    assert forall a :: a in db.attempts ==> db.attempts[a].leaseExpiresAt in leases;
    assert forall j :: j in db.reservations ==> db.reservations[j].expiresAt in slots;
    since := if clock <= bound then bound else clock;
  }

  /** The reaper can make any number of passes at any time. */
  lemma {:induction false} PassesExist(db: Db, n: nat, limit: nat, since: Time) returns (passes: seq<Pass>)
    ensures |passes| == n && ArePasses(db, passes, limit, since)
  {
    if n == 0 {
      passes := [];
    } else {
      var before := PassesExist(db, n - 1, limit, since);
      var mid := AfterPasses(db, before);
      var attempts := PageExists(ExpiredAttempts(mid, since), limit);
      var queued := PageExists(ExpiredQueued(ReapedAll(mid, attempts, since).db, since), limit);
      passes := before + [Pass(since, attempts, queued)];
      hide IsPage, ReapedAll, ExpiredAttempts, ExpiredQueued;
      assert passes[..|passes| - 1] == before;
    }
  }

  /** How many batches of `limit` rows it takes for `total` of them. */
  function Batches(total: nat, limit: nat): (n: nat)
    requires limit >= 1
    ensures total <= n * limit
    ensures n > 0 ==> (n - 1) * limit < total
  {
    if total <= limit then
      if total == 0 then 0 else 1
    else
      var n := Batches(total - limit, limit);
      assert (n + 1) * limit == n * limit + limit;
      n + 1
  }

  lemma MoreBatches(total: nat, n: nat, more: nat, limit: nat)
    requires total <= n * limit && n <= more
    ensures total <= more * limit
  {
    assert more * limit == n * limit + (more - n) * limit;
  }

  /** The system can always recover: from any world that any run reaches there is a time from which as many
    * passes as the running attempts or the queued jobs fill, whichever is more, exist and clean up.
    */
  lemma ReaperCanCleanUp(tenants: map<TenantId, nat>, clock: Time, steps: seq<Step>, limit: nat)
    returns (since: Time, passes: seq<Pass>)
    requires IsRun(Initial(tenants, clock), steps, false) && limit >= 1
    ensures var w := After(Initial(tenants, clock), steps);
      var running, queued := Batches(|RunningSet(w.db)|, limit), Batches(|QueuedSet(w.db)|, limit);
      && w.clock <= since && |passes| == (if running <= queued then queued else running)
      && ArePasses(w.db, passes, limit, since) && Clean(AfterPasses(w.db, passes))
  {
    hide DbSafe, RunningSet, QueuedSet, AllExpired, ArePasses, AfterPasses, Clean, After, IsRun, Batches;
    var w := After(Initial(tenants, clock), steps);
    since := AllExpireSometime(w.db, w.clock);
    var running, queued := Batches(|RunningSet(w.db)|, limit), Batches(|QueuedSet(w.db)|, limit);
    var n := if running <= queued then queued else running;
    passes := PassesExist(w.db, n, limit, since);
    MoreBatches(|RunningSet(w.db)|, running, n, limit);
    MoreBatches(|QueuedSet(w.db)|, queued, n, limit);
    ReaperCleansUp(tenants, clock, steps, passes, limit, since);
  }
}
