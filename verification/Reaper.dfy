/** What one pass of the reaper takes, and what it leaves alone. */
module Reaper {
  import opened Tables
  import opened Protocol
  import opened Safety
  import opened Reconciliation
  import opened Stabilisation
  import Effects
  import Execution
  import Live
  import Reservations
  import Runs

  /** One of the attempts is of job `j`. */
  ghost predicate AttemptOf(attempts: seq<AttemptId>, j: JobId) {
    exists a :: a in attempts && a.job == j
  }

  lemma ReapedJob(db: Db, a: AttemptId, now: Time, j: JobId)
    requires DbSafe(db) && a in RunningSet(db) && j in db.jobs
    ensures var after := Reaped(db, a, now);
      && j in after.jobs
      && (if a.job == j then after.jobs[j].status == RetryWait || after.jobs[j].status == FailedFinal
          else after.jobs[j] == db.jobs[j])
  {
    hide DbSafe, Reaped, Effects.SlotGivenUp;
    RunningIsAttempt(db, a);
    ReapNeverRaises(db, a);
    Effects.ReapLeaves(db, a, now);
  }

  lemma {:induction false} ReapedAllJob(db: Db, rows: seq<AttemptId>, now: Time, j: JobId)
    requires DbSafe(db) && (forall a :: a in rows ==> a in RunningSet(db)) && j in db.jobs
    requires forall i, k :: 0 <= i < k < |rows| ==> rows[i] != rows[k]
    ensures var after := ReapedAll(db, rows, now).db;
      && j in after.jobs
      && (if AttemptOf(rows, j) then after.jobs[j].status == RetryWait || after.jobs[j].status == FailedFinal
          else after.jobs[j] == db.jobs[j])
  {
    hide DbSafe, RunningSet, Reaped, ReapRaises;
    if rows != [] {
      var n := |rows| - 1;
      assert forall a :: a in rows[..n] ==> a in rows;
      ReapedAllJob(db, rows[..n], now, j);
      ReapedAllEffect(db, rows[..n], now);
      var p := ReapedAll(db, rows[..n], now);
      assert rows[n] in rows && rows[n] !in rows[..n];
      assert rows[n] in RunningSet(p.db);
      RunningIsAttempt(p.db, rows[n]);
      ReapNeverRaises(p.db, rows[n]);
      ReapedJob(p.db, rows[n], now, j);
      assert rows == rows[..n] + [rows[n]];
      assert AttemptOf(rows, j) <==> AttemptOf(rows[..n], j) || rows[n].job == j;
    }
  }

  lemma {:induction false} RecoveredAllJob(db: Db, rows: seq<JobId>, now: Time, j: JobId)
    requires DbSafe(db) && (forall i :: i in rows ==> i in QueuedSet(db)) && j in db.jobs
    requires forall i, k :: 0 <= i < k < |rows| ==> rows[i] != rows[k]
    ensures var after := RecoveredAll(db, rows, now).db;
      && j in after.jobs
      && after.jobs[j] == (if j in rows then db.jobs[j].(status := Waiting, readySince := now) else db.jobs[j])
  {
    hide DbSafe, Recovered, Execution.NoWayOut, Effects.SlotGivenUp;
    if rows != [] {
      var n := |rows| - 1;
      assert forall i :: i in rows[..n] ==> i in rows;
      RecoveredAllJob(db, rows[..n], now, j);
      RecoveredAllEffect(db, rows[..n], now);
      var p := RecoveredAll(db, rows[..n], now);
      assert rows[n] in rows && rows[n] !in rows[..n];
      assert rows[n] in QueuedSet(p.db);
      RecoverEffect(p.db, rows[n], now);
      Fits(p.db, rows[n]);
      Effects.RecoverLeaves(p.db, rows[n], now);
      assert rows == rows[..n] + [rows[n]];
    }
  }

  lemma ListedAttempts(db: Db, attempts: seq<AttemptId>, limit: nat, now: Time)
    requires IsPage(attempts, ExpiredAttempts(db, now), limit)
    ensures forall a :: a in attempts ==> a in RunningSet(db) && db.attempts[a].leaseExpiresAt < now
    ensures forall i, k :: 0 <= i < k < |attempts| ==> attempts[i] != attempts[k]
  {
  }

  lemma ListedQueued(db: Db, queued: seq<JobId>, limit: nat, now: Time)
    requires IsPage(queued, ExpiredQueued(db, now), limit)
    ensures forall j :: j in queued ==> j in QueuedSet(db) && j in db.reservations && db.reservations[j].expiresAt < now
    ensures forall i, k :: 0 <= i < k < |queued| ==> queued[i] != queued[k]
  {
  }

  /** What becomes of a queued job in a pass: it waits again exactly when the pass lists it, which takes an
    * expired reservation; it fails exactly when the pass lists an attempt of it, which takes an expired
    * lease; and otherwise it is left exactly as it was.
    */
  lemma QueuedJobInPass(db: Db, attempts: seq<AttemptId>, queued: seq<JobId>, limit: nat, now: Time, j: JobId)
    requires DbSafe(db) && PassRows(db, attempts, queued, limit, now) && j in db.jobs && db.jobs[j].status == Queued
    ensures var after := Reconciled(db, attempts, queued, now).db;
      && j in after.jobs
      && (after.jobs[j].status == Waiting <==> j in queued)
      && (after.jobs[j].status == RetryWait || after.jobs[j].status == FailedFinal <==> AttemptOf(attempts, j))
      && (j !in queued && !AttemptOf(attempts, j) ==> after.jobs[j] == db.jobs[j])
    ensures j in queued ==> j in db.reservations && db.reservations[j].expiresAt < now
    ensures forall a :: a in attempts ==> RunningAttempt(db, a) && db.attempts[a].leaseExpiresAt < now
  {
    hide DbSafe, IsPage, ReapedAll, RecoveredAll, ExpiredAttempts, ExpiredQueued, AttemptOf;
    ListedAttempts(db, attempts, limit, now);
    ReapedAllEffect(db, attempts, now);
    ReapedAllJob(db, attempts, now, j);
    var mid := ReapedAll(db, attempts, now).db;
    ListedQueued(mid, queued, limit, now);
    RecoveredAllJob(mid, queued, now, j);
  }

  // ---- Over runs -----------------------------------------------------------------------------

  /** In every run a pass takes back only jobs that were queued more than 300 seconds ago. */
  lemma OnlyOldAreRecovered(tenants: map<TenantId, nat>, clock: Time, steps: seq<Step>,
                            attempts: seq<AttemptId>, queued: seq<JobId>, limit: nat, now: Time, j: JobId)
    requires IsRun(Initial(tenants, clock), steps, false)
    requires var db := After(Initial(tenants, clock), steps).db;
      PassRows(db, attempts, queued, limit, now) && j in db.jobs && db.jobs[j].status == Queued
    ensures var db := After(Initial(tenants, clock), steps).db;
      var after := Reconciled(db, attempts, queued, now).db;
      && j in after.jobs
      && (after.jobs[j].status == Waiting ==> db.jobs[j].queuedAt.Some? && db.jobs[j].queuedAt.value + 300 * SECOND < now)
  {
    hide DbSafe, PassRows, Reconciled, After, IsRun;
    Runs.EveryRunIsSafe(tenants, clock, steps);
    Reservations.QueuedSlotsLast(tenants, clock, steps, j);
    QueuedJobInPass(After(Initial(tenants, clock), steps).db, attempts, queued, limit, now, j);
  }

  lemma NoAttemptOfQueued(db: Db, attempts: seq<AttemptId>, j: JobId)
    requires Live.SoleRunning(db.jobs, db.attempts) && j in db.jobs && db.jobs[j].status == Queued
    requires forall a :: a in attempts ==> RunningAttempt(db, a)
    ensures !AttemptOf(attempts, j)
  {
  }

  /** In a live run a pass leaves every job alone, in all its columns, that was queued within 300 seconds. */
  lemma FreshlyQueuedIsLeftAlone(tenants: map<TenantId, nat>, clock: Time, steps: seq<Step>,
                                 attempts: seq<AttemptId>, queued: seq<JobId>, limit: nat, now: Time, j: JobId)
    requires IsRun(Initial(tenants, clock), steps, true)
    requires var db := After(Initial(tenants, clock), steps).db;
      && PassRows(db, attempts, queued, limit, now) && j in db.jobs && db.jobs[j].status == Queued
      && (db.jobs[j].queuedAt.Some? ==> now <= db.jobs[j].queuedAt.value + 300 * SECOND)
    ensures var db := After(Initial(tenants, clock), steps).db;
      var after := Reconciled(db, attempts, queued, now).db;
      j in after.jobs && after.jobs[j] == db.jobs[j]
  {
    hide DbSafe, PassRows, Reconciled, After, IsRun, AttemptOf, Live.SoleRunning;
    Runs.EveryLiveRunIsLive(tenants, clock, steps);
    Reservations.QueuedSlotsAreExact(tenants, clock, steps, j);
    var db := After(Initial(tenants, clock), steps).db;
    QueuedJobInPass(db, attempts, queued, limit, now, j);
    NoAttemptOfQueued(db, attempts, j);
  }

  // ---- A large enough pass takes all ----------------------------------------------------------

  lemma PageTakesAll<T(!new)>(rows: seq<T>, pool: map<T, Rank>, limit: nat)
    requires IsPage(rows, pool, limit) && |pool| <= limit
    ensures forall x :: x in pool ==> x in rows
  {
    PageOf(rows, pool, limit);
    assert |pool.Keys| == |pool|;
    SubsetCount(Elements(rows), pool.Keys);
    assert forall x :: x in pool ==> x in Elements(rows);
  }

  /** The attempts whose lease is over, and the queued jobs whose reservation is. */
  ghost function LeaseOver(db: Db, now: Time): set<AttemptId> {
    set a | a in db.attempts && db.attempts[a].status == Running && db.attempts[a].leaseExpiresAt < now
  }

  ghost function SlotOver(db: Db, now: Time): set<JobId> {
    set j | j in db.jobs && db.jobs[j].status == Queued && j in db.reservations && db.reservations[j].expiresAt < now
  }

  lemma AllAttemptsTaken(db: Db, after: Db, attempts: seq<AttemptId>, limit: nat, now: Time)
    requires IsPage(attempts, ExpiredAttempts(db, now), limit) && |LeaseOver(db, now)| <= limit
    requires Narrower(db, after) && RunningSet(after) == RunningSet(db) - Elements(attempts)
    ensures LeaseOver(after, now) == {}
  {
    assert ExpiredAttempts(db, now).Keys == LeaseOver(db, now);
    assert |ExpiredAttempts(db, now)| == |ExpiredAttempts(db, now).Keys|;
    PageTakesAll(attempts, ExpiredAttempts(db, now), limit);
    forall a
      ensures a !in LeaseOver(after, now)
    {
      assert a in LeaseOver(after, now) ==> a in RunningSet(after) && a in LeaseOver(db, now);
    }
  }

  lemma FewerSlotsOver(db: Db, mid: Db, now: Time)
    requires Narrower(db, mid)
    ensures |ExpiredQueued(mid, now)| <= |SlotOver(db, now)|
  {
    var pool := ExpiredQueued(mid, now);
    forall j | j in pool
      ensures j in SlotOver(db, now)
    {
      assert j in QueuedSet(mid);
    }
    SubsetCount(pool.Keys, SlotOver(db, now));
    assert |pool| == |pool.Keys|;
  }

  lemma AllSlotsTaken(mid: Db, after: Db, queued: seq<JobId>, limit: nat, now: Time)
    requires IsPage(queued, ExpiredQueued(mid, now), limit) && |ExpiredQueued(mid, now)| <= limit
    requires Narrower(mid, after) && QueuedSet(after) == QueuedSet(mid) - Elements(queued)
    ensures SlotOver(after, now) == {}
  {
    PageTakesAll(queued, ExpiredQueued(mid, now), limit);
    forall j
      ensures j !in SlotOver(after, now)
    {
      assert j in SlotOver(after, now) ==> j in QueuedSet(after) && j in ExpiredQueued(mid, now);
    }
  }

  /** A pass whose limit covers what is overdue leaves nothing overdue. */
  lemma NothingOverdueIsLeft(db: Db, attempts: seq<AttemptId>, queued: seq<JobId>, limit: nat, now: Time)
    requires DbSafe(db) && PassRows(db, attempts, queued, limit, now)
    requires |LeaseOver(db, now)| <= limit && |SlotOver(db, now)| <= limit
    ensures var after := Reconciled(db, attempts, queued, now).db;
      LeaseOver(after, now) == {} && SlotOver(after, now) == {}
  {
    hide DbSafe, IsPage, ReapedAll, RecoveredAll, Narrower, ExpiredAttempts, ExpiredQueued, LeaseOver, SlotOver, RunningSet, QueuedSet;
    PassEffect(db, attempts, queued, limit, now);
    var after := Reconciled(db, attempts, queued, now).db;
    AllAttemptsTaken(db, after, attempts, limit, now);
    ListedAttempts(db, attempts, limit, now);
    ReapedAllEffect(db, attempts, now);
    var mid := ReapedAll(db, attempts, now).db;
    ListedQueued(mid, queued, limit, now);
    RecoveredAllEffect(mid, queued, now);
    FewerSlotsOver(db, mid, now);
    AllSlotsTaken(mid, after, queued, limit, now);
  }
}
