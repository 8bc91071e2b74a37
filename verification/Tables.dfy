/** The rows of the job tables, the database that holds them and the shape of a query result.
  * Every other module describes a service as a function on `Db` values and as a method that
  * changes the tables of a `Database` in place.
  */
module Tables {

  datatype Option<+T> = None | Some(value: T)

  /** What a service call gives back when an exception rolls its transaction back. */
  datatype Error = DoesNotExist | IntegrityError | BrokerError | InvalidTransition
  datatype Outcome<+T> = Ok(value: T) | Raised(error: Error)

  /** Instants and durations, in microseconds. */
  type Time = int
  const SECOND: Time := 1_000_000
  const LEASE: Time := 300 * SECOND

  /** Primary keys; a row that is created takes a key no row has. */
  type TenantId = nat
  type JobId = nat

  datatype JobStatus =
    | Waiting | Queued | Executing | RetryWait | CancelRequested
    | Succeeded | FailedFinal | Cancelled

  /** The statuses in which a job takes one of its tenant's slots. */
  predicate Active(s: JobStatus) {
    s.Queued? || InHand(s)
  }

  /** The statuses in which a worker has claimed the job. */
  predicate InHand(s: JobStatus) {
    s.Executing? || s.CancelRequested?
  }

  predicate Terminal(s: JobStatus) {
    s.Succeeded? || s.FailedFinal? || s.Cancelled?
  }

  /** An empty `overlapKey` stands for a payload without one: both are falsy. */
  datatype Payload = Payload(overlapKey: string, body: string)

  datatype Job = Job(
    tenant: TenantId, jobType: string, priority: nat, payload: Payload, key: string,
    status: JobStatus, availableAt: Time, readySince: Time, attemptCount: nat,
    queuedAt: Option<Time>, startedAt: Option<Time>, completedAt: Option<Time>, cancelledAt: Option<Time>,
    result: Option<string>, lastError: Option<string>)

  datatype AttemptStatus = Running | Succeeded | Failed | Abandoned
  datatype FailureType = Transient | Permanent | Infrastructure | Timeout | Unknown

  /** Attempts are unique per (job, attempt_number), which identifies them here. */
  datatype AttemptId = AttemptId(job: JobId, number: nat)

  datatype Attempt = Attempt(
    status: AttemptStatus, failureType: Option<FailureType>, error: Option<string>, traceback: Option<string>,
    startedAt: Time, finishedAt: Option<Time>, heartbeatAt: Time, leaseExpiresAt: Time)

  datatype Reservation = Reservation(tenant: TenantId, expiresAt: Time)

  datatype LockKey = LockKey(tenant: TenantId, resource: string)

  datatype OutboxStatus = Pending | Published
  datatype OutboxRow = OutboxRow(
    job: JobId, status: OutboxStatus, availableAt: Time, publishedAt: Option<Time>,
    publishAttempts: nat, lastError: Option<string>)

  datatype Reason = RetriesExhausted | PermanentFailure
  datatype DeadLetterStatus = Open | Replayed
  datatype DeadLetter = DeadLetter(
    tenant: TenantId, reason: Reason, status: DeadLetterStatus, error: string, lastAttempt: nat,
    createdAt: Time, replayedJob: Option<JobId>, replayedAt: Option<Time>)

  datatype SchedRow = SchedRow(
    active: nat, hasReady: bool, highest: Option<int>, nextReadyAt: Option<Time>, lastDispatchedAt: Option<Time>)

  const FRESH_ROW := SchedRow(0, false, None, None, None)

  /** All the tables. `tenants` maps a tenant to its max_concurrent_jobs; the outbox is in order of
    * creation, so a row's position is its key; reservations and dead letters are one-to-one with jobs.
    */
  datatype Db = Db(
    tenants: map<TenantId, nat>,
    jobs: map<JobId, Job>,
    attempts: map<AttemptId, Attempt>,
    reservations: map<JobId, Reservation>,
    locks: map<LockKey, JobId>,
    outbox: seq<OutboxRow>,
    deadLetters: map<JobId, DeadLetter>,
    sched: map<TenantId, SchedRow>)

  function LockOf(job: Job): LockKey {
    LockKey(job.tenant, job.payload.overlapKey)
  }

  predicate RunningAttempt(db: Db, a: AttemptId) {
    a in db.attempts && db.attempts[a].status.Running?
  }

  function EmptyDb(tenants: map<TenantId, nat>): Db {
    Db(tenants, map[], map[], map[], map[], [], map[], map[])
  }

  class Database {
    var tenants: map<TenantId, nat>
    var jobs: map<JobId, Job>
    var attempts: map<AttemptId, Attempt>
    var reservations: map<JobId, Reservation>
    var locks: map<LockKey, JobId>
    var outbox: seq<OutboxRow>
    var deadLetters: map<JobId, DeadLetter>
    var sched: map<TenantId, SchedRow>

    constructor (tenants: map<TenantId, nat>)
      ensures View() == EmptyDb(tenants)
    {
      this.tenants := tenants;
      jobs, attempts, reservations, locks := map[], map[], map[], map[];
      outbox, deadLetters, sched := [], map[], map[];
    }

    function View(): Db
      reads this
    {
      Db(tenants, jobs, attempts, reservations, locks, outbox, deadLetters, sched)
    }

    /** Rolls a transaction back to the tables it began with. */
    method Restore(saved: Db)
      modifies this
      ensures View() == saved
    {
      tenants, jobs, attempts := saved.tenants, saved.jobs, saved.attempts;
      reservations, locks, outbox := saved.reservations, saved.locks, saved.outbox;
      deadLetters, sched := saved.deadLetters, saved.sched;
    }
  }

  // ---- Query results -------------------------------------------------------------------------

  /** The ORDER BY columns of a candidate row. */
  datatype Rank = Rank(major: int, minor: int)

  predicate Before(x: Rank, y: Rank) {
    x.major < y.major || (x.major == y.major && x.minor < y.minor)
  }

  const UNORDERED := Rank(0, 0)

  function Min(x: nat, y: nat): nat {
    if x <= y then x else y
  }

  /** `rows` is an answer to `SELECT … ORDER BY rank LIMIT limit` over the candidates in `pool`:
    * ties may be broken either way, so there can be several.
    */
  ghost predicate IsPage<T(!new)>(rows: seq<T>, pool: map<T, Rank>, limit: nat) {
    && (forall i, k :: 0 <= i < k < |rows| ==> rows[i] != rows[k])
    && (forall x :: x in rows ==> x in pool)
    && |rows| == Min(limit, |pool|)
    && (forall i, k :: 0 <= i < k < |rows| ==> !Before(pool[rows[k]], pool[rows[i]]))
    && (forall x, y :: x in rows && y in pool && y !in rows ==> !Before(pool[y], pool[x]))
  }

  ghost function Elements<T(!new)>(rows: seq<T>): set<T> {
    set x | x in rows
  }

  lemma {:induction false} DistinctCount<T(!new)>(rows: seq<T>)
    requires forall i, k :: 0 <= i < k < |rows| ==> rows[i] != rows[k]
    ensures |Elements(rows)| == |rows|
  {
    if rows == [] {
      assert Elements(rows) == {};
    } else {
      var n := |rows| - 1;
      DistinctCount(rows[..n]);
      assert rows == rows[..n] + [rows[n]];
      assert Elements(rows) == Elements(rows[..n]) + {rows[n]};
    }
  }

  lemma SubsetCount<T>(a: set<T>, b: set<T>)
    requires a <= b
    ensures |a| <= |b|
    ensures |a| == |b| ==> a == b
  {
    assert b == a + (b - a);
  }

  /** Some row of a nonempty pool comes first. */
  lemma {:induction false} LeastExists<T(!new)>(pool: map<T, Rank>, within: set<T>) returns (least: T)
    requires within != {} && within <= pool.Keys
    ensures least in within
    ensures forall y :: y in within ==> !Before(pool[y], pool[least])
    decreases |within|
  {
    var x :| x in within;
    if within == {x} {
      least := x;
    } else {
      var other := LeastExists(pool, within - {x});
      least := if Before(pool[x], pool[other]) then x else other;
    }
  }

  lemma PageGrows<T(!new)>(page: seq<T>, pool: map<T, Rank>, next: T)
    requires IsPage(page, pool, |page|) && |page| < |pool|
    requires next in pool && next !in page
    requires forall y :: y in pool && y !in page ==> !Before(pool[y], pool[next])
    ensures IsPage(page + [next], pool, |page| + 1)
  {
    var rows := page + [next];
    forall i, k | 0 <= i < k < |rows|
      ensures rows[i] != rows[k] && rows[k] in pool && rows[i] in pool
      ensures !Before(pool[rows[k]], pool[rows[i]])
    {
      assert rows[i] == page[i] && page[i] in page;
      assert k < |page| ==> rows[k] == page[k] && page[k] in page;
    }
  }

  lemma FewerRows<T(!new)>(pool: map<T, Rank>, rows: seq<T>)
    requires |Elements(rows)| < |pool|
    ensures pool.Keys - Elements(rows) != {}
  {
    var taken := pool.Keys * Elements(rows);
    SubsetCount(taken, Elements(rows));
    assert |pool.Keys| == |pool|;
    assert pool.Keys == taken + (pool.Keys - Elements(rows));
  }

  /** Every query has an answer, whatever the candidates and the limit. */
  lemma {:induction false} PageExists<T(!new)>(pool: map<T, Rank>, limit: nat) returns (rows: seq<T>)
    ensures IsPage(rows, pool, limit)
  {
    if limit == 0 {
      rows := [];
    } else {
      rows := PageExists(pool, limit - 1);
      DistinctCount(rows);
      if limit <= |pool| {
        var rest := pool.Keys - Elements(rows);
        FewerRows(pool, rows);
        var next := LeastExists(pool, rest);
        assert next in pool && next !in rows;
        assert forall y :: y in pool && y !in rows ==> y in rest;
        assert IsPage(rows, pool, |rows|) && |rows| < |pool|;
        PageGrows(rows, pool, next);
        rows := rows + [next];
      }
    }
  }

  // ---- Working through a backlog page by page ------------------------------------------------

  /** What is left of a backlog after up to `limit` of it is taken. */
  function Less(total: nat, limit: int): nat {
    if total <= limit then 0 else total - limit
  }

  lemma PageOf<T(!new)>(rows: seq<T>, pool: map<T, Rank>, limit: nat)
    requires IsPage(rows, pool, limit)
    ensures forall x :: x in rows ==> x in pool
    ensures forall i, k :: 0 <= i < k < |rows| ==> rows[i] != rows[k]
    ensures Elements(rows) <= pool.Keys && |Elements(rows)| == Min(limit, |pool|)
  {
    DistinctCount(rows);
  }

  lemma LessWithout<T>(all: set<T>, some: set<T>, limit: nat)
    requires some <= all && |some| == Min(limit, |all|)
    ensures |all - some| == Less(|all|, limit)
  {
    assert all == some + (all - some);
  }

  lemma LessAgain(total: nat, limit: nat, n: nat, left: nat)
    requires n >= 1 && left <= Less(total, (n - 1) * limit)
    ensures (n - 1) * limit + limit == n * limit
    ensures Less(left, limit) <= Less(total, n * limit)
  {
    assert (n - 1) * limit + limit == n * limit;
  }

  lemma LessTwice(total: nat, limit: nat, n: nat)
    requires n >= 1
    ensures Less(Less(total, (n - 1) * limit), limit) == Less(total, n * limit)
  {
    LessAgain(total, limit, n, Less(total, (n - 1) * limit));
  }
}
