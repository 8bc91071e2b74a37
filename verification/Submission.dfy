/** Creating a job at most once per idempotency key (jobs/services/submission.py). */
module Submission {
  import opened Tables
  import opened SchedulerState

  datatype Request = Request(
    tenant: TenantId, jobType: string, payload: Payload, priority: nat, key: string, availableAt: Option<Time>)

  /** A missing or empty key is replaced by a random one. */
  function KeyOf(req: Request, uuid: string): string {
    if req.key == "" then uuid else req.key
  }

  predicate HasKey(db: Db, j: JobId, t: TenantId, key: string) {
    j in db.jobs && db.jobs[j].tenant == t && db.jobs[j].key == key
  }

  predicate KeyTaken(db: Db, t: TenantId, key: string) {
    exists j :: j in db.jobs && HasKey(db, j, t, key)
  }

  /** The uniqueness constraint on (tenant, idempotency_key). */
  ghost predicate UniqueKeys(db: Db) {
    forall i, j :: i in db.jobs && j in db.jobs && db.jobs[i].tenant == db.jobs[j].tenant && db.jobs[i].key == db.jobs[j].key
      ==> i == j
  }

  function NewJob(tenant: TenantId, jobType: string, payload: Payload, priority: nat, key: string, at: Time): Job {
    Job(tenant, jobType, priority, payload, key, Waiting, at, at, 0, None, None, None, None, None, None)
  }

  function RequestedJob(req: Request, key: string, now: Time): Job {
    NewJob(req.tenant, req.jobType, req.payload, req.priority, key, if req.availableAt.Some? then req.availableAt.value else now)
  }

  /** The insert of step 2: it goes through exactly when the tenant has no job with the key. */
  function Inserted(db: Db, id: JobId, req: Request, key: string, now: Time): Db {
    if KeyTaken(db, req.tenant, key) then db
    else db.(jobs := db.jobs[id := RequestedJob(req, key, now)])
  }

  /** Step 1. Other transactions may commit between this read and the insert. */
  method FindExisting(db: Database, t: TenantId, key: string) returns (existing: Option<JobId>)
    ensures existing.None? <==> !KeyTaken(db.View(), t, key)
    ensures existing.Some? ==> HasKey(db.View(), existing.value, t, key)
  {
    var rows := db.jobs;
    var found := set j | j in rows && rows[j].tenant == t && rows[j].key == key;
    if found == {} {
      assert forall j :: HasKey(db.View(), j, t, key) ==> j in found;
      return None;
    }
    var j :| j in found;
    assert HasKey(db.View(), j, t, key);
    return Some(j);
  }

  /** Steps 2 and 3: insert in a savepoint, or read the job that got there first. */
  method InsertOrGet(db: Database, id: JobId, req: Request, key: string, now: Time) returns (j: JobId, created: bool)
    requires id !in db.jobs && UniqueKeys(db.View())
    modifies db`jobs
    ensures db.View() == Inserted(old(db.View()), id, req, key, now)
    ensures created <==> !KeyTaken(old(db.View()), req.tenant, key)
    ensures HasKey(db.View(), j, req.tenant, key) && (created ==> j == id)
    ensures UniqueKeys(db.View())
  {
    var existing := FindExisting(db, req.tenant, key);
    match existing {
      case Some(other) => return other, false;
      case None =>
        var at := if req.availableAt.Some? then req.availableAt.value else now;
        db.jobs := db.jobs[id := NewJob(req.tenant, req.jobType, req.payload, req.priority, key, at)];
        assert forall i :: i in old(db.jobs) ==> !HasKey(old(db.View()), i, req.tenant, key);
        return id, true;
    }
  }

  /** The tables after the view submitted a request and refreshed the scheduler row of a new job. */
  ghost function Submitted(db: Db, id: JobId, req: Request, uuid: string, now: Time): Db {
    var key := KeyOf(req, uuid);
    if KeyTaken(db, req.tenant, key) then db
    else RefreshAll(Inserted(db, id, req, key, now), {req.tenant}, now)
  }

  /** `submit_job` and the refresh of jobs/views.py, run without interruption. */
  method Submit(db: Database, id: JobId, req: Request, uuid: string, now: Time) returns (j: JobId, created: bool)
    requires id !in db.jobs && UniqueKeys(db.View())
    modifies db
    ensures db.View() == Submitted(old(db.View()), id, req, uuid, now)
    ensures created <==> !KeyTaken(old(db.View()), req.tenant, KeyOf(req, uuid))
    ensures HasKey(db.View(), j, req.tenant, KeyOf(req, uuid))
  {
    var key := KeyOf(req, uuid);
    var existing := FindExisting(db, req.tenant, key);
    if existing.Some? {
      return existing.value, false;
    }
    j, created := InsertOrGet(db, id, req, key, now);
    if created {
      RefreshSchedulerState(db, req.tenant, now);
    }
  }
}
