/** Cancelling a job according to its status (jobs/services/cancellation.py). */
module Cancellation {
  import opened Tables
  import Execution

  function CancelledJob(job: Job, now: Time): Job {
    match job.status
    case Waiting | RetryWait | Queued => job.(status := Cancelled, cancelledAt := Some(now))
    case Executing => job.(status := CancelRequested)
    case CancelRequested | Succeeded | FailedFinal | Cancelled => job
  }

  function CancelledBy(db: Db, j: JobId, now: Time): Db {
    if Execution.NoWayOut(db, j) then db
    else
      var after := db.(jobs := db.jobs[j := CancelledJob(db.jobs[j], now)]);
      if db.jobs[j].status.Queued? then Execution.Released(after, j) else after
  }

  method CancelJob(db: Database, j: JobId, now: Time) returns (r: Outcome<()>)
    modifies db
    ensures db.View() == CancelledBy(old(db.View()), j, now)
    ensures r.Raised? <==> Execution.NoWayOut(old(db.View()), j)
  {
    var saved := db.View();
    if j !in db.jobs {
      return Raised(DoesNotExist);
    }
    var job := db.jobs[j];
    if job.status in {JobStatus.Succeeded, FailedFinal, Cancelled} {
      assert db.jobs == db.jobs[j := job];
      return Ok(());
    }
    if job.status in {Waiting, RetryWait} {
      job := job.(status := Cancelled, cancelledAt := Some(now));
    } else if job.status == Queued {
      job := job.(status := Cancelled, cancelledAt := Some(now));
      var released := Execution.ReleaseCapacity(db, j);
      if !released {
        db.Restore(saved);
        return Raised(DoesNotExist);
      }
    } else if job.status == Executing {
      job := job.(status := CancelRequested);
    }
    db.jobs := db.jobs[j := job];
    return Ok(());
  }
}
