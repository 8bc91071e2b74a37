/** A job that is cancelled before a worker has it is never worked on, in any live run. */
module CancelledJobs {
  import opened Tables
  import opened Protocol
  import opened Safety
  import opened Live
  import Delivery
  import Effects
  import Cancellation
  import Runs

  lemma CancelStep(w: World, j: JobId, now: Time)
    requires DbSafe(w.db) && j in w.db.jobs
    requires w.db.jobs[j].status == Waiting || w.db.jobs[j].status == RetryWait || w.db.jobs[j].status == Queued
    ensures var after := Exec(w, Step(Cancel(j), now)).db;
      && j in after.jobs
      && after.jobs[j] == w.db.jobs[j].(status := JobStatus.Cancelled, cancelledAt := Some(now))
      && after.outbox == w.db.outbox
  {
    hide DbSafe, Cancellation.CancelledBy, Effects.SlotGivenUp;
    Fits(w.db, j);
    Effects.CancelLeaves(w.db, j, now);
  }

  lemma EndedJobStep(w: World, s: Step, j: JobId)
    requires DbLive(w.db) && Legal(w, s, true) && j in w.db.jobs && Terminal(w.db.jobs[j].status)
    ensures Delivery.Events(Apply(w.db, s).outbox, j) == Delivery.Events(w.db.outbox, j)
  {
    hide DbLive, Legal, Apply, Delivery.Events;
    Runs.TerminalStep(w, s, j);
    Delivery.EventBalance(w, s, j);
  }

  /** In a live run no event of a job that has ended is ever added. */
  lemma {:induction false} EndedJobIsNotDispatched(tenants: map<TenantId, nat>, clock: Time, first: seq<Step>, more: seq<Step>, j: JobId)
    requires IsRun(Initial(tenants, clock), first + more, true)
    requires j in After(Initial(tenants, clock), first).db.jobs && Terminal(After(Initial(tenants, clock), first).db.jobs[j].status)
    ensures Delivery.Events(After(Initial(tenants, clock), first + more).db.outbox, j)
      == Delivery.Events(After(Initial(tenants, clock), first).db.outbox, j)
  {
    hide Apply, Legal, DbLive, Terminal, Delivery.Events;
    if more == [] {
      assert first + more == first;
    } else {
      var n := |more| - 1;
      var steps, before := first + more, first + more[..n];
      assert steps[..|steps| - 1] == before && steps[|steps| - 1] == more[n];
      EndedJobIsNotDispatched(tenants, clock, first, more[..n], j);
      Runs.EveryLiveRunIsLive(tenants, clock, before);
      Runs.TerminalIsForever(tenants, clock, first, more[..n], j);
      EndedJobStep(After(Initial(tenants, clock), before), more[n], j);
    }
  }

  /** Cancelling is final for a job that waits, waits for a retry, or is queued: whatever follows in a live run,
    * it stays as the cancellation left it, with no further attempt, and is never dispatched.
    */
  lemma CancelledIsNeverDispatched(tenants: map<TenantId, nat>, clock: Time, first: seq<Step>, now: Time, more: seq<Step>, j: JobId)
    requires IsRun(Initial(tenants, clock), first + [Step(Cancel(j), now)] + more, true)
    requires var jobs := After(Initial(tenants, clock), first).db.jobs;
      j in jobs && (jobs[j].status == Waiting || jobs[j].status == RetryWait || jobs[j].status == Queued)
    ensures var was := After(Initial(tenants, clock), first).db;
      var db := After(Initial(tenants, clock), first + [Step(Cancel(j), now)] + more).db;
      && j in db.jobs && db.jobs[j] == was.jobs[j].(status := JobStatus.Cancelled, cancelledAt := Some(now))
      && Delivery.Events(db.outbox, j) == Delivery.Events(was.outbox, j)
  {
    var start, c := Initial(tenants, clock), Step(Cancel(j), now);
    var cancelled := first + [c];
    hide DbLive, Delivery.Events, Exec, Legal;
    Runs.RunAppended(start, cancelled, more);
    Runs.RunAppended(start, first, [c]);
    assert cancelled[..|cancelled| - 1] == first;
    Runs.EveryLiveRunIsLive(tenants, clock, first);
    SafeOfLive(After(start, first).db);
    CancelStep(After(start, first), j, now);
    assert After(start, cancelled) == Exec(After(start, first), c);
    hide After, IsRun;
    Runs.TerminalIsForever(tenants, clock, cancelled, more, j);
    EndedJobIsNotDispatched(tenants, clock, cancelled, more, j);
  }

  lemma SafeOfLive(db: Db)
    requires DbLive(db)
    ensures DbSafe(db)
  {
  }
}
