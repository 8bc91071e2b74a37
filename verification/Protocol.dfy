/** The services as one state machine: each committed transaction is a step, and any client, worker,
  * scheduler or reaper may take the next one.
  */
module Protocol {
  import opened Tables
  import Execution
  import Failure
  import Dispatcher
  import Retry
  import Reconciliation
  import Outbox
  import Heartbeat
  import Cancellation
  import Submission
  import DeadLetters
  import SchedulerState

  datatype Action =
    | Submit(id: JobId, req: Submission.Request, uuid: string)
    | Dispatch(tenant: TenantId, rows: seq<JobId>, skipped: set<JobId>)
    | Publish(event: nat, delivery: Outbox.Delivery)
    | Claim(message: nat)
    | Beat(attempt: AttemptId)
    | Complete(attempt: AttemptId, result: string)
    | Fail(attempt: AttemptId, message_: string, traceback: string, failure: FailureType)
    | FailService(attempt: AttemptId, message_: string, failure: FailureType)
    | Reap(attempt: AttemptId)
    | Recover(job: JobId)
    | Promote(rows: seq<JobId>, skipped: set<JobId>, limit: nat)
    | Cancel(job: JobId)
    | Replay(letter: JobId, id: JobId, key: string)
    | Refresh(tenant: TenantId)

  datatype Step = Step(action: Action, now: Time)

  /** The tables, the latest time any transaction read, and the messages the broker was ever given. */
  datatype World = World(db: Db, clock: Time, sent: set<nat>)

  function Initial(tenants: map<TenantId, nat>, clock: Time): World {
    World(EmptyDb(tenants), clock, {})
  }

  /** What may happen next. A worker that took a message finishes the attempt it started; in a live run
    * it does so only while the attempt is still RUNNING, otherwise at any time, and more than once.
    */
  ghost predicate Legal(w: World, s: Step, live: bool) {
    && w.clock <= s.now
    && match s.action {
      case Submit(id, req, _) => id !in w.db.jobs && req.tenant in w.db.tenants
      case Dispatch(t, rows, skipped) =>
        IsPage(rows, Dispatcher.Candidates(w.db, t, s.now, skipped), Dispatcher.CANDIDATE_LIMIT)
      case Claim(message) => message in w.sent && message < |w.db.outbox|
      case Complete(a, _) => live ==> RunningAttempt(w.db, a)
      case Fail(a, _, _, _) => live ==> RunningAttempt(w.db, a)
      case FailService(a, _, _) => live ==> RunningAttempt(w.db, a)
      case Promote(rows, skipped, limit) => IsPage(rows, Retry.DueRetries(w.db, s.now, skipped), limit)
      case Replay(_, id, _) => id !in w.db.jobs
      case Refresh(t) => t in w.db.tenants
      case Publish(_, _) => true
      case Beat(_) => true
      case Reap(_) => true
      case Recover(_) => true
      case Cancel(_) => true
    }
  }

  lemma LiveIsLegal(w: World, s: Step)
    requires Legal(w, s, true)
    ensures Legal(w, s, false) && w.clock <= s.now
  {
  }

  ghost function Apply(db: Db, s: Step): Db {
    match s.action
    case Submit(id, req, uuid) => Submission.Submitted(db, id, req, uuid, s.now)
    case Dispatch(t, rows, _) => if forall j :: j in rows ==> j in db.jobs then Dispatcher.Dispatched(db, t, rows, s.now) else db
    case Publish(e, delivery) => Outbox.PublishedOne(db, e, delivery, s.now)
    case Claim(message) => if message < |db.outbox| then Execution.Claimed(db, db.outbox[message].job, s.now) else db
    case Beat(a) => Heartbeat.Beaten(db, a, s.now)
    case Complete(a, result) => Execution.Completed(db, a, result, s.now)
    case Fail(a, message, traceback, failure) => Execution.Failed(db, a, message, traceback, failure, s.now)
    case FailService(a, message, failure) => Failure.AttemptFailed(db, a, message, failure, s.now)
    case Reap(a) => Reconciliation.Reaped(db, a, s.now)
    case Recover(j) => Reconciliation.Recovered(db, j, s.now)
    case Promote(rows, _, _) => Retry.Promoted(db, rows, s.now)
    case Cancel(j) => Cancellation.CancelledBy(db, j, s.now)
    case Replay(letter, id, key) => DeadLetters.Replayed(db, letter, id, key, s.now)
    case Refresh(t) => SchedulerState.RefreshAll(db, {t}, s.now)
  }

  ghost function Exec(w: World, s: Step): World {
    var sent := if s.action.Publish? then Outbox.SentOne(w.db, w.sent, s.action.event, s.action.delivery) else w.sent;
    World(Apply(w.db, s), s.now, sent)
  }

  /** The world after a sequence of steps. */
  ghost function After(w: World, steps: seq<Step>): World {
    if steps == [] then w else Exec(After(w, steps[..|steps| - 1]), steps[|steps| - 1])
  }

  ghost predicate IsRun(w: World, steps: seq<Step>, live: bool) {
    steps == [] ||
    (IsRun(w, steps[..|steps| - 1], live) && Legal(After(w, steps[..|steps| - 1]), steps[|steps| - 1], live))
  }
}
