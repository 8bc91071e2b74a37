/** Every queued job has an event that is pending or was handed to the broker. */
module Delivery {
  import opened Tables
  import opened Protocol
  import opened Safety
  import opened Steps
  import opened Live
  import Outbox
  import Dispatcher

  /** The position of the last event of `j`. */
  ghost function LatestEvent(outbox: seq<OutboxRow>, j: JobId): (e: Option<nat>)
    ensures e.Some? ==> e.value < |outbox| && outbox[e.value].job == j
  {
    if outbox == [] then None
    else if outbox[|outbox| - 1].job == j then Some(|outbox| - 1)
    else LatestEvent(outbox[..|outbox| - 1], j)
  }

  /** How many events `j` has. */
  ghost function Events(outbox: seq<OutboxRow>, j: JobId): nat {
    if outbox == [] then 0
    else Events(outbox[..|outbox| - 1], j) + if outbox[|outbox| - 1].job == j then 1 else 0
  }

  /** The latest event of `j` was written by its current dispatch. */
  ghost predicate HasCurrentEvent(outbox: seq<OutboxRow>, j: JobId, job: Job) {
    var e := LatestEvent(outbox, j);
    e.Some? && job.queuedAt == Some(outbox[e.value].availableAt)
  }

  /** The message of event `e` is still to be sent, or the broker was given it. */
  predicate PendingOrSent(w: World, e: nat)
    requires e < |w.db.outbox|
  {
    w.db.outbox[e].status.Pending? || e in w.sent
  }

  ghost predicate OutboxSound(w: World) {
    && (forall e: nat :: e < |w.db.outbox| ==> RowSound(w, e))
    && (forall e :: e in w.sent ==> e < |w.db.outbox|)
    && (forall j :: j in w.db.jobs && w.db.jobs[j].status.Queued? ==> HasCurrentEvent(w.db.outbox, j, w.db.jobs[j]))
  }

  lemma EventAdded(outbox: seq<OutboxRow>, row: OutboxRow, j: JobId)
    ensures LatestEvent(outbox + [row], j) == if row.job == j then Some(|outbox|) else LatestEvent(outbox, j)
    ensures Events(outbox + [row], j) == Events(outbox, j) + if row.job == j then 1 else 0
  {
    assert (outbox + [row])[..|outbox|] == outbox;
  }

  lemma {:induction false} EventChanged(outbox: seq<OutboxRow>, e: nat, row: OutboxRow, j: JobId)
    requires e < |outbox| && row.job == outbox[e].job
    ensures LatestEvent(outbox[e := row], j) == LatestEvent(outbox, j)
    ensures Events(outbox[e := row], j) == Events(outbox, j)
  {
    var n := |outbox| - 1;
    if e < n {
      assert outbox[e := row][..n] == outbox[..n][e := row];
      EventChanged(outbox[..n], e, row, j);
    } else {
      assert outbox[e := row][..n] == outbox[..n];
    }
  }

  /** What a step does to the events of one job: a dispatch of the job adds one, nothing else does. */
  lemma EventsStep(w: World, s: Step, j: JobId)
    requires SlotsMatch(w.db.jobs, w.db.reservations) && Legal(w, s, false) && j in w.db.jobs
    ensures var after := Apply(w.db, s);
      && j in after.jobs
      && (if w.db.jobs[j].status.Waiting? && after.jobs[j].status.Queued?
          then HasCurrentEvent(after.outbox, j, after.jobs[j]) && Events(after.outbox, j) == Events(w.db.outbox, j) + 1
          else Events(after.outbox, j) == Events(w.db.outbox, j)
               && (HasCurrentEvent(w.db.outbox, j, w.db.jobs[j]) ==> HasCurrentEvent(after.outbox, j, w.db.jobs[j])))
  {
    hide SlotsMatch, Legal, Apply;
    OutboxStep(w, s);
    JobStep(w, s, j);
    var after := Apply(w.db, s);
    if s.action.Dispatch? {
      DispatchEvents(w, s, j, after);
    } else if s.action.Publish? {
      PublishEvents(w, s, j, after);
    }
  }

  lemma DispatchEvents(w: World, s: Step, j: JobId, after: Db)
    requires s.action.Dispatch? && OutboxAfter(w, s, after) && j in w.db.jobs
    ensures j in after.jobs
    ensures if w.db.jobs[j].status.Waiting? && after.jobs[j].status.Queued?
      then HasCurrentEvent(after.outbox, j, after.jobs[j]) && Events(after.outbox, j) == Events(w.db.outbox, j) + 1
      else Events(after.outbox, j) == Events(w.db.outbox, j)
           && (HasCurrentEvent(w.db.outbox, j, w.db.jobs[j]) ==> HasCurrentEvent(after.outbox, j, w.db.jobs[j]))
  {
    if !(after.outbox == w.db.outbox && after.jobs == w.db.jobs) {
      var i :| i in w.db.jobs && w.db.jobs[i].status.Waiting?
        && after.jobs == w.db.jobs[i := Dispatcher.QueuedJob(w.db.jobs[i], s.now)]
        && after.outbox == w.db.outbox + [OutboxRow(i, Pending, s.now, None, 0, None)];
      EventAdded(w.db.outbox, OutboxRow(i, Pending, s.now, None, 0, None), j);
    }
  }

  lemma PublishEvents(w: World, s: Step, j: JobId, after: Db)
    requires s.action.Publish? && OutboxAfter(w, s, after) && j in w.db.jobs
    ensures Events(after.outbox, j) == Events(w.db.outbox, j)
    ensures HasCurrentEvent(w.db.outbox, j, w.db.jobs[j]) ==> HasCurrentEvent(after.outbox, j, w.db.jobs[j])
  {
    if after.outbox != w.db.outbox {
      EventChanged(w.db.outbox, s.action.event, Outbox.PublishedRow(w.db.outbox[s.action.event], s.now), j);
    }
  }

  /** A row as the publisher may find it: nothing was ever recorded about failed sends. */
  ghost predicate RowSound(w: World, e: nat) {
    e < |w.db.outbox| && PendingOrSent(w, e) && w.db.outbox[e].publishAttempts == 0 && w.db.outbox[e].lastError.None?
  }

  lemma RowStep(w: World, s: Step, e: nat)
    requires OutboxAfter(w, s, Apply(w.db, s)) && e < |Apply(w.db, s).outbox|
    requires e < |w.db.outbox| ==> RowSound(w, e)
    ensures RowSound(Exec(w, s), e)
  {
    hide Apply;
    if s.action.Dispatch? {
      DispatchAppends(w, s, Apply(w.db, s));
    } else if s.action.Publish? {
      PublishedRowStep(w, s, e);
    } else {
      hide Outbox.SentOne;
    }
  }

  lemma PublishedRowStep(w: World, s: Step, e: nat)
    requires s.action.Publish? && OutboxAfter(w, s, Apply(w.db, s)) && e < |w.db.outbox| && RowSound(w, e)
    ensures RowSound(Exec(w, s), e)
  {
    hide Apply;
  }

  lemma DispatchAppends(w: World, s: Step, after: Db)
    requires s.action.Dispatch? && OutboxAfter(w, s, after)
    ensures |w.db.outbox| <= |after.outbox|
    ensures forall e :: 0 <= e < |w.db.outbox| ==> after.outbox[e] == w.db.outbox[e]
    ensures forall e :: |w.db.outbox| <= e < |after.outbox| ==>
      after.outbox[e].status.Pending? && after.outbox[e].publishAttempts == 0 && after.outbox[e].lastError.None?
  {
  }

  lemma OutboxGrows(w: World, s: Step, after: Db)
    requires OutboxAfter(w, s, after)
    ensures |w.db.outbox| <= |after.outbox|
  {
    if s.action.Dispatch? {
      DispatchAppends(w, s, after);
    }
  }

  /** In every run, a send that fails and a crash between send and commit included. */
  lemma OutboxSoundStep(w: World, s: Step)
    requires DbSafe(w.db) && Legal(w, s, false) && OutboxSound(w)
    ensures OutboxSound(Exec(w, s))
  {
    hide DbSafe, Legal, Apply, HasCurrentEvent, PendingOrSent, RowSound, OutboxAfter;
    Slots(w.db);
    OutboxStep(w, s);
    OutboxGrows(w, s, Apply(w.db, s));
    var after := Exec(w, s);
    forall e: nat | e < |after.db.outbox|
      ensures RowSound(after, e)
    {
      RowStep(w, s, e);
    }
    forall j | j in after.db.jobs && after.db.jobs[j].status.Queued?
      ensures HasCurrentEvent(after.db.outbox, j, after.db.jobs[j])
    {
      if j in w.db.jobs {
        EventsStep(w, s, j);
        QueuedBefore(w, s, j);
      } else {
        NewJobStep(w, s, j);
      }
    }
  }

  lemma QueuedBefore(w: World, s: Step, j: JobId)
    requires SlotsMatch(w.db.jobs, w.db.reservations) && Legal(w, s, false) && j in w.db.jobs
    ensures var after := Apply(w.db, s);
      j in after.jobs && (after.jobs[j].status.Queued? ==> w.db.jobs[j].status.Waiting? || after.jobs[j] == w.db.jobs[j])
  {
    hide SlotsMatch, Legal, Apply;
    JobStep(w, s, j);
  }

  // ---- Counting events -----------------------------------------------------------------------

  function QueuedOne(job: Job): nat {
    if job.status.Queued? then 1 else 0
  }

  /** A job leaves the queue other than into a worker's hands. */
  ghost predicate LeavesQueue(w: World, s: Step, j: JobId) {
    j in w.db.jobs && w.db.jobs[j].status.Queued? && (s.action == Recover(j) || s.action == Cancel(j))
  }

  /** Events, less claims, less the one a queued job waits on, grow only when a job leaves the queue unclaimed. */
  lemma EventBalance(w: World, s: Step, j: JobId)
    requires DbLive(w.db) && Legal(w, s, true) && j in w.db.jobs
    ensures var after := Apply(w.db, s);
      j in after.jobs
      && Events(after.outbox, j) - after.jobs[j].attemptCount - QueuedOne(after.jobs[j])
        == Events(w.db.outbox, j) - w.db.jobs[j].attemptCount - QueuedOne(w.db.jobs[j]) + (if LeavesQueue(w, s, j) then 1 else 0)
  {
    hide DbSafe, SoleRunning, LettersExact, CountersExact, Legal, Apply, HasCurrentEvent;
    LiveIsLegal(w, s);
    Slots(w.db);
    EventsStep(w, s, j);
    LiveMoves(w, s, j);
    if w.db.jobs[j].status.Queued? {
      LeavesIt(w, s, j);
    }
  }

  lemma LeavesIt(w: World, s: Step, j: JobId)
    requires DbSafe(w.db) && SoleRunning(w.db.jobs, w.db.attempts) && Legal(w, s, true) && j in w.db.jobs && w.db.jobs[j].status.Queued?
    ensures j in Apply(w.db, s).jobs
    ensures var status := Apply(w.db, s).jobs[j].status; LeavesQueue(w, s, j) <==> status.Waiting? || status.Cancelled?
  {
    hide DbSafe, SoleRunning, Legal, Apply;
    LiveIsLegal(w, s);
    Slots(w.db);
    Fits(w.db, j);
    LiveMoves(w, s, j);
    JobStep(w, s, j);
    if LeavesQueue(w, s, j) {
      LeavingStep(w.db, s, j);
    }
  }

  lemma LeavingStep(db: Db, s: Step, j: JobId)
    requires j in db.jobs && db.jobs[j].status.Queued? && db.jobs[j].tenant in db.sched
    requires s.action == Recover(j) || s.action == Cancel(j)
    ensures j in Apply(db, s).jobs && (Apply(db, s).jobs[j].status.Waiting? || Apply(db, s).jobs[j].status.Cancelled?)
  {
    if s.action == Recover(j) {
      RecoveredRows(db, j, s.now);
    }
  }
}
