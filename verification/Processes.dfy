/** The worker, the publisher and the reaper, each taking its transactions as steps of the protocol. */
module Processes {
  import opened Tables
  import opened Protocol
  import opened Safety
  import Execution
  import Outbox
  import Reconciliation

  /** The step that reports what the handler did. */
  function Report(a: AttemptId, handler: Execution.HandlerOutcome, traceback: string): Action {
    match handler
    case Returns(result) => Complete(a, result)
    case RaisesRetryable(m) => Fail(a, m, traceback, Transient)
    case RaisesPermanent(m) => Fail(a, m, traceback, Permanent)
    case RaisesOther(m) => Fail(a, m, traceback, Unknown)
  }

  lemma OneStep(w: World, s: Step)
    requires Legal(w, s, true)
    ensures IsRun(w, [s], true) && After(w, [s]) == Exec(w, s)
  {
    assert [s][..0] == [];
  }

  lemma TwoSteps(w: World, s: Step, t: Step)
    requires Legal(w, s, true) && Legal(Exec(w, s), t, true)
    ensures IsRun(w, [s, t], true) && After(w, [s, t]) == Exec(Exec(w, s), t)
  {
    OneStep(w, s);
    assert [s, t][..1] == [s];
  }

  lemma ClaimStep(w: World, message: nat, start: Time)
    requires DbSafe(w.db) && message in w.sent && message < |w.db.outbox| && w.clock <= start
    ensures var s := Step(Claim(message), start);
      var j := w.db.outbox[message].job;
      && Legal(w, s, true) && Exec(w, s).db == Execution.Claimed(w.db, j, start) && Exec(w, s).clock == start
      && (if Execution.Claimable(w.db, j)
          then Execution.NextAttempt(w.db, j) !in w.db.attempts && RunningAttempt(Exec(w, s).db, Execution.NextAttempt(w.db, j))
          else Exec(w, s).db == w.db)
  {
    var j := w.db.outbox[message].job;
    Slots(w.db);
    hide DbSafe;
    if Execution.Claimable(w.db, j) {
      NextAttemptIsNew(w.db, j);
    }
  }

  /** Taking a message is one step, or two: a claim and, after the handler, the report of what it did. In a
    * reachable state the pair is a live run, and it leaves the tables that the specification of the worker says.
    */
  lemma ExecuteIsALiveRun(w: World, message: nat, handler: Execution.HandlerOutcome, traceback: string, start: Time, end: Time)
    returns (steps: seq<Step>)
    requires DbSafe(w.db) && message in w.sent && message < |w.db.outbox| && w.clock <= start <= end
    ensures IsRun(w, steps, true)
    ensures After(w, steps).db == Execution.Executed(w.db, w.db.outbox[message].job, handler, traceback, start, end)
    ensures 1 <= |steps| <= 2 && (|steps| == 2 <==> Execution.Claimable(w.db, w.db.outbox[message].job))
  {
    var j := w.db.outbox[message].job;
    var s := Step(Claim(message), start);
    ClaimStep(w, message, start);
    hide DbSafe, Execution.Claimed, Execution.Completed, Execution.Failed, After, IsRun;
    if Execution.Claimable(w.db, j) {
      var t := Step(Report(Execution.NextAttempt(w.db, j), handler, traceback), end);
      TwoSteps(w, s, t);
      steps := [s, t];
    } else {
      OneStep(w, s);
      steps := [s];
    }
  }

  // ---- Loops of transactions -----------------------------------------------------------------

  lemma Longer(w: World, steps: seq<Step>, s: Step)
    requires IsRun(w, steps, true) && Legal(After(w, steps), s, true)
    ensures IsRun(w, steps + [s], true) && After(w, steps + [s]) == Exec(After(w, steps), s)
  {
    assert (steps + [s])[..|steps|] == steps;
  }

  /** A batch of the publisher is a live run, however far it gets before a send fails. */
  lemma {:induction false} PublishBatchIsALiveRun(w: World, rows: seq<nat>, deliveries: seq<Outbox.Delivery>, now: Time)
    returns (steps: seq<Step>)
    requires |rows| == |deliveries| && w.clock <= now
    ensures IsRun(w, steps, true) && w.clock <= After(w, steps).clock <= now
    ensures var p := Outbox.PublishedAll(w.db, w.sent, rows, deliveries, now);
      After(w, steps).db == p.db && After(w, steps).sent == p.sent
  {
    if rows == [] {
      steps := [];
    } else {
      var n := |rows| - 1;
      steps := PublishBatchIsALiveRun(w, rows[..n], deliveries[..n], now);
      if Outbox.PublishedAll(w.db, w.sent, rows[..n], deliveries[..n], now).ok {
        var s := Step(Publish(rows[n], deliveries[n]), now);
        Longer(w, steps, s);
        steps := steps + [s];
      }
    }
  }

  lemma {:induction false} ReapsAreALiveRun(w: World, rows: seq<AttemptId>, now: Time) returns (steps: seq<Step>)
    requires w.clock <= now
    ensures IsRun(w, steps, true) && w.clock <= After(w, steps).clock <= now
    ensures After(w, steps).db == Reconciliation.ReapedAll(w.db, rows, now).db
  {
    hide Reconciliation.Reaped;
    if rows == [] {
      steps := [];
    } else {
      var n := |rows| - 1;
      steps := ReapsAreALiveRun(w, rows[..n], now);
      var p := Reconciliation.ReapedAll(w.db, rows[..n], now);
      if p.ok && !Reconciliation.ReapRaises(p.db, rows[n]) {
        var s := Step(Reap(rows[n]), now);
        Longer(w, steps, s);
        steps := steps + [s];
      }
    }
  }

  /** A pass of the reaper is a live run: each row it finds is one transaction, and an exception ends it. */
  lemma {:induction false} PassIsALiveRun(w: World, attempts: seq<AttemptId>, queued: seq<JobId>, now: Time)
    returns (steps: seq<Step>)
    requires w.clock <= now
    ensures IsRun(w, steps, true) && w.clock <= After(w, steps).clock <= now
    ensures After(w, steps).db == Reconciliation.Reconciled(w.db, attempts, queued, now).db
    decreases |queued|
  {
    hide Reconciliation.ReapedAll, Reconciliation.Recovered;
    if queued == [] || !Reconciliation.ReapedAll(w.db, attempts, now).ok {
      steps := ReapsAreALiveRun(w, attempts, now);
    } else {
      var n := |queued| - 1;
      steps := PassIsALiveRun(w, attempts, queued[..n], now);
      var p := Reconciliation.Reconciled(w.db, attempts, queued[..n], now);
      if p.ok && !Execution.NoWayOut(p.db, queued[n]) {
        var s := Step(Recover(queued[n]), now);
        Longer(w, steps, s);
        steps := steps + [s];
      }
    }
  }
}
