/** What becomes of an event that is published, and how batches of the publisher drain the outbox. */
module Publication {
  import opened Tables
  import opened Protocol
  import opened Safety
  import Outbox
  import Runs
  import Steps

  /** Event `e` was published at `time`. */
  predicate PublishedAt(outbox: seq<OutboxRow>, e: nat, time: Time) {
    e < |outbox| && outbox[e].status == Published && outbox[e].publishedAt == Some(time)
  }

  /** An accepted send marks its event, changes no other, and makes the broker hold the message. */
  lemma AcceptedIsPublished(w: World, e: nat, now: Time, other: nat)
    requires w.clock <= now && e < |w.db.outbox| && w.db.outbox[e].status == Pending
    ensures var after := Exec(w, Step(Publish(e, Outbox.Accepted), now));
      && PublishedAt(after.db.outbox, e, now) && after.db.outbox[e].job == w.db.outbox[e].job && e in after.sent
      && |after.db.outbox| == |w.db.outbox|
      && (other < |w.db.outbox| && other != e ==> after.db.outbox[other] == w.db.outbox[other])
      && forall time :: e !in Outbox.PendingEvents(after.db, time)
  {
  }

  lemma PublishedStays(w: World, s: Step, e: nat)
    requires SlotsMatch(w.db.jobs, w.db.reservations) && Legal(w, s, false)
    requires e < |w.db.outbox| && w.db.outbox[e].status == Published
    ensures e < |Apply(w.db, s).outbox| && Apply(w.db, s).outbox[e] == w.db.outbox[e]
  {
    hide SlotsMatch, Legal, Apply;
    Steps.OutboxStep(w, s);
  }

  /** An event is published once: in every run it never changes again, and no later query for pending events
    * finds it.
    */
  lemma {:induction false} PublishedIsForever(tenants: map<TenantId, nat>, clock: Time, first: seq<Step>, more: seq<Step>, e: nat)
    requires IsRun(Initial(tenants, clock), first + more, false)
    requires var outbox := After(Initial(tenants, clock), first).db.outbox;
      e < |outbox| && outbox[e].status == Published
    ensures var was, now := After(Initial(tenants, clock), first).db, After(Initial(tenants, clock), first + more).db;
      && e < |now.outbox| && now.outbox[e] == was.outbox[e]
      && forall time :: e !in Outbox.PendingEvents(now, time)
  {
    hide Apply, Legal, DbSafe;
    if more == [] {
      assert first + more == first;
    } else {
      var n := |more| - 1;
      var steps, before := first + more, first + more[..n];
      assert steps[..|steps| - 1] == before && steps[|steps| - 1] == more[n];
      PublishedIsForever(tenants, clock, first, more[..n], e);
      Runs.EveryRunIsSafe(tenants, clock, before);
      Slots(After(Initial(tenants, clock), before).db);
      PublishedStays(After(Initial(tenants, clock), before), more[n], e);
    }
  }

  // ---- Batches whose sends are all accepted ---------------------------------------------------

  function AllAccepted(n: nat): (deliveries: seq<Outbox.Delivery>)
    ensures |deliveries| == n
  {
    seq(n, _ => Outbox.Accepted)
  }

  /** The event published by the last send of a batch. */
  lemma LastSend(db: Db, sent: set<nat>, rows: seq<nat>, now: Time)
    requires rows != []
    ensures var n := |rows| - 1;
      var p := Outbox.PublishedAll(db, sent, rows[..n], AllAccepted(n), now);
      p.ok && rows[n] < |p.db.outbox| && p.db.outbox[rows[n]].status == Pending ==>
        Outbox.PublishedAll(db, sent, rows, AllAccepted(|rows|), now) == Outbox.Progress(
          p.db.(outbox := p.db.outbox[rows[n] := p.db.outbox[rows[n]].(status := Published, publishedAt := Some(now))]),
          p.sent + {rows[n]}, true)
  {
    assert AllAccepted(|rows|)[..|rows| - 1] == AllAccepted(|rows| - 1);
  }

  ghost predicate BatchPublished(db: Db, sent: set<nat>, rows: seq<nat>, now: Time, p: Outbox.Progress) {
    && p.ok && p.sent == sent + Elements(rows) && p.db == db.(outbox := p.db.outbox)
    && |p.db.outbox| == |db.outbox|
    && forall e: nat :: e < |db.outbox| ==>
      p.db.outbox[e] ==
        if e in rows then db.outbox[e].(status := Published, publishedAt := Some(now)) else db.outbox[e]
  }

  lemma OneMorePublished(db: Db, sent: set<nat>, rows: seq<nat>, now: Time, p: Outbox.Progress, e: nat)
    requires BatchPublished(db, sent, rows, now, p) && e < |db.outbox| && e !in rows
    ensures BatchPublished(db, sent, rows + [e], now, Outbox.Progress(
      p.db.(outbox := p.db.outbox[e := p.db.outbox[e].(status := Published, publishedAt := Some(now))]), p.sent + {e}, true))
  {
    assert Elements(rows + [e]) == Elements(rows) + {e};
  }

  lemma {:induction false} BatchPublishes(db: Db, sent: set<nat>, rows: seq<nat>, now: Time)
    requires forall e :: e in rows ==> e < |db.outbox| && db.outbox[e].status == Pending
    requires forall i, k :: 0 <= i < k < |rows| ==> rows[i] != rows[k]
    ensures BatchPublished(db, sent, rows, now, Outbox.PublishedAll(db, sent, rows, AllAccepted(|rows|), now))
  {
    if rows == [] {
      assert Elements(rows) == {};
    } else {
      var n := |rows| - 1;
      assert forall e :: e in rows[..n] ==> e in rows;
      BatchPublishes(db, sent, rows[..n], now);
      LastSend(db, sent, rows, now);
      assert rows[n] in rows && rows[n] !in rows[..n] && rows == rows[..n] + [rows[n]];
      hide Outbox.PublishedAll;
      OneMorePublished(db, sent, rows[..n], now, Outbox.PublishedAll(db, sent, rows[..n], AllAccepted(n), now), rows[n]);
    }
  }

  lemma BatchRows(db: Db, rows: seq<nat>, limit: nat, now: Time)
    requires IsPage(rows, Outbox.PendingEvents(db, now), limit)
    ensures forall e :: e in rows ==> e < |db.outbox| && db.outbox[e].status == Pending && db.outbox[e].availableAt <= now
    ensures forall i, k :: 0 <= i < k < |rows| ==> rows[i] != rows[k]
  {
  }

  lemma BatchLeaves(db: Db, sent: set<nat>, rows: seq<nat>, limit: nat, now: Time)
    requires IsPage(rows, Outbox.PendingEvents(db, now), limit)
    ensures var p := Outbox.PublishedAll(db, sent, rows, AllAccepted(|rows|), now);
      Outbox.PendingEvents(p.db, now).Keys == Outbox.PendingEvents(db, now).Keys - Elements(rows)
  {
    BatchRows(db, rows, limit, now);
    BatchPublishes(db, sent, rows, now);
    hide IsPage, Outbox.PublishedAll;
  }

  /** A batch sends the oldest due events: none is left behind by a younger one, and only a full batch leaves
    * any behind.
    */
  lemma BatchTakesOldest(db: Db, rows: seq<nat>, limit: nat, now: Time, e: nat)
    requires IsPage(rows, Outbox.PendingEvents(db, now), limit)
    requires e < |db.outbox| && db.outbox[e].status == Pending && db.outbox[e].availableAt <= now && e !in rows
    ensures |rows| == limit && forall i :: 0 <= i < |rows| ==> rows[i] < e
    ensures forall i, k :: 0 <= i < k < |rows| ==> rows[i] < rows[k]
  {
    var pool := Outbox.PendingEvents(db, now);
    assert e in pool;
    DistinctCount(rows);
    SubsetCount(Elements(rows) + {e}, pool.Keys);
    assert |Elements(rows) + {e}| == |rows| + 1;
    assert |pool.Keys| == |pool|;
    forall i | 0 <= i < |rows|
      ensures rows[i] < e
    {
      assert rows[i] in rows && !Before(pool[e], pool[rows[i]]);
    }
    forall i, k | 0 <= i < k < |rows|
      ensures rows[i] < rows[k]
    {
      assert rows[i] in rows && rows[k] in rows && !Before(pool[rows[k]], pool[rows[i]]);
    }
  }

  ghost function AfterBatches(db: Db, batches: seq<seq<nat>>, now: Time): Db {
    if batches == [] then db
    else
      var rows := batches[|batches| - 1];
      Outbox.PublishedAll(AfterBatches(db, batches[..|batches| - 1], now), {}, rows, AllAccepted(|rows|), now).db
  }

  ghost predicate AreBatches(db: Db, batches: seq<seq<nat>>, limit: nat, now: Time) {
    batches == [] ||
    (AreBatches(db, batches[..|batches| - 1], limit, now)
     && IsPage(batches[|batches| - 1], Outbox.PendingEvents(AfterBatches(db, batches[..|batches| - 1], now), now), limit))
  }

  /** Batches whose sends are all accepted drain the due events at the rate of `limit` each, exactly. */
  lemma {:induction false} BatchesDrain(db: Db, batches: seq<seq<nat>>, limit: nat, now: Time)
    requires AreBatches(db, batches, limit, now)
    ensures |Outbox.PendingEvents(AfterBatches(db, batches, now), now).Keys|
      == Less(|Outbox.PendingEvents(db, now).Keys|, |batches| * limit)
  {
    hide Outbox.PendingEvents, Outbox.PublishedAll, IsPage;
    if batches != [] {
      var n := |batches| - 1;
      BatchesDrain(db, batches[..n], limit, now);
      var before := AfterBatches(db, batches[..n], now);
      var due := Outbox.PendingEvents(before, now);
      PageOf(batches[n], due, limit);
      BatchLeaves(before, {}, batches[n], limit, now);
      assert |due| == |due.Keys|;
      LessWithout(due.Keys, Elements(batches[n]), limit);
      LessTwice(|Outbox.PendingEvents(db, now).Keys|, limit, n + 1);
    }
  }
}
