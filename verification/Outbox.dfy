/** Handing pending dispatch events to the message broker (jobs/services/outbox.py). */
module Outbox {
  import opened Tables

  /** What became of one call of the broker: it took the message and the transaction committed, it
    * refused the message, or it took it and the transaction was lost before it committed.
    */
  datatype Delivery = Accepted | Refused | Lost

  /** The broker, seen as the outbox positions whose message it was ever given. A message carries the
    * job of its row; nothing is assumed about how often or in which order messages come out.
    */
  class Broker {
    var sent: set<nat>
    constructor ()
      ensures sent == {}
    {
      sent := {};
    }
  }

  predicate Sendable(db: Db, e: nat) {
    e < |db.outbox| && db.outbox[e].status.Pending?
  }

  function PublishedRow(row: OutboxRow, now: Time): OutboxRow {
    row.(status := Published, publishedAt := Some(now))
  }

  function PublishedOne(db: Db, e: nat, delivery: Delivery, now: Time): Db {
    if Sendable(db, e) && delivery.Accepted? then db.(outbox := db.outbox[e := PublishedRow(db.outbox[e], now)]) else db
  }

  function SentOne(db: Db, sent: set<nat>, e: nat, delivery: Delivery): set<nat> {
    if Sendable(db, e) && !delivery.Refused? then sent + {e} else sent
  }

  predicate PublishRaises(db: Db, e: nat, delivery: Delivery) {
    e >= |db.outbox| || (Sendable(db, e) && !delivery.Accepted?)
  }

  /** The error branch writes the row before it raises, and raising undoes what it wrote. */
  method PublishEvent(db: Database, broker: Broker, e: nat, delivery: Delivery, now: Time) returns (r: Outcome<()>)
    modifies db, broker
    ensures db.View() == PublishedOne(old(db.View()), e, delivery, now)
    ensures broker.sent == SentOne(old(db.View()), old(broker.sent), e, delivery)
    ensures r.Raised? <==> PublishRaises(old(db.View()), e, delivery)
  {
    var saved := db.View();
    if e >= |db.outbox| {
      return Raised(DoesNotExist);
    }
    var event := db.outbox[e];
    if event.status != Pending {
      return Ok(());
    }
    if delivery.Refused? {
      event := event.(publishAttempts := event.publishAttempts + 1, lastError := Some("broker unreachable"));
      db.outbox := db.outbox[e := event];
      db.Restore(saved);
      return Raised(BrokerError);
    }
    broker.sent := broker.sent + {e};
    event := event.(status := Published, publishedAt := Some(now));
    db.outbox := db.outbox[e := event];
    if delivery.Lost? {
      db.Restore(saved);
      return Raised(BrokerError);
    }
    return Ok(());
  }

  /** The pending events that are due, oldest first. */
  function PendingEvents(db: Db, now: Time): map<nat, Rank> {
    map e: nat | 0 <= e < |db.outbox| && db.outbox[e].status.Pending? && db.outbox[e].availableAt <= now :: Rank(e, 0)
  }

  datatype Progress = Progress(db: Db, sent: set<nat>, ok: bool)

  /** The events of a batch one by one, until one raises. */
  function PublishedAll(db: Db, sent: set<nat>, rows: seq<nat>, deliveries: seq<Delivery>, now: Time): Progress
    requires |rows| == |deliveries|
  {
    if rows == [] then Progress(db, sent, true)
    else
      var n := |rows| - 1;
      var p := PublishedAll(db, sent, rows[..n], deliveries[..n], now);
      if !p.ok then p
      else Progress(PublishedOne(p.db, rows[n], deliveries[n], now), SentOne(p.db, p.sent, rows[n], deliveries[n]),
                    !PublishRaises(p.db, rows[n], deliveries[n]))
  }

  lemma {:induction false} PublishStopped(db: Db, sent: set<nat>, rows: seq<nat>, deliveries: seq<Delivery>, i: nat, now: Time)
    requires |rows| == |deliveries| && i <= |rows|
    requires !PublishedAll(db, sent, rows[..i], deliveries[..i], now).ok
    ensures PublishedAll(db, sent, rows, deliveries, now) == PublishedAll(db, sent, rows[..i], deliveries[..i], now)
  {
    if i == |rows| {
      assert rows[..i] == rows && deliveries[..i] == deliveries;
    } else {
      var n := |rows| - 1;
      assert rows[..n][..i] == rows[..i] && deliveries[..n][..i] == deliveries[..i];
      PublishStopped(db, sent, rows[..n], deliveries[..n], i, now);
    }
  }

  method PublishPending(db: Database, broker: Broker, rows: seq<nat>, deliveries: seq<Delivery>, ghost limit: nat, now: Time)
    returns (r: Outcome<()>)
    requires IsPage(rows, PendingEvents(db.View(), now), limit) && |deliveries| == |rows|
    modifies db, broker
    ensures Progress(db.View(), broker.sent, r.Ok?) == PublishedAll(old(db.View()), old(broker.sent), rows, deliveries, now)
  {
    ghost var before, sent := db.View(), broker.sent;
    for i := 0 to |rows|
      invariant PublishedAll(before, sent, rows[..i], deliveries[..i], now) == Progress(db.View(), broker.sent, true)
    {
      assert rows[..i + 1][..i] == rows[..i] && deliveries[..i + 1][..i] == deliveries[..i];
      r := PublishEvent(db, broker, rows[i], deliveries[i], now);
      if r.Raised? {
        PublishStopped(before, sent, rows, deliveries, i + 1, now);
        return;
      }
    }
    assert rows[..|rows|] == rows && deliveries[..|rows|] == deliveries;
    return Ok(());
  }
}
