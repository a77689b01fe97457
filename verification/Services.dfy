/** `EventService` and `ReplayService` (backend/src/eventharbor/services.py) over the shared
    database. Each method is proved equal to its transaction in `Transactions`. */
module Services {
  import opened Schema
  import opened Retry
  import opened Transactions
  import opened ServiceProofs
  import opened Envelopes
  import opened Tables

  class EventService {
    const db: Database

    constructor (db: Database)
      ensures this.db == db
    {
      this.db := db;
    }

    /** The event that holds a key, if any. */
    method GetByIdempotencyKey(key: string) returns (found: Option<Id>)
      requires Constraints(db.Contents())
      ensures found.None? <==> !(exists e :: HoldsKey(db.Contents(), key, e))
      ensures found.Some? ==> HoldsKey(db.Contents(), key, found.value)
      ensures forall e | HoldsKey(db.Contents(), key, e) :: found.Some? && found.value == e
    {
      var rows := set e | e in db.events && HoldsKey(db.Contents(), key, e);
      forall e | HoldsKey(db.Contents(), key, e) ensures e in rows {
      }
      if rows == {} {
        return None;
      }
      var e :| e in rows;
      forall x | HoldsKey(db.Contents(), key, x) ensures x == e {
        KeyHolderIsUnique(db.Contents(), key, x, e);
      }
      return Some(e);
    }

    method GetInitial(eventId: Id, endpointId: Id) returns (found: Option<Id>)
      requires Constraints(db.Contents())
      ensures found.None? <==> !(exists d :: IsInitial(db.Contents(), eventId, endpointId, d))
      ensures forall d | IsInitial(db.Contents(), eventId, endpointId, d) ::
                found.Some? && found.value == d
    {
      var rows := set d | d in db.deliveries && IsInitial(db.Contents(), eventId, endpointId, d);
      forall d | IsInitial(db.Contents(), eventId, endpointId, d) ensures d in rows {
      }
      if rows == {} {
        return None;
      }
      var d :| d in rows;
      forall x | IsInitial(db.Contents(), eventId, endpointId, x) ensures x == d {
        var rowX, rowD := db.deliveries[x], db.deliveries[d];
        assert x != d ==> !DeliveriesClash(rowX, rowD);
      }
      return Some(d);
    }

    method Publish(q: PublishRequest, key: string, m: Minted) returns (outcome: PublishOutcome)
      requires Constraints(db.Contents())
      modifies db
      ensures (db.Contents(), outcome) == PublishTx(old(db.Contents()), q, key, m)
      ensures outcome == Published(m.eventId, m.deliveryId, false) ==>
                && m.eventId in db.events && m.deliveryId in db.deliveries
                && AsRequested(db.events[m.eventId], m.eventId, q, key, m.createdAt)
                && db.deliveries[m.deliveryId].eventId == m.eventId
                && db.deliveries[m.deliveryId].endpointId == q.endpointId
                && StartsAt(db.deliveries[m.deliveryId], m.databaseNow, m.createdAt)
    {
      hide Constraints, IsSpace, IsInitial;
      var saved := db.Contents();
      if Blank(key) {
        return PublishRefused(InvalidIdempotencyKey);
      }
      if q.endpointId !in db.endpoints {
        return PublishRefused(EndpointNotFound);
      }
      var endpoint := db.endpoints[q.endpointId];
      if q.data.None? {
        return PublishRefused(InvalidEventData);
      }

      var holder := GetByIdempotencyKey(key);
      if holder.Some? {
        outcome := ResolveReplay(q, holder.value);
        return;
      }
      assert db.Contents() == saved;
      db.events := db.events[m.eventId := NewEvent(q, key, m)];
      ghost var inserted := db.Contents();
      assert inserted == InsertEvent(saved, q, key, m);
      var ok := db.Flush();
      if !ok {
        db.Rollback(saved);
        return PublishRaised(IntegrityError);
      }
      if !endpoint.enabled {
        db.Rollback(saved);
        return PublishRefused(DisabledEndpoint);
      }
      db.deliveries := db.deliveries[m.deliveryId :=
        NewDelivery(m.eventId, q.endpointId, m.createdAt, m.databaseNow)];
      assert db.Contents() == Accept(saved, q, key, m);
      ok := db.Flush();
      if !ok {
        db.Rollback(saved);
        return PublishRaised(IntegrityError);
      }
      return Published(m.eventId, m.deliveryId, false);
    }

    method ResolveReplay(q: PublishRequest, e: Id) returns (outcome: PublishOutcome)
      requires Constraints(db.Contents()) && q.data.Some? && e in db.events
      ensures outcome == ResolveIdempotentReplay(db.Contents(), q, e)
    {
      hide Constraints, IsInitial;
      if db.events[e].fingerprint != FingerprintOf(q) {
        return PublishRefused(IdempotencyKeyReused);
      }
      var delivery := GetInitial(e, q.endpointId);
      if delivery.None? {
        return PublishRaised(MissingInitialDelivery);
      }
      return Published(e, delivery.value, true);
    }
  }

  class ReplayService {
    const db: Database

    constructor (db: Database)
      ensures this.db == db
    {
      this.db := db;
    }

    /** `replay` up to its first lock: the unlocked read. It declines exactly a blank key or an
        unknown source, and otherwise keeps the stored row as it is. */
    method Begin(sourceId: Id, key: string) returns (r: ReplayStart)
      ensures r == ReplayBegin(db.Contents(), sourceId, key)
      ensures r.Declined? <==> Blank(key) || sourceId !in db.deliveries
      ensures r.Began? ==> r.call.sourceId == sourceId && r.call.key == key
                           && r.call.seen == db.deliveries[sourceId]
    {
      if Blank(key) {
        return Declined(InvalidIdempotencyKey);
      }
      if sourceId !in db.deliveries {
        return Declined(DeliveryNotFound);
      }
      return Began(ReplayCall(sourceId, db.deliveries[sourceId], key));
    }

    method GetExisting(sourceId: Id, key: string) returns (found: Option<Id>)
      requires Constraints(db.Contents())
      ensures found == GetByReplayRequest(db.Contents(), sourceId, key)
    {
      var rows := set d | d in db.deliveries && IsReplayOf(db.Contents(), sourceId, key, d);
      forall d | IsReplayOf(db.Contents(), sourceId, key, d) ensures d in rows {
      }
      if rows == {} {
        return None;
      }
      var d :| d in rows;
      forall x | IsReplayOf(db.Contents(), sourceId, key, x) ensures x == d {
        var rowX, rowD := db.deliveries[x], db.deliveries[d];
        assert x != d ==> !DeliveriesClash(rowX, rowD);
      }
      return Some(d);
    }

    /** The highest generation of a chain. */
    method GetLatest(eventId: Id, endpointId: Id) returns (found: Option<Id>)
      requires Constraints(db.Contents())
      ensures found.None? <==> !(exists d :: IsLatest(db.Contents(), eventId, endpointId, d))
      ensures forall d | IsLatest(db.Contents(), eventId, endpointId, d) ::
                found.Some? && found.value == d
      ensures found.Some? ==> IsLatest(db.Contents(), eventId, endpointId, found.value)
    {
      var chain := set d | d in db.deliveries && InChain(db.Contents(), eventId, endpointId, d);
      forall d | InChain(db.Contents(), eventId, endpointId, d) ensures d in chain {
      }
      if chain == {} {
        return None;
      }
      ghost var best := HighestGeneration(db.Contents(), chain);
      var top :| top in chain
                 && forall d | d in chain :: db.deliveries[d].generation <= db.deliveries[top].generation;
      assert IsLatest(db.Contents(), eventId, endpointId, top);
      forall d | IsLatest(db.Contents(), eventId, endpointId, d) ensures d == top {
        var rowD, rowTop := db.deliveries[d], db.deliveries[top];
        assert d != top ==> !DeliveriesClash(rowD, rowTop);
      }
      return Some(top);
    }

    /** The block code of the last attempt, if there is an attempt. */
    method BlockOfLastAttempt(id: Id) returns (block: Option<BlockCode>)
      requires Constraints(db.Contents())
      ensures block == BlockOf(db.Contents(), id)
    {
      hide UniqueAttempts, UniqueEvents, UniqueDeliveries, RowChecks, ForeignKeys;
      var rows := set a | a in db.attempts && db.attempts[a].deliveryId == id;
      forall a | IsLastAttempt(db.Contents(), id, a) ensures a in rows {
      }
      if rows == {} {
        return None;
      }
      ghost var best := LastNumber(db.Contents(), rows);
      var last :| last in rows
                  && forall a | a in rows :: db.attempts[a].number <= db.attempts[last].number;
      assert IsLastAttempt(db.Contents(), id, last);
      forall a | IsLastAttempt(db.Contents(), id, a) ensures a == last {
        OneLastAttempt(db.Contents(), id, a, last);
      }
      return ReplayBlockCode(db.attempts[last].httpStatus, db.attempts[last].excerpt);
    }

    /** `replay` from its lock on, with the row the session loaded at the first read. */
    method Decide(call: ReplayCall, newId: Id, now: Time, databaseNow: Time)
      returns (outcome: ReplayOutcome)
      requires Constraints(db.Contents())
      modifies db
      ensures (db.Contents(), outcome)
              == ReplayTx(old(db.Contents()), call, newId, now, databaseNow)
    {
      hide Constraints, IsLatest, BlockOf, GetByReplayRequest;
      var saved := db.Contents();
      var eventId, endpointId := call.seen.eventId, call.seen.endpointId;
      if eventId !in db.events {
        return ReplayRaised(EventVanished);
      }
      if call.sourceId !in db.deliveries {
        return ReplayRaised(SourceVanished);
      }
      var existing := GetExisting(call.sourceId, call.key);
      if existing.Some? {
        return Replayed(call.sourceId, existing.value, true);
      }
      var latest := GetLatest(eventId, endpointId);
      if latest.None? {
        return ReplayRaised(NoLatestGeneration);
      }
      if latest.value != call.sourceId {
        return ReplayRefused(ReplaySourceSuperseded);
      }
      if call.seen.status != DeadLettered {
        return ReplayRefused(DeliveryNotReplayable);
      }
      var block := BlockOfLastAttempt(call.sourceId);
      if block.Some? {
        return ReplayRefused(PayloadCorrection);
      }
      var active := set d | d in db.deliveries && InChain(db.Contents(), eventId, endpointId, d)
                            && Active(db.deliveries[d].status);
      if active != {} {
        return ReplayRefused(ActiveDeliveryExists);
      }
      assert forall d :: InChain(saved, eventId, endpointId, d) && Active(saved.deliveries[d].status)
                         ==> d in active;
      if endpointId !in db.endpoints {
        return ReplayRaised(MissingEndpoint);
      }
      if !db.endpoints[endpointId].enabled {
        return ReplayRefused(DisabledEndpoint);
      }
      db.deliveries := db.deliveries[newId := ReplayRow(call, now, databaseNow)];
      assert db.Contents()
             == saved.(deliveries := saved.deliveries[newId := ReplayRow(call, now, databaseNow)]);
      var ok := db.Flush();
      if !ok {
        db.Rollback(saved);
        return ReplayRaised(IntegrityError);
      }
      return Replayed(call.sourceId, newId, false);
    }
  }

  /** Every non-empty set of attempts has one with the highest number. */
  lemma {:induction false} LastNumber(db: DB, rows: set<Id>) returns (last: Id)
    requires rows != {} && forall a | a in rows :: a in db.attempts
    ensures last in rows
    ensures forall a | a in rows :: db.attempts[a].number <= db.attempts[last].number
    decreases |rows|
  {
    last :| last in rows;
    var rest := rows - {last};
    if rest != {} {
      var best := LastNumber(db, rest);
      if db.attempts[best].number > db.attempts[last].number {
        last := best;
      }
    }
    forall a | a in rows ensures db.attempts[a].number <= db.attempts[last].number {
      assert a in rest || rows == rest + {a};
    }
  }
}
