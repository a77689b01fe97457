/** The three lists of the Control Room, said on the columns
    (backend/src/eventharbor/control_room.py). */
module Listings {
  import opened Schema
  import opened Transport
  import opened Transactions
  import opened Invariants
  import opened WorkerProofs
  import opened ServiceProofs
  import opened Paging
  import opened ControlRoom

  /** The delivery is the last generation of its event. */
  predicate IsHead(db: DB, d: Id) {
    && d in db.deliveries
    && forall x | x in db.deliveries && db.deliveries[x].eventId == db.deliveries[d].eventId ::
         db.deliveries[x].generation <= db.deliveries[d].generation
  }

  lemma LatestIsHead(s: Settings, db: DB, d: Id)
    requires Inv(s, db) && d in db.deliveries
    ensures LatestGeneration(db, d) <==> IsHead(db, d)
  {
    hide Constraints, Ledger, LineageOf, HasInitial;
    forall x | x in db.deliveries && db.deliveries[x].eventId == db.deliveries[d].eventId
      ensures SameChain(db.deliveries[x], db.deliveries[d])
    {
      OneEndpointPerEvent(db, x, d);
    }
  }

  /** Newest first; of equally old rows the one with the larger id first. */
  predicate NewestFirst(keys: seq<(Time, Id)>) {
    forall i, j | 0 <= i < j < |keys| ::
      keys[i].0 > keys[j].0 || (keys[i].0 == keys[j].0 && keys[i].1 > keys[j].1)
  }

  lemma WalkIsNewestFirst(rows: set<Row>, limit: nat, keys: seq<(Time, Id)>)
    requires KeysUnique(rows) && limit >= 1 && |keys| == |Walk(rows, limit, None)|
    requires forall i | 0 <= i < |keys| ::
               var r := Walk(rows, limit, None)[i];
               keys[i].0 == r.key.timestamp && keys[i].1 == r.key.rowId
    ensures NewestFirst(keys)
    ensures forall r :: r in Walk(rows, limit, None) <==> r in rows
  {
    hide Walk, Descending;
    WalkIsTheList(rows, limit, None);
    DescendingIsTheList(rows);
    var walk := Walk(rows, limit, None);
    forall i, j | 0 <= i < j < |keys|
      ensures keys[i].0 > keys[j].0 || (keys[i].0 == keys[j].0 && keys[i].1 > keys[j].1)
    {
      assert Below(walk[j].key, walk[i].key);
    }
  }

  // ----- events -----

  predicate Filtered(db: DB, f: EventFilter, d: Id)
    requires d in db.deliveries
  {
    var row := db.deliveries[d];
    && row.eventId in db.events && row.endpointId in db.endpoints
    && (f.eventType.None? || f.eventType.value == db.events[row.eventId].eventType)
    && (f.endpointId.None? || f.endpointId.value == row.endpointId)
    && (f.status.None? || f.status.value == row.status)
  }

  /** The event list, page by page: exactly the events whose last generation passes the filter, with
      that delivery, each once, newest first. */
  lemma EventListOnColumns(s: Settings, db: DB, f: EventFilter, limit: nat)
    returns (keys: seq<(Time, Id)>)
    requires Inv(s, db) && limit >= 1
    ensures KeysUnique(EventRows(db, f))
    ensures var walk := Walk(EventRows(db, f), limit, None);
            && |keys| == |walk| && NewestFirst(keys)
            && (forall i | 0 <= i < |walk| ::
                  var d := walk[i].record;
                  && IsHead(db, d) && Filtered(db, f, d)
                  && keys[i].1 == db.deliveries[d].eventId
                  && keys[i].0 == db.events[keys[i].1].createdAt)
            && (forall d | IsHead(db, d) && Filtered(db, f, d) ::
                  exists i :: 0 <= i < |walk| && walk[i].record == d)
  {
    hide Inv, InEventList, Below, Descending, Walk, KeysUnique, Filtered, IsHead, NewestFirst;
    EventWalkIsComplete(s, db, f, limit);
    var walk := Walk(EventRows(db, f), limit, None);
    forall d | d in db.deliveries
      ensures InEventList(db, f, d) <==> IsHead(db, d) && Filtered(db, f, d)
    {
      ListedIsFiltered(s, db, f, d);
    }
    forall d ensures IsHead(db, d) ==> d in db.deliveries { HeadIsRow(db, d); }
    forall d ensures InEventList(db, f, d) ==>
                       d in db.deliveries && db.deliveries[d].eventId in db.events
    {
      ListedHasEvent(db, f, d);
    }
    keys := seq(|walk|, i requires 0 <= i < |walk| => (walk[i].key.timestamp, walk[i].key.rowId));
    WalkIsNewestFirst(EventRows(db, f), limit, keys);
    forall d | IsHead(db, d) && Filtered(db, f, d)
      ensures exists i :: 0 <= i < |walk| && walk[i].record == d
    {
      assert d in Records(walk);
    }
  }

  lemma HeadIsRow(db: DB, d: Id)
    ensures IsHead(db, d) ==> d in db.deliveries
  {
  }

  lemma ListedHasEvent(db: DB, f: EventFilter, d: Id)
    ensures InEventList(db, f, d) ==> d in db.deliveries && db.deliveries[d].eventId in db.events
  {
  }

  lemma ListedIsFiltered(s: Settings, db: DB, f: EventFilter, d: Id)
    requires Inv(s, db) && d in db.deliveries
    ensures InEventList(db, f, d) <==> IsHead(db, d) && Filtered(db, f, d)
  {
    hide Inv, LatestGeneration, IsHead;
    LatestIsHead(s, db, d);
  }

  // ----- dead letters -----

  predicate IsDeadHead(db: DB, endpointId: Option<Id>, d: Id) {
    && IsHead(db, d) && db.deliveries[d].status == DeadLettered
    && (endpointId.None? || endpointId.value == db.deliveries[d].endpointId)
  }

  lemma DeadLettersAreHeads(s: Settings, db: DB, endpointId: Option<Id>)
    requires Inv(s, db)
    ensures forall d :: InDeadLetterList(db, endpointId, d) <==> IsDeadHead(db, endpointId, d)
  {
    hide Inv, LatestGeneration, LedgerOf, RowChecks, UniqueAttempts, IsHead;
    forall d ensures InDeadLetterList(db, endpointId, d) <==> IsDeadHead(db, endpointId, d) {
      HeadIsRow(db, d);
      if d in db.deliveries {
        RowFacts(s, db, d);
        LatestIsHead(s, db, d);
      }
    }
  }

  /** The dead-letter list, page by page: exactly the dead-lettered last generations of the endpoint
      asked for, each once, the latest written first. */
  lemma DeadLetterListOnColumns(s: Settings, db: DB, endpointId: Option<Id>, limit: nat)
    returns (keys: seq<(Time, Id)>)
    requires Inv(s, db) && limit >= 1
    ensures KeysUnique(DeadLetterRows(db, endpointId))
    ensures var walk := Walk(DeadLetterRows(db, endpointId), limit, None);
            && |keys| == |walk| && NewestFirst(keys)
            && (forall i | 0 <= i < |walk| ::
                  && IsDeadHead(db, endpointId, keys[i].1) && walk[i].record == keys[i].1
                  && keys[i].1 in db.deliveries
                  && keys[i].0 == db.deliveries[keys[i].1].updatedAt)
            && (forall d | IsDeadHead(db, endpointId, d) ::
                  exists i :: 0 <= i < |walk| && walk[i].record == d)
  {
    hide Inv, InDeadLetterList, Below, Descending, Walk, IsHead, NewestFirst, KeysUnique;
    var rows := DeadLetterRows(db, endpointId);
    DeadLetterWalkIsComplete(db, endpointId, limit);
    DeadLettersAreHeads(s, db, endpointId);
    var walk := Walk(rows, limit, None);
    keys := seq(|walk|, i requires 0 <= i < |walk| => (walk[i].key.timestamp, walk[i].key.rowId));
    WalkIsNewestFirst(rows, limit, keys);
    forall i | 0 <= i < |walk|
      ensures walk[i].record in db.deliveries && IsDeadHead(db, endpointId, walk[i].record)
      ensures walk[i] == DeadLetterRow(db, walk[i].record)
    {
      assert walk[i] in rows;
    }
    forall d | IsDeadHead(db, endpointId, d)
      ensures exists i :: 0 <= i < |walk| && walk[i].record == d
    {
      assert DeadLetterRow(db, d) in walk;
    }
  }

  // ----- endpoints -----

  /** The endpoint list, page by page: every endpoint once, newest first. */
  lemma EndpointListOnColumns(db: DB, limit: nat) returns (keys: seq<(Time, Id)>)
    requires limit >= 1
    ensures KeysUnique(EndpointRows(db))
    ensures var walk := Walk(EndpointRows(db), limit, None);
            && |keys| == |walk| && NewestFirst(keys)
            && (forall i | 0 <= i < |walk| ::
                  && walk[i].record == keys[i].1 && keys[i].1 in db.endpoints
                  && keys[i].0 == db.endpoints[keys[i].1].createdAt)
            && (forall p | p in db.endpoints ::
                  exists i :: 0 <= i < |walk| && walk[i].record == p)
  {
    hide Below, Descending, Walk, NewestFirst, KeysUnique;
    var rows := EndpointRows(db);
    EndpointWalkIsComplete(db, limit);
    var walk := Walk(rows, limit, None);
    keys := seq(|walk|, i requires 0 <= i < |walk| => (walk[i].key.timestamp, walk[i].key.rowId));
    WalkIsNewestFirst(rows, limit, keys);
    forall i | 0 <= i < |walk|
      ensures walk[i].record in db.endpoints && walk[i].key.rowId == walk[i].record
      ensures walk[i].key.timestamp == db.endpoints[walk[i].record].createdAt
    {
      assert walk[i] in rows;
    }
    forall p | p in db.endpoints ensures exists i :: 0 <= i < |walk| && walk[i].record == p {
      assert Row(PageCursor(db.endpoints[p].createdAt, p), p) in walk;
    }
  }

  // ----- the overview and the shown evidence -----

  /** A status count of the overview counts the events whose last generation has that status. */
  lemma CountsOnColumns(s: Settings, db: DB, status: DeliveryStatus) returns (heads: set<Id>)
    requires Inv(s, db)
    ensures forall d :: d in heads <==> IsHead(db, d) && db.deliveries[d].status == status
    ensures CountByStatus(db, status) == |heads|
  {
    hide Inv, LatestGeneration, IsHead;
    heads := OfStatus(db, LatestDeliveries(db), status);
    forall d ensures IsHead(db, d) ==> d in db.deliveries { HeadIsRow(db, d); }
    forall d ensures d in heads <==> IsHead(db, d) && db.deliveries[d].status == status {
      if d in db.deliveries {
        LatestIsHead(s, db, d);
      }
    }
  }

  /** The evidence shown with a dead letter is that of its last attempt; without an attempt there is
      none. */
  lemma EvidenceOnColumns(s: Settings, db: DB, d: Id)
    requires Inv(s, db) && d in db.deliveries
    ensures forall a | a in db.attempts && db.attempts[a].deliveryId == d
                       && db.attempts[a].number == db.deliveries[d].attemptCount ::
              LastEvidence(db, d) == (db.attempts[a].httpStatus, db.attempts[a].excerpt)
    ensures db.deliveries[d].attemptCount == 0 ==> LastEvidence(db, d) == (None, None)
  {
    hide Inv, LedgerOf, RowChecks, UniqueAttempts;
    InvGivesUniqueAttempts(s, db);
    forall a | a in db.attempts && db.attempts[a].deliveryId == d
      ensures 1 <= db.attempts[a].number <= db.deliveries[d].attemptCount
    {
      AttemptFacts(s, db, a);
    }
    forall a | a in db.attempts && db.attempts[a].deliveryId == d
               && db.attempts[a].number == db.deliveries[d].attemptCount
      ensures LastEvidence(db, d) == (db.attempts[a].httpStatus, db.attempts[a].excerpt)
    {
      assert IsLastAttempt(db, d, a);
      forall b | IsLastAttempt(db, d, b) ensures b == a {
        OneLastAttempt(db, d, b, a);
      }
    }
  }
}
