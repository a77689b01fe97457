/** The Control Room's read models in a reachable database
    (backend/src/eventharbor/control_room.py, backend/src/eventharbor/routers/v1.py). */
module ControlRoom {
  import opened Schema
  import opened Retry
  import opened Transport
  import opened Transactions
  import opened Invariants
  import opened WorkerProofs
  import opened ServiceProofs
  import opened Paging

  /** No newer generation in the same chain. */
  ghost predicate LatestGeneration(db: DB, d: Id)
    requires d in db.deliveries
  {
    !(exists x :: x in db.deliveries && SameChain(db.deliveries[x], db.deliveries[d])
                  && db.deliveries[x].generation > db.deliveries[d].generation)
  }

  lemma LatestAgrees(db: DB, d: Id)
    requires d in db.deliveries
    ensures LatestGeneration(db, d)
            <==> IsLatest(db, db.deliveries[d].eventId, db.deliveries[d].endpointId, d)
  {
    var row := db.deliveries[d];
    if !IsLatest(db, row.eventId, row.endpointId, d) {
      var x :| InChain(db, row.eventId, row.endpointId, x)
               && db.deliveries[x].generation > row.generation;
      assert SameChain(db.deliveries[x], db.deliveries[d]);
    }
    if x :| x in db.deliveries && SameChain(db.deliveries[x], db.deliveries[d])
            && db.deliveries[x].generation > row.generation {
      assert InChain(db, row.eventId, row.endpointId, x);
    }
  }

  // ----- the event list -----

  datatype EventFilter = EventFilter(
    eventType: Option<string>, endpointId: Option<Id>, status: Option<DeliveryStatus>)

  predicate Matches(db: DB, f: EventFilter, d: Id)
    requires d in db.deliveries && db.deliveries[d].eventId in db.events
  {
    && (f.eventType.Some? ==> db.events[db.deliveries[d].eventId].eventType == f.eventType.value)
    && (f.endpointId.Some? ==> db.deliveries[d].endpointId == f.endpointId.value)
    && (f.status.Some? ==> db.deliveries[d].status == f.status.value)
  }

  /** The join of events, their latest deliveries and endpoints, filtered. */
  ghost predicate InEventList(db: DB, f: EventFilter, d: Id) {
    && d in db.deliveries && LatestGeneration(db, d)
    && db.deliveries[d].eventId in db.events && db.deliveries[d].endpointId in db.endpoints
    && Matches(db, f, d)
  }

  function EventRow(db: DB, d: Id): Row
    requires d in db.deliveries && db.deliveries[d].eventId in db.events
  {
    var e := db.deliveries[d].eventId;
    Row(PageCursor(db.events[e].createdAt, e), d)
  }

  ghost function EventRows(db: DB, f: EventFilter): set<Row> {
    set d | d in db.deliveries && InEventList(db, f, d) :: EventRow(db, d)
  }

  /** Each event has exactly one latest delivery. */
  lemma OneLatestPerEvent(s: Settings, db: DB, d1: Id, d2: Id)
    requires Inv(s, db) && d1 in db.deliveries && d2 in db.deliveries
    requires LatestGeneration(db, d1) && LatestGeneration(db, d2)
    requires db.deliveries[d1].eventId == db.deliveries[d2].eventId
    ensures d1 == d2
  {
    hide RowChecks, UniqueEvents, UniqueAttempts, ForeignKeys, Ledger, LineageOf, HasInitial;
    OneEndpointPerEvent(db, d1, d2);
    var row1, row2 := db.deliveries[d1], db.deliveries[d2];
    assert SameChain(row1, row2) && SameChain(row2, row1);
    assert d1 != d2 ==> !DeliveriesClash(row1, row2);
  }

  lemma EventKeysUnique(s: Settings, db: DB, f: EventFilter)
    requires Inv(s, db)
    ensures KeysUnique(EventRows(db, f))
  {
    hide Inv, LatestGeneration, Matches;
    forall r1, r2 | r1 in EventRows(db, f) && r2 in EventRows(db, f) && r1.key == r2.key
      ensures r1 == r2
    {
      OneLatestPerEvent(s, db, r1.record, r2.record);
    }
  }

  /** Following `next_cursor` through the event list, with any filter and any page size, visits
      the latest delivery of every matching event exactly once, newest event first. It rests on
      every event having a single endpoint: two latest deliveries of one event would share a
      cursor. */
  lemma EventWalkIsComplete(s: Settings, db: DB, f: EventFilter, limit: nat)
    requires Inv(s, db) && limit >= 1
    ensures KeysUnique(EventRows(db, f))
    ensures var walk := Walk(EventRows(db, f), limit, None);
            && (forall d :: InEventList(db, f, d) <==> d in db.deliveries && d in Records(walk))
            && (forall r | r in walk :: InEventList(db, f, r.record) && r == EventRow(db, r.record))
            && (forall i, j | 0 <= i < j < |walk| :: Below(walk[j].key, walk[i].key))
  {
    hide Inv, InEventList, Below, Descending, Walk, KeysUnique;
    var rows := EventRows(db, f);
    EventKeysUnique(s, db, f);
    WalkIsTheList(rows, limit, None);
    DescendingIsTheList(rows);
    var walk := Walk(rows, limit, None);
    forall d | InEventList(db, f, d) ensures d in db.deliveries && d in Records(walk) {
      EventRowIsListed(db, f, d);
      assert EventRow(db, d) in walk && EventRow(db, d).record == d;
    }
  }

  function Records(walk: seq<Row>): set<Id> {
    set r | r in walk :: r.record
  }

  lemma EventRowIsListed(db: DB, f: EventFilter, d: Id)
    requires InEventList(db, f, d)
    ensures d in db.deliveries && db.deliveries[d].eventId in db.events
    ensures EventRow(db, d) in EventRows(db, f)
  {
  }

  // ----- counting generations and events -----

  /** A map that pairs two sets one to one shows that they are equally large. */
  lemma {:induction false} SameSize<A, B>(xs: set<A>, ys: set<B>, f: map<A, B>)
    requires forall x | x in xs :: x in f && f[x] in ys
    requires forall x1, x2 | x1 in xs && x2 in xs && f[x1] == f[x2] :: x1 == x2
    requires forall y | y in ys :: exists x :: x in xs && f[x] == y
    ensures |xs| == |ys|
    decreases |xs|
  {
    if |xs| > 0 {
      var x :| x in xs;
      SameSize(xs - {x}, ys - {f[x]}, f);
    } else {
      assert forall y :: y !in ys;
    }
  }

  function FirstNumbers(n: nat): (numbers: set<int>)
    ensures forall i :: i in numbers <==> 0 <= i < n
    ensures |numbers| == n
  {
    if n == 0 then {} else FirstNumbers(n - 1) + {n - 1}
  }

  function DeliveriesOf(db: DB, e: Id): set<Id> {
    set d | d in db.deliveries && db.deliveries[d].eventId == e
  }

  /** The `generation_count` of a listed event, its latest generation plus one, is the true number
      of its deliveries. */
  lemma GenerationCountIsTrue(s: Settings, db: DB, d: Id)
    requires Inv(s, db) && d in db.deliveries && LatestGeneration(db, d)
    ensures |DeliveriesOf(db, db.deliveries[d].eventId)| == db.deliveries[d].generation + 1
  {
    hide UniqueEvents, UniqueAttempts, ForeignKeys, Ledger, LineageOf, HasInitial, AttemptChecks,
         EventChecks;
    var row := db.deliveries[d];
    var members := DeliveriesOf(db, row.eventId);
    var generation := map x | x in members :: db.deliveries[x].generation;
    assert DeliveryChecks(row);
    var n: nat := row.generation + 1;
    forall x | x in members ensures generation[x] in FirstNumbers(n) {
      OneEndpointPerEvent(db, x, d);
      assert DeliveryChecks(db.deliveries[x]);
    }
    forall x1, x2 | x1 in members && x2 in members && generation[x1] == generation[x2]
      ensures x1 == x2
    {
      OneEndpointPerEvent(db, x1, x2);
      var row1, row2 := db.deliveries[x1], db.deliveries[x2];
      assert x1 != x2 ==> !DeliveriesClash(row1, row2);
    }
    forall g | g in FirstNumbers(n) ensures exists x :: x in members && generation[x] == g {
      var x := GenerationsAreContiguous(db, d, g);
      assert x in members;
    }
    SameSize(members, FirstNumbers(n), generation);
  }

  ghost function LatestDeliveries(db: DB): set<Id> {
    set d | d in db.deliveries && LatestGeneration(db, d)
  }

  /** `deliveries_by_status`: latest deliveries only. */
  function OfStatus(db: DB, rows: set<Id>, status: DeliveryStatus): set<Id> {
    set d | d in rows && d in db.deliveries && db.deliveries[d].status == status
  }

  ghost function CountByStatus(db: DB, status: DeliveryStatus): nat {
    |OfStatus(db, LatestDeliveries(db), status)|
  }

  lemma LatestOfEvent(s: Settings, db: DB, e: Id) returns (d: Id)
    requires Inv(s, db) && e in db.events
    ensures d in LatestDeliveries(db) && db.deliveries[d].eventId == e
  {
    hide Inv, LatestGeneration;
    var first := InitialExists(s, db, e);
    d := LatestExists(s, db, first);
    LatestAgrees(db, d);
  }

  lemma LatestAsManyAsEvents(s: Settings, db: DB)
    requires Inv(s, db)
    ensures |LatestDeliveries(db)| == |db.events|
  {
    hide Inv, LatestGeneration, LedgerOf, RowChecks, UniqueAttempts;
    var latest := LatestDeliveries(db);
    var eventOf := map d | d in latest :: db.deliveries[d].eventId;
    forall d | d in latest ensures eventOf[d] in db.events.Keys {
      RowFacts(s, db, d);
    }
    forall d1, d2 | d1 in latest && d2 in latest && eventOf[d1] == eventOf[d2] ensures d1 == d2 {
      OneLatestPerEvent(s, db, d1, d2);
    }
    forall e | e in db.events.Keys ensures exists d :: d in latest && eventOf[d] == e {
      var d := LatestOfEvent(s, db, e);
      assert d in latest;
    }
    SameSize(latest, db.events.Keys, eventOf);
  }

  /** The overview is consistent: the five status counts sum to the number of events, and the
      actionable dead letters are the dead-lettered count. */
  lemma OverviewAddsUp(s: Settings, db: DB)
    requires Inv(s, db)
    ensures CountByStatus(db, Pending) + CountByStatus(db, InProgress) + CountByStatus(db, RetryWait)
            + CountByStatus(db, Delivered) + CountByStatus(db, DeadLettered) == |db.events|
    ensures CountByStatus(db, DeadLettered) == |DeadLetterRows(db, None)|
  {
    LatestAsManyAsEvents(s, db);
    StatusesPartition(db);
    DeadLettersAreCounted(s, db);
  }

  lemma StatusesPartition(db: DB)
    ensures CountByStatus(db, Pending) + CountByStatus(db, InProgress) + CountByStatus(db, RetryWait)
            + CountByStatus(db, Delivered) + CountByStatus(db, DeadLettered)
            == |LatestDeliveries(db)|
  {
    hide LatestDeliveries;
    LatestAreRows(db);
    var latest := LatestDeliveries(db);
    FiveParts(latest, OfStatus(db, latest, Pending), OfStatus(db, latest, InProgress),
              OfStatus(db, latest, RetryWait), OfStatus(db, latest, Delivered),
              OfStatus(db, latest, DeadLettered)) by {
      EachHasOneStatus(db, latest);
    }
  }

  lemma EachHasOneStatus(db: DB, rows: set<Id>)
    requires rows <= db.deliveries.Keys
    ensures forall d | d in rows ::
              d in OfStatus(db, rows, Pending) || d in OfStatus(db, rows, InProgress)
              || d in OfStatus(db, rows, RetryWait) || d in OfStatus(db, rows, Delivered)
              || d in OfStatus(db, rows, DeadLettered)
    ensures forall status, other: DeliveryStatus | status != other ::
              OfStatus(db, rows, status) !! OfStatus(db, rows, other)
    ensures forall status :: OfStatus(db, rows, status) <= rows
  {
  }

  lemma LatestAreRows(db: DB)
    ensures LatestDeliveries(db) <= db.deliveries.Keys
  {
    hide LatestGeneration;
  }

  lemma FiveParts<T>(all: set<T>, a: set<T>, b: set<T>, c: set<T>, d: set<T>, e: set<T>)
    requires forall x | x in all :: x in a || x in b || x in c || x in d || x in e
    requires a <= all && b <= all && c <= all && d <= all && e <= all
    requires a !! b && a !! c && a !! d && a !! e && b !! c && b !! d && b !! e
    requires c !! d && c !! e && d !! e
    ensures |a| + |b| + |c| + |d| + |e| == |all|
  {
    assert a + b !! c && a + b + c !! d && a + b + c + d !! e;
    assert all == a + b + c + d + e;
  }

  // ----- dead letters -----

  ghost predicate InDeadLetterList(db: DB, endpointId: Option<Id>, d: Id) {
    && d in db.deliveries && db.deliveries[d].status == DeadLettered && LatestGeneration(db, d)
    && db.deliveries[d].eventId in db.events && db.deliveries[d].endpointId in db.endpoints
    && (endpointId.Some? ==> db.deliveries[d].endpointId == endpointId.value)
  }

  function DeadLetterRow(db: DB, d: Id): Row
    requires d in db.deliveries
  {
    Row(PageCursor(db.deliveries[d].updatedAt, d), d)
  }

  ghost function DeadLetterRows(db: DB, endpointId: Option<Id>): set<Row> {
    set d | d in db.deliveries && InDeadLetterList(db, endpointId, d) :: DeadLetterRow(db, d)
  }

  lemma DeadLettersAreCounted(s: Settings, db: DB)
    requires Inv(s, db)
    ensures CountByStatus(db, DeadLettered) == |DeadLetterRows(db, None)|
  {
    hide Inv, LatestGeneration, LedgerOf, RowChecks, UniqueAttempts;
    var dead := OfStatus(db, LatestDeliveries(db), DeadLettered);
    var rowOf := map d | d in dead :: DeadLetterRow(db, d);
    forall d | d in dead ensures rowOf[d] in DeadLetterRows(db, None) {
      RowFacts(s, db, d);
      assert InDeadLetterList(db, None, d);
    }
    forall r | r in DeadLetterRows(db, None) ensures exists d :: d in dead && rowOf[d] == r {
      assert r.record in dead;
    }
    SameSize(dead, DeadLetterRows(db, None), rowOf);
  }

  /** The dead-letter and endpoint lists page completely too, for any page size. */
  lemma DeadLetterWalkIsComplete(db: DB, endpointId: Option<Id>, limit: nat)
    requires limit >= 1
    ensures KeysUnique(DeadLetterRows(db, endpointId))
    ensures Walk(DeadLetterRows(db, endpointId), limit, None)
            == Descending(DeadLetterRows(db, endpointId))
    ensures forall d :: InDeadLetterList(db, endpointId, d)
                        <==> d in db.deliveries
                             && DeadLetterRow(db, d) in Walk(DeadLetterRows(db, endpointId), limit, None)
  {
    hide LatestGeneration, Below, Walk, Descending, InDeadLetterList;
    var rows := DeadLetterRows(db, endpointId);
    WalkIsTheList(rows, limit, None);
    DescendingIsTheList(rows);
    forall d | InDeadLetterList(db, endpointId, d)
      ensures d in db.deliveries && DeadLetterRow(db, d) in rows
    {
      DeadLetterIsDelivery(db, endpointId, d);
    }
  }

  lemma DeadLetterIsDelivery(db: DB, endpointId: Option<Id>, d: Id)
    requires InDeadLetterList(db, endpointId, d)
    ensures d in db.deliveries
  {
  }

  function EndpointRows(db: DB): set<Row> {
    set p | p in db.endpoints :: Row(PageCursor(db.endpoints[p].createdAt, p), p)
  }

  lemma EndpointWalkIsComplete(db: DB, limit: nat)
    requires limit >= 1
    ensures KeysUnique(EndpointRows(db))
    ensures Walk(EndpointRows(db), limit, None) == Descending(EndpointRows(db))
  {
    hide Below, Walk, Descending;
    WalkIsTheList(EndpointRows(db), limit, None);
  }

  /** The two scalar subqueries of the dead-letter list: evidence of the highest attempt. */
  ghost function LastEvidence(db: DB, d: Id): (Option<int>, Option<Excerpt>) {
    if exists a :: IsLastAttempt(db, d, a) then
      var a :| IsLastAttempt(db, d, a);
      (db.attempts[a].httpStatus, db.attempts[a].excerpt)
    else (None, None)
  }

  /** `_dead_letter_response`: the row is replayable when no code blocks it. */
  ghost function BlockedCode(db: DB, d: Id): Option<BlockCode>
    requires d in db.deliveries && db.deliveries[d].endpointId in db.endpoints
  {
    var (httpStatus, excerpt) := LastEvidence(db, d);
    var blockCode := ReplayBlockCode(httpStatus, excerpt);
    if blockCode.None? && !db.endpoints[db.deliveries[d].endpointId].enabled
    then Some(EndpointDisabled)
    else blockCode
  }

  lemma EvidenceAgrees(db: DB, d: Id)
    requires UniqueAttempts(db.attempts)
    ensures BlockOf(db, d) == ReplayBlockCode(LastEvidence(db, d).0, LastEvidence(db, d).1)
  {
    hide UniqueAttempts, IsLastAttempt;
    if a :| IsLastAttempt(db, d, a) {
      forall b | IsLastAttempt(db, d, b) ensures b == a {
        OneLastAttempt(db, d, b, a);
      }
    } else {
      assert BlockOf(db, d) == None;
    }
  }

  /** What the dead-letter list says about a row is what replaying it does: a replay under any key
      is accepted exactly when the row is shown as replayable, and otherwise it is refused with
      the conflict that `blocked_code` names. */
  lemma DeadLetterListAgreesWithReplay(
    s: Settings, db: DB, endpointId: Option<Id>, d: Id, key: string, newId: Id, now: Time,
    databaseNow: Time)
    requires s.Valid() && Inv(s, db) && InDeadLetterList(db, endpointId, d)
    requires !Blank(key) && newId !in db.deliveries
    ensures ReplayBegin(db, d, key).Began?
    ensures ReplayTx(db, ReplayBegin(db, d, key).call, newId, now, databaseNow).1
            == match BlockedCode(db, d)
               case None => Replayed(d, newId, false)
               case Some(EndpointDisabled) => ReplayRefused(DisabledEndpoint)
               case Some(PayloadCorrectionRequired) => ReplayRefused(PayloadCorrection)
  {
    hide Inv, Constraints, IsLastAttempt, LatestGeneration, IsSpace, IsLatest,
         LastEvidence, BlockOf, ReplayRow, UniqueAttempts;
    var call := ReplayBegin(db, d, key).call;
    LatestAgrees(db, d);
    LatestIffNotReplayed(s, db, d);
    InvGivesUniqueAttempts(s, db);
    EvidenceAgrees(db, d);
    ReplayKeepsInv(s, db, call, newId, now, databaseNow);
    NoExistingReplay(db, d, key);
    forall x | InChain(db, db.deliveries[d].eventId, db.deliveries[d].endpointId, x)
      ensures db.deliveries[x].status == DeadLettered
    {
      NoActiveInDeadChain(s, db, d, x);
    }
  }
}
