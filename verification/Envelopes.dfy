/** What is published is what is sent (backend/src/eventharbor/services.py, repositories.py,
    deliveries/worker.py): the event's columns, its body and every request made of it. */
module Envelopes {
  import opened Schema
  import opened Transport
  import opened Transactions
  import opened Invariants
  import opened WorkerProofs
  import opened ServiceProofs
  import opened Protocol
  import opened Contract
  import opened Claims

  /** The body encodes the event's own id, type, creation time and data, and the fingerprint is that
      of a request for this type and this data. */
  predicate EnvelopeFits(e: Id, event: Event) {
    && event.body.eventId == e && event.body.eventType == event.eventType
    && event.body.createdAt == event.createdAt && event.body.data == event.data
    && event.fingerprint.eventType == event.eventType && event.fingerprint.data == event.data
  }

  /** A snapshot names the type and the run of its own body, and agrees with the event while there is
      one. */
  predicate SnapshotFitsEvent(sys: System, w: Webhook) {
    && w.eventId in sys.used && w.body.eventId == w.eventId && w.eventType == w.body.eventType
    && w.runId == w.body.data.runId
    && (w.eventId in sys.db.events ==> w.body == sys.db.events[w.eventId].body)
  }

  predicate EnvelopesFit(sys: System) {
    && (forall e | e in sys.db.events :: EnvelopeFits(e, sys.db.events[e]))
    && (forall w | w in sys.issued :: SnapshotFitsEvent(sys, w))
  }

  // ----- every step keeps it -----

  /** The events after a step: the old ones as they were, or one accepted request more. */
  lemma EventsAfter(s: Settings, sys: System, a: Action, e: Id)
    requires s.Valid() && SysInv(s, sys) && Enabled(s, sys, a) && e in Next(s, sys, a).db.events
    ensures e in sys.db.events ==> Next(s, sys, a).db.events[e] == sys.db.events[e]
    ensures e !in sys.db.events ==>
              && a.Publish? && e == a.m.eventId && a.q.data.Some?
              && AsRequested(Next(s, sys, a).db.events[e], e, a.q, a.key, a.m.createdAt)
  {
    hide SysInv, Inv, PublishTx, ReplayTx, ClaimTx, FinalizeTx, Evolves, CallFits, ResolvesOnly,
         NamesItsAttempt, SnapshotAgrees, WellFormed, ReplayBegin;
    InvOfSys(s, sys);
    match a
    case Publish(q, key, m) => PublishStep(s, sys, q, key, m);
    case DecideReplay(call, newId, now, databaseNow) =>
      ReplayStep(s, sys, call, newId, now, databaseNow);
    case Claim(x, r, t, locked) => ClaimStep(s, sys, x, r, t, locked);
    case Finalize(h, result, now, jitter) =>
      FinalizeStep(s, sys, h, result, now, jitter);
      if FinalizeTx(s, sys.db, h.workerId, h.webhook, result, now, jitter).1 == Finalized {
        FinalizeEffect(s, sys.db, h.workerId, h.webhook, result, now, jitter);
      }
    case _ =>
  }

  /** The event holds what was requested under the key. */
  predicate AsRequested(event: Event, e: Id, q: PublishRequest, key: string, createdAt: Time) {
    && q.data.Some?
    && event.eventType == q.eventType && event.key == key && event.data == q.data.value
    && event.createdAt == createdAt && event.fingerprint.endpointId == q.endpointId
    && EnvelopeFits(e, event)
  }

  /** The snapshots after a step: the old ones, or one more of a claimed delivery's event. */
  lemma SnapshotsAfter(s: Settings, sys: System, a: Action, w: Webhook)
    requires s.Valid() && SysInv(s, sys) && Enabled(s, sys, a) && w in Next(s, sys, a).issued
    ensures w in sys.issued
            || (&& w.eventId in sys.db.events && w.body == sys.db.events[w.eventId].body
                && w.eventType == sys.db.events[w.eventId].eventType
                && w.runId == sys.db.events[w.eventId].data.runId)
  {
    hide SysInv, Inv, PublishTx, ReplayTx, ClaimTx, FinalizeTx, RemoveEvents, ReplayBegin;
    if a.Claim? && ClaimTx(s, sys.db, a.d, a.r).1.Claimed? {
      InvOfSys(s, sys);
      IsSelected(s, sys, a);
      FreshIds(s, sys, a.r);
      SnapshotOfClaim(s, sys.db, a.d, a.r, a.queryTime, a.locked);
    }
  }

  lemma IsSelected(s: Settings, sys: System, a: Action)
    requires a.Claim? && Enabled(s, sys, a)
    ensures Selected(sys.db, a.queryTime, a.locked, a.d)
    ensures a.r.token !in sys.used && a.r.attemptId !in sys.used
  {
    hide Selected;
  }

  lemma SnapshotOfClaim(s: Settings, db: DB, d: Id, r: Reservation, t: Time, locked: set<Id>)
    requires s.Valid() && Inv(s, db) && Selected(db, t, locked, d) && FreshReservation(db, r)
    requires ClaimTx(s, db, d, r).1.Claimed?
    ensures var w := ClaimTx(s, db, d, r).1.webhook;
            && w.eventId in db.events && w.eventId == db.deliveries[d].eventId
            && w.deliveryId == d && w.attemptId == r.attemptId && w.leaseToken == r.token
            && w.attemptNumber == db.deliveries[d].attemptCount + 1
            && w.body == db.events[w.eventId].body
            && w.eventType == db.events[w.eventId].eventType
            && w.runId == db.events[w.eventId].data.runId
            && w.url == db.endpoints[db.deliveries[d].endpointId].targetUrl
            && w.secret == db.endpoints[db.deliveries[d].endpointId].secret
  {
    hide Inv, Constraints, LedgerOf, RowChecks, UniqueAttempts, Truncate, FreshReservation,
         ExpiryReason, UnclaimableDueReason;
    RowFacts(s, db, d);
    if db.deliveries[d].status == InProgress {
      var e := EvidenceExists(s, db, d);
      assert ReclaimTx(s, db, d, r) == ReclaimWith(s, db, d, e, r);
    }
  }

  lemma StepKeepsEnvelopes(s: Settings, sys: System, a: Action)
    requires s.Valid() && SysInv(s, sys) && EnvelopesFit(sys) && Enabled(s, sys, a)
    ensures EnvelopesFit(Next(s, sys, a))
  {
    hide SysInv, Inv, Enabled, Next, EnvelopeFits, Evolves;
    var next := Next(s, sys, a);
    StepKeepsSysInv(s, sys, a);
    InvOfSys(s, sys);
    forall e | e in next.db.events ensures EnvelopeFits(e, next.db.events[e]) {
      EventsAfter(s, sys, a, e);
    }
    forall w | w in next.issued ensures SnapshotFitsEvent(next, w) {
      SnapshotsAfter(s, sys, a, w);
      if w.eventId in next.db.events {
        KnownEventStays(sys, next.db, w.eventId);
      }
      if w !in sys.issued {
        EnvelopeSays(sys.db.events[w.eventId], w.eventId);
      }
    }
  }

  lemma EnvelopeSays(event: Event, e: Id)
    requires EnvelopeFits(e, event)
    ensures event.body.eventId == e && event.body.eventType == event.eventType
    ensures event.body.data == event.data
  {
  }

  lemma KnownEventStays(sys: System, db': DB, e: Id)
    requires Evolves(sys.used, sys.db, db') && e in db'.events
    ensures e in sys.used ==> e in sys.db.events && db'.events[e] == sys.db.events[e]
  {
  }

  lemma {:induction false} RunKeepsEnvelopes(s: Settings, sys: System, actions: seq<Action>)
    requires s.Valid() && SysInv(s, sys) && EnvelopesFit(sys) && Runs(s, sys, actions)
    ensures EnvelopesFit(After(s, sys, actions))
    decreases |actions|
  {
    hide SysInv, Enabled, Next, EnvelopesFit, Evolves;
    if actions != [] {
      StepKeepsSysInv(s, sys, actions[0]);
      StepKeepsEnvelopes(s, sys, actions[0]);
      RunKeepsEnvelopes(s, Next(s, sys, actions[0]), actions[1..]);
    }
  }

  /** In every reachable state every event's body and fingerprint agree with its own columns, and every
      snapshot ever issued with the body it carries. */
  lemma EnvelopesAgree(s: Settings, sys: System)
    requires s.Valid() && Reachable(s, sys)
    ensures EnvelopesFit(sys)
  {
    hide SysInv, Runs, After, EnvelopesFit;
    StartFits(s);
    assert EnvelopesFit(START) by { StartEnvelopes(); }
    var actions :| Runs(s, START, actions) && After(s, START, actions) == sys;
    RunKeepsEnvelopes(s, START, actions);
  }

  lemma StartEnvelopes()
    ensures EnvelopesFit(START)
  {
  }

  // ----- publish -----

  /** A publish names an event that holds exactly what was requested, also when the key was taken
      before: its type and data in the columns and in the body. A new event carries the API's clock. */
  lemma PublishStoresTheRequest(s: Settings, sys: System, q: PublishRequest, key: string, m: Minted)
    requires s.Valid() && Reachable(s, sys) && Enabled(s, sys, Publish(q, key, m))
    requires PublishTx(sys.db, q, key, m).1.Published?
    ensures var (db', outcome) := PublishTx(sys.db, q, key, m);
            var e := outcome.eventId;
            && e in db'.events && q.data.Some?
            && AsRequested(db'.events[e], e, q, key, db'.events[e].createdAt)
            && (if outcome.idempotentReplay then e in sys.db.events && db' == sys.db
                else e == m.eventId && e !in sys.db.events
                     && db'.events[e].createdAt == m.createdAt
                     && db'.events == sys.db.events[e := db'.events[e]])
  {
    hide Reachable, SysInv, Inv, PublishTx, Evolves, Constraints, IsSpace;
    ReachableFits(s, sys);
    EnvelopesAgree(s, sys);
    InvOfSys(s, sys);
    PublishIsFresh(s, sys, q, key, m);
    PublishKeepsInv(s, sys.db, q, key, m);
    if PublishTx(sys.db, q, key, m).0 == sys.db {
      HeldAsRequested(s, sys.db, q, key, m);
      assert EnvelopeFits(PublishTx(sys.db, q, key, m).1.eventId,
                          sys.db.events[PublishTx(sys.db, q, key, m).1.eventId]);
    }
  }

  lemma PublishIsFresh(s: Settings, sys: System, q: PublishRequest, key: string, m: Minted)
    requires UsedCovers(sys) && Enabled(s, sys, Publish(q, key, m))
    ensures FreshMint(sys.db, m) && |q.eventType| > 0
    ensures m.eventId !in sys.db.events && m.eventId !in sys.used
  {
  }

  lemma HeldAsRequested(s: Settings, db: DB, q: PublishRequest, key: string, m: Minted)
    requires PublishTx(db, q, key, m).1.Published?
    requires PublishTx(db, q, key, m).1.idempotentReplay
    ensures var e := PublishTx(db, q, key, m).1.eventId;
            && q.data.Some? && e in db.events && db.events[e].key == key
            && db.events[e].fingerprint.endpointId == q.endpointId
            && db.events[e].fingerprint.eventType == q.eventType
            && db.events[e].fingerprint.data == q.data.value
  {
    hide Constraints, IsSpace, IsInitial;
  }

  /** A new delivery is pending from the database's clock on, and shows the API's clock. */
  ghost predicate StartsAt(row: Delivery, due: Time, createdAt: Time) {
    && row.status == Pending && row.attemptCount == 0
    && (forall since: Time :: DueSince(row, since) <==> since == due)
    && row.createdAt == createdAt && row.updatedAt == createdAt
    && row.leaseOwner.None? && row.leaseToken.None? && row.leaseExpiresAt.None?
    && row.deliveredAt.None? && row.lastError.None?
  }

  /** What decides the answer to a publish, in the order it is decided: a blank key, an unknown
      endpoint, data that is no JSON, a taken key, a disabled endpoint. Only an accepted new request
      adds rows: its event, and one delivery to the requested endpoint that is due at once. */
  lemma PublishIsDecided(s: Settings, sys: System, q: PublishRequest, key: string, m: Minted)
    requires s.Valid() && Reachable(s, sys) && Enabled(s, sys, Publish(q, key, m))
    ensures var (db', outcome) := PublishTx(sys.db, q, key, m);
            var blank := forall c | c in key :: IsWhite(c as int);
            var taken := exists e :: e in sys.db.events && sys.db.events[e].key == key;
            if blank then outcome == PublishRefused(InvalidIdempotencyKey) && db' == sys.db
            else if q.endpointId !in sys.db.endpoints then
              outcome == PublishRefused(EndpointNotFound) && db' == sys.db
            else if q.data.None? then outcome == PublishRefused(InvalidEventData) && db' == sys.db
            else if taken then
              db' == sys.db && (outcome == PublishRefused(IdempotencyKeyReused)
                                || (outcome.Published? && outcome.idempotentReplay))
            else if !sys.db.endpoints[q.endpointId].enabled then
              outcome == PublishRefused(DisabledEndpoint) && db' == sys.db
            else
              && outcome == Published(m.eventId, m.deliveryId, false)
              && m.deliveryId in db'.deliveries && m.deliveryId !in sys.db.deliveries
              && db'.endpoints == sys.db.endpoints && db'.attempts == sys.db.attempts
              && db'.deliveries == sys.db.deliveries[m.deliveryId := db'.deliveries[m.deliveryId]]
              && var row := db'.deliveries[m.deliveryId];
                 (row.eventId == m.eventId && row.endpointId == q.endpointId && row.generation == 0
                  && row.replayedFrom.None? && row.replayKey.None?
                  && StartsAt(row, m.databaseNow, m.createdAt))
  {
    hide Reachable, SysInv, Inv, Evolves, Constraints, IsSpace, IsWhite, IsInitial, InsertEvent;
    ReachableFits(s, sys);
    InvOfSys(s, sys);
    PublishIsFresh(s, sys, q, key, m);
    PublishKeepsInv(s, sys.db, q, key, m);
    forall c ensures IsSpace(c) <==> IsWhite(c as int) { SpacesAreWhite(c); }
    if e :| e in sys.db.events && sys.db.events[e].key == key {
      assert HoldsKey(sys.db, key, e);
    }
  }

  // ----- every request of a published event -----

  /** Whatever the system still knows of event e carries this body. */
  predicate Carries(sys: System, e: Id, body: Body) {
    && e in sys.used && (e in sys.db.events ==> sys.db.events[e].body == body)
    && (forall w | w in sys.issued && w.eventId == e :: w.body == body)
  }

  lemma StepCarries(s: Settings, sys: System, a: Action, e: Id, body: Body)
    requires s.Valid() && SysInv(s, sys) && Enabled(s, sys, a) && Carries(sys, e, body)
    ensures Carries(Next(s, sys, a), e, body)
  {
    hide SysInv, Enabled, Next, Evolves;
    StepKeepsSysInv(s, sys, a);
    var next := Next(s, sys, a);
    if e in next.db.events {
      KnownEventStays(sys, next.db, e);
    }
    forall w | w in next.issued && w.eventId == e ensures w.body == body {
      SnapshotsAfter(s, sys, a, w);
    }
  }

  lemma {:induction false} RunCarries(
    s: Settings, sys: System, actions: seq<Action>, e: Id, body: Body)
    requires s.Valid() && SysInv(s, sys) && Runs(s, sys, actions) && Carries(sys, e, body)
    ensures Carries(After(s, sys, actions), e, body)
    decreases |actions|
  {
    hide SysInv, Enabled, Next, Carries, Evolves;
    if actions != [] {
      StepKeepsSysInv(s, sys, actions[0]);
      StepCarries(s, sys, actions[0], e, body);
      RunCarries(s, Next(s, sys, actions[0]), actions[1..], e, body);
    }
  }

  /** In every continuation of an accepted publish, also after the event was purged, every request
      ever sent of its event carries the requested type, data and run, under the event's id. */
  lemma SentAsPublished(
    s: Settings, sys: System, q: PublishRequest, key: string, m: Minted, actions: seq<Action>,
    i: int)
    requires s.Valid() && Reachable(s, sys) && Enabled(s, sys, Publish(q, key, m))
    requires PublishTx(sys.db, q, key, m).1.Published?
    requires Runs(s, Next(s, sys, Publish(q, key, m)), actions)
    requires var end := After(s, Next(s, sys, Publish(q, key, m)), actions);
             0 <= i < |end.log|
             && end.log[i].webhook.eventId == PublishTx(sys.db, q, key, m).1.eventId
    ensures var w := After(s, Next(s, sys, Publish(q, key, m)), actions).log[i].webhook;
            && q.data.Some? && w.eventType == q.eventType && w.runId == q.data.value.runId
            && w.body.eventId == w.eventId && w.body.eventType == q.eventType
            && w.body.data == q.data.value
  {
    hide Reachable, SysInv, Runs, After, PublishTx, Evolves, IsSpace, EnvelopesFit, Carries, Inv;
    var publish := Publish(q, key, m);
    var e, mid := PublishTx(sys.db, q, key, m).1.eventId, Next(s, sys, publish);
    PublishStoresTheRequest(s, sys, q, key, m);
    ReachableOn(s, sys, publish);
    ReachableFits(s, mid);
    EnvelopesAgree(s, mid);
    CarriesAtFirst(s, mid, e);
    RunCarries(s, mid, actions, e, mid.db.events[e].body);
    RunKeepsSysInv(s, mid, actions);
    RunKeepsEnvelopes(s, mid, actions);
    SentOf(s, After(s, mid, actions), e, mid.db.events[e].body, i);
  }

  lemma CarriesAtFirst(s: Settings, sys: System, e: Id)
    requires SysInv(s, sys) && EnvelopesFit(sys) && e in sys.db.events
    ensures Carries(sys, e, sys.db.events[e].body)
  {
    hide SysInv;
    InvOfSys(s, sys);
  }

  lemma SentOf(s: Settings, sys: System, e: Id, body: Body, i: int)
    requires SysInv(s, sys) && EnvelopesFit(sys) && Carries(sys, e, body)
    requires 0 <= i < |sys.log| && sys.log[i].webhook.eventId == e
    ensures var w := sys.log[i].webhook;
            w.body == body && w.eventType == body.eventType && w.runId == body.data.runId
  {
    hide SysInv, SnapshotFits;
    LogFacts(s, sys, i);
    assert SnapshotFitsEvent(sys, sys.log[i].webhook);
  }
}
