/** The four tables of the EventHarbor database, their rows, and the constraints that
    PostgreSQL enforces on them (backend/src/eventharbor/models.py). */
module Schema {
  datatype Option<+T> = None | Some(value: T)

  /** A UUID. Only identity and order are used. */
  type Id = nat

  /** An instant, in seconds. */
  type Time = real

  datatype DeliveryStatus = Pending | InProgress | RetryWait | Delivered | DeadLettered

  /** `Reserved` is the attempt status the database spells `in_progress`. */
  datatype AttemptStatus = Reserved | Completed | Indeterminate

  datatype Disposition = Succeeded | Retry | TerminalFailure

  /** What reading a stored response excerpt as JSON yields: an object whose `code` is a string,
      or anything else (invalid JSON, not an object, no string `code`). */
  datatype Excerpt = Coded(code: string) | Uncoded(text: string)

  /** A JSON value accepted for publication: its canonical text (equal for equal values) and the
      header-safe `run_id` it carries, if any. */
  datatype Data = Data(canonical: string, runId: Option<string>)

  /** The SHA-256 of the canonical publish request, as an injective function of the request. */
  datatype Fingerprint = Fingerprint(endpointId: Id, eventType: string, data: Data)

  /** The exact outbound bytes, as an injective function of the envelope they encode. */
  datatype Body = Body(eventId: Id, eventType: string, createdAt: Time, data: Data)

  datatype Endpoint = Endpoint(targetUrl: string, secret: string, enabled: bool, createdAt: Time)

  datatype Event = Event(
    eventType: string, key: string, data: Data, body: Body, fingerprint: Fingerprint,
    createdAt: Time)

  datatype Delivery = Delivery(
    eventId: Id, endpointId: Id, generation: int,
    replayedFrom: Option<Id>, replayKey: Option<string>,
    status: DeliveryStatus, attemptCount: int, nextAttemptAt: Option<Time>,
    leaseOwner: Option<string>, leaseExpiresAt: Option<Time>, leaseToken: Option<Id>,
    deliveredAt: Option<Time>, lastError: Option<string>, createdAt: Time, updatedAt: Time)

  datatype Attempt = Attempt(
    deliveryId: Id, number: int, status: AttemptStatus, leaseToken: Id,
    disposition: Option<Disposition>, httpStatus: Option<int>,
    errorType: Option<string>, errorMessage: Option<string>, excerpt: Option<Excerpt>,
    durationMs: Option<int>, requestTimestamp: Option<int>, retryScheduledFor: Option<Time>,
    startedAt: Option<Time>, finishedAt: Option<Time>, resolvedAt: Option<Time>, createdAt: Time)

  datatype DB = DB(
    endpoints: map<Id, Endpoint>, events: map<Id, Event>,
    deliveries: map<Id, Delivery>, attempts: map<Id, Attempt>)

  const EMPTY_DB := DB(map[], map[], map[], map[])

  predicate Active(s: DeliveryStatus) {
    s == Pending || s == InProgress || s == RetryWait
  }

  // ----- CHECK constraints -----

  predicate EventChecks(e: Event) {
    |e.key| > 0 && |e.eventType| > 0
  }

  predicate DeliveryChecks(d: Delivery) {
    && d.generation >= 0
    && d.replayedFrom.None? == d.replayKey.None?
    && (d.replayKey.Some? ==> |d.replayKey.value| > 0)
    && d.attemptCount >= 0
    && d.leaseOwner.None? == d.leaseExpiresAt.None?
    && d.leaseOwner.None? == d.leaseToken.None?
    && (d.status == InProgress) == d.leaseOwner.Some?
    && (d.status == Delivered ==> d.deliveredAt.Some?)
  }

  predicate NoEvidence(a: Attempt) {
    && a.disposition.None? && a.httpStatus.None? && a.excerpt.None? && a.durationMs.None?
    && a.requestTimestamp.None? && a.retryScheduledFor.None?
    && a.startedAt.None? && a.finishedAt.None?
  }

  predicate LifecycleFields(a: Attempt) {
    match a.status
    case Reserved =>
      NoEvidence(a) && a.errorType.None? && a.errorMessage.None? && a.resolvedAt.None?
    case Completed =>
      && a.disposition.Some? && a.durationMs.Some? && a.requestTimestamp.Some?
      && a.startedAt.Some? && a.finishedAt.Some? && a.resolvedAt.Some?
    case Indeterminate =>
      NoEvidence(a) && a.errorType.Some? && a.resolvedAt.Some?
  }

  predicate AttemptChecks(a: Attempt) {
    && a.number >= 1
    && (a.durationMs.Some? ==> a.durationMs.value >= 0)
    && (a.requestTimestamp.Some? ==> a.requestTimestamp.value >= 0)
    && (a.httpStatus.Some? ==> 100 <= a.httpStatus.value <= 599)
    && (a.startedAt.Some? && a.finishedAt.Some? ==> a.startedAt.value <= a.finishedAt.value)
    && LifecycleFields(a)
  }

  predicate RowChecks(db: DB) {
    && (forall e | e in db.events :: EventChecks(db.events[e]))
    && (forall d | d in db.deliveries :: DeliveryChecks(db.deliveries[d]))
    && (forall a | a in db.attempts :: AttemptChecks(db.attempts[a]))
  }

  // ----- UNIQUE constraints and partial unique indexes -----

  predicate SameChain(d1: Delivery, d2: Delivery) {
    d1.eventId == d2.eventId && d1.endpointId == d2.endpointId
  }

  /** The rows d1 and d2 would trip one of the three unique indexes on deliveries. */
  predicate DeliveriesClash(d1: Delivery, d2: Delivery) {
    || (SameChain(d1, d2) && d1.generation == d2.generation)
    || (SameChain(d1, d2) && Active(d1.status) && Active(d2.status))
    || (d1.replayedFrom.Some? && d1.replayKey.Some?
        && d1.replayedFrom == d2.replayedFrom && d1.replayKey == d2.replayKey)
  }

  /** The rows a1 and a2 would trip one of the three unique indexes on delivery_attempts. */
  predicate AttemptsClash(a1: Attempt, a2: Attempt) {
    && a1.deliveryId == a2.deliveryId
    && (|| a1.number == a2.number
        || a1.leaseToken == a2.leaseToken
        || (a1.status == Reserved && a2.status == Reserved))
  }

  predicate UniqueEvents(events: map<Id, Event>) {
    forall e1, e2 | e1 in events && e2 in events && e1 != e2 :: events[e1].key != events[e2].key
  }

  predicate UniqueDeliveries(deliveries: map<Id, Delivery>) {
    forall d1, d2 | d1 in deliveries && d2 in deliveries && d1 != d2 ::
      !DeliveriesClash(deliveries[d1], deliveries[d2])
  }

  predicate UniqueAttempts(attempts: map<Id, Attempt>) {
    forall a1, a2 | a1 in attempts && a2 in attempts && a1 != a2 ::
      !AttemptsClash(attempts[a1], attempts[a2])
  }

  // ----- Foreign keys -----

  predicate ForeignKeys(db: DB) {
    && (forall d | d in db.deliveries ::
          && db.deliveries[d].eventId in db.events
          && db.deliveries[d].endpointId in db.endpoints
          && (db.deliveries[d].replayedFrom.Some? ==>
                db.deliveries[d].replayedFrom.value in db.deliveries))
    && (forall a | a in db.attempts :: db.attempts[a].deliveryId in db.deliveries)
  }

  /** Everything PostgreSQL checks when a statement is flushed. */
  predicate Constraints(db: DB) {
    && RowChecks(db)
    && UniqueEvents(db.events) && UniqueDeliveries(db.deliveries) && UniqueAttempts(db.attempts)
    && ForeignKeys(db)
  }
}
