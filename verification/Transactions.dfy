/** Each database transaction of the worker and of the publish and replay services, as a function
    from the database it starts in to the database it commits and the value it returns. A raised
    exception rolls back, so the database of a `Raised` outcome is the starting one.
    (backend/src/eventharbor/deliveries/worker.py, backend/src/eventharbor/services.py) */
module Transactions {
  import opened Schema
  import opened Retry
  import opened Transport

  /** Exceptions that are not part of the API: RuntimeErrors of the source, a forbidden
      transition, and a constraint violation reported by PostgreSQL. */
  datatype Fault =
    | MissingEndpoint | MissingEvent | MissingEvidence | InvalidTransition | IntegrityError
    | MissingInitialDelivery | EventVanished | SourceVanished | NoLatestGeneration

  // ----- the claim filter -----

  predicate Due(row: Delivery, t: Time) {
    || (&& (row.status == Pending || row.status == RetryWait)
        && row.nextAttemptAt.Some? && row.nextAttemptAt.value <= t && row.leaseToken.None?)
    || (&& row.status == InProgress
        && row.leaseExpiresAt.Some? && row.leaseExpiresAt.value <= t)
  }

  /** The rows the claim query can lock: due, joined to an endpoint, not locked by others. */
  function Claimable(db: DB, t: Time, locked: set<Id>): set<Id> {
    set d | d in db.deliveries && d !in locked
            && Due(db.deliveries[d], t) && db.deliveries[d].endpointId in db.endpoints
  }

  function DueAt(row: Delivery): Time {
    if row.leaseExpiresAt.Some? then row.leaseExpiresAt.value
    else if row.nextAttemptAt.Some? then row.nextAttemptAt.value else 0.0
  }

  predicate ComesFirst(db: DB, d: Id, other: Id)
    requires d in db.deliveries && other in db.deliveries
  {
    var t, u := DueAt(db.deliveries[d]), DueAt(db.deliveries[other]);
    t < u || (t == u && d <= other)
  }

  predicate Selected(db: DB, t: Time, locked: set<Id>, d: Id) {
    var claimable := Claimable(db, t, locked);
    d in claimable && forall other | other in claimable :: ComesFirst(db, d, other)
  }

  // ----- claim -----

  /** The choices a claim makes: who claims, the first clock reading, two fresh UUIDs. */
  datatype Reservation = Reservation(workerId: string, now: Time, token: Id, attemptId: Id)

  datatype ClaimOutcome =
    | NothingDue
    | Resolved(deliveryId: Id, reason: string)
    | Claimed(webhook: Webhook)
    | ClaimRaised(fault: Fault)

  const DISABLED_AND_EXHAUSTED :=
    "endpoint is disabled and the maximum attempt count is already exhausted"
  const DISABLED_BEFORE_CLAIM := "endpoint is disabled before the delivery can be claimed"
  const EXHAUSTED_BEFORE_CLAIM := "maximum attempt count is already exhausted before claim"
  const DISABLED_DURING_LEASE := "endpoint disabled while the worker lease was outstanding"
  const EXHAUSTED_DURING_LEASE :=
    "worker lease expired and the maximum attempt count was exhausted"
  const REDELIVERY_RESERVED :=
    "worker lease expired before its outcome was committed; redelivery reserved"

  function UnclaimableDueReason(enabled: bool, exhausted: bool): Option<string> {
    if !enabled && exhausted then Some(DISABLED_AND_EXHAUSTED)
    else if !enabled then Some(DISABLED_BEFORE_CLAIM)
    else if exhausted then Some(EXHAUSTED_BEFORE_CLAIM)
    else None
  }

  function ExpiryReason(enabled: bool, exhausted: bool): string {
    if !enabled then DISABLED_DURING_LEASE
    else if exhausted then EXHAUSTED_DURING_LEASE
    else REDELIVERY_RESERVED
  }

  /** The attempt that proves the current lease of delivery d. */
  predicate IsEvidence(db: DB, d: Id, a: Id)
    requires d in db.deliveries
  {
    && a in db.attempts
    && db.attempts[a].deliveryId == d
    && db.attempts[a].number == db.deliveries[d].attemptCount
    && Some(db.attempts[a].leaseToken) == db.deliveries[d].leaseToken
    && db.attempts[a].status == Reserved
  }

  function ExpiredAttempt(a: Attempt, reason: string, now: Time): Attempt {
    a.(status := Indeterminate, errorType := Some("lease_expired"),
       errorMessage := Some(Truncate(reason + "; the endpoint may have received the request", 2048)),
       resolvedAt := Some(now))
  }

  /** Attempt a of delivery d becomes indeterminate and the delivery records why. */
  function ExpireLease(db: DB, d: Id, a: Id, reason: string, now: Time): DB
    requires d in db.deliveries && a in db.attempts
  {
    db.(attempts := db.attempts[a := ExpiredAttempt(db.attempts[a], reason, now)],
        deliveries := db.deliveries[d := db.deliveries[d].(
          lastError := Some(Truncate("lease_expired: " + reason, 2048)))])
  }

  function DeadLetteredRow(row: Delivery, now: Time): Delivery {
    row.(status := DeadLettered, nextAttemptAt := None,
         leaseOwner := None, leaseToken := None, leaseExpiresAt := None, updatedAt := now)
  }

  function DeadLetter(db: DB, d: Id, now: Time): DB
    requires d in db.deliveries
  {
    db.(deliveries := db.deliveries[d := DeadLetteredRow(db.deliveries[d], now)])
  }

  function LeasedRow(row: Delivery, s: Settings, r: Reservation): Delivery {
    row.(status := InProgress, attemptCount := row.attemptCount + 1, nextAttemptAt := None,
         leaseOwner := Some(Truncate(r.workerId, 160)), leaseToken := Some(r.token),
         leaseExpiresAt := Some(r.now + s.leaseSeconds), updatedAt := r.now)
  }

  function ReservedAttempt(d: Id, number: int, r: Reservation): Attempt {
    Attempt(d, number, Reserved, r.token, None, None, None, None, None, None, None, None,
            None, None, None, r.now)
  }

  /** Lease delivery d and reserve its next attempt. */
  function Reserve(s: Settings, db: DB, d: Id, r: Reservation): DB
    requires d in db.deliveries
  {
    var row := LeasedRow(db.deliveries[d], s, r);
    db.(deliveries := db.deliveries[d := row],
        attempts := db.attempts[r.attemptId := ReservedAttempt(d, row.attemptCount, r)])
  }

  function WebhookFor(db: DB, d: Id, r: Reservation): Webhook
    requires d in db.deliveries
    requires db.deliveries[d].eventId in db.events && db.deliveries[d].endpointId in db.endpoints
  {
    var row := db.deliveries[d];
    var event, endpoint := db.events[row.eventId], db.endpoints[row.endpointId];
    Webhook(r.attemptId, d, row.eventId, event.eventType, endpoint.targetUrl, endpoint.secret,
            event.body, row.attemptCount, r.token, event.data.runId)
  }

  /** Commit `staged` if it satisfies every constraint, otherwise roll back to `db`. */
  function CommitClaim(db: DB, staged: DB, outcome: ClaimOutcome): (DB, ClaimOutcome) {
    if Constraints(staged) then (staged, outcome) else (db, ClaimRaised(IntegrityError))
  }

  function ReserveTx(s: Settings, db: DB, flushed: DB, d: Id, r: Reservation): (DB, ClaimOutcome)
    requires d in flushed.deliveries && flushed.deliveries[d].endpointId in flushed.endpoints
  {
    if flushed.deliveries[d].eventId !in flushed.events then (db, ClaimRaised(MissingEvent))
    else
      var staged := Reserve(s, flushed, d, r);
      CommitClaim(db, staged, Claimed(WebhookFor(staged, d, r)))
  }

  ghost function ReclaimTx(s: Settings, db: DB, d: Id, r: Reservation): (DB, ClaimOutcome)
    requires d in db.deliveries && db.deliveries[d].endpointId in db.endpoints
  {
    if !(exists a :: IsEvidence(db, d, a)) then (db, ClaimRaised(MissingEvidence))
    else
      var a :| IsEvidence(db, d, a);
      ReclaimWith(s, db, d, a, r)
  }

  function ReclaimWith(s: Settings, db: DB, d: Id, a: Id, r: Reservation): (DB, ClaimOutcome)
    requires d in db.deliveries && db.deliveries[d].endpointId in db.endpoints
    requires a in db.attempts
  {
    var enabled := db.endpoints[db.deliveries[d].endpointId].enabled;
    var exhausted := !HasAttemptRemaining(s.policy, db.deliveries[d].attemptCount);
    var reason := ExpiryReason(enabled, exhausted);
    var expired := ExpireLease(db, d, a, reason, r.now);
    if enabled && !exhausted then
      if Constraints(expired) then ReserveTx(s, db, expired, d, r)
      else (db, ClaimRaised(IntegrityError))
    else if DeadLettered !in AllowedTransitions(db.deliveries[d].status) then
      (db, ClaimRaised(InvalidTransition))
    else CommitClaim(db, DeadLetter(expired, d, r.now), Resolved(d, reason))
  }

  function FreshClaimTx(s: Settings, db: DB, d: Id, r: Reservation): (DB, ClaimOutcome)
    requires d in db.deliveries && db.deliveries[d].endpointId in db.endpoints
  {
    var row := db.deliveries[d];
    var enabled := db.endpoints[row.endpointId].enabled;
    var reason := UnclaimableDueReason(enabled, !HasAttemptRemaining(s.policy, row.attemptCount));
    if reason.Some? then
      if DeadLettered !in AllowedTransitions(row.status) then (db, ClaimRaised(InvalidTransition))
      else CommitClaim(db, DeadLetterUnclaimed(db, d, reason.value, r.now), Resolved(d, reason.value))
    else if InProgress !in AllowedTransitions(row.status) then
      (db, ClaimRaised(InvalidTransition))
    else ReserveTx(s, db, db, d, r)
  }

  function DeadLetterUnclaimed(db: DB, d: Id, reason: string, now: Time): DB
    requires d in db.deliveries
  {
    db.(deliveries := db.deliveries[d := DeadLetteredRow(db.deliveries[d], now).(
          lastError := Some(Truncate(reason, 2048)))])
  }

  /** `claim_one` once the query has locked delivery d. */
  ghost function ClaimTx(s: Settings, db: DB, d: Id, r: Reservation): (DB, ClaimOutcome)
    requires d in db.deliveries && db.deliveries[d].endpointId in db.endpoints
  {
    if db.deliveries[d].status == InProgress then ReclaimTx(s, db, d, r)
    else FreshClaimTx(s, db, d, r)
  }

  // ----- finalize -----

  datatype FinalizeOutcome = Finalized | Stale | FinalizeRaised(fault: Fault)

  /** The retry delay decided before the transaction opens; `None` when no retry is due. */
  function RetryDelay(s: Settings, w: Webhook, result: AttemptResult, jitter: real): Option<real>
    requires w.attemptNumber >= 1
  {
    if result.disposition == Disposition.Retry && HasAttemptRemaining(s.policy, w.attemptNumber) then
      var delay := DelaySeconds(s.policy, w.attemptNumber, jitter);
      Some(if result.retryAfter.Some? then Max(delay, result.retryAfter.value) else delay)
    else None
  }

  function TargetStatus(result: AttemptResult, delay: Option<real>): DeliveryStatus {
    if result.disposition == Succeeded then Delivered
    else if delay.Some? then RetryWait
    else DeadLettered
  }

  function DigitsOf(n: nat): string {
    if n < 10 then ["0123456789"[n]] else DigitsOf(n / 10) + ["0123456789"[n % 10]]
  }

  function LastError(result: AttemptResult): Option<string> {
    if result.disposition == Succeeded then None
    else if result.errorType.Some? then
      var detail := if result.errorMessage.Some? && result.errorMessage.value != ""
                    then result.errorMessage.value else "outbound request failed";
      Some(Truncate(result.errorType.value + ": " + detail, 2048))
    else if result.httpStatus.Some? && result.httpStatus.value >= 0 then
      Some("HTTP " + DigitsOf(result.httpStatus.value))
    else Some("outbound request failed")
  }

  /** The delivery row that still carries the webhook's lease, for this worker. */
  predicate OwnsLease(db: DB, workerId: string, w: Webhook) {
    && w.deliveryId in db.deliveries
    && db.deliveries[w.deliveryId].status == InProgress
    && db.deliveries[w.deliveryId].leaseOwner == Some(Truncate(workerId, 160))
    && db.deliveries[w.deliveryId].leaseToken == Some(w.leaseToken)
    && db.deliveries[w.deliveryId].attemptCount == w.attemptNumber
  }

  predicate HasMatchingAttempt(db: DB, w: Webhook) {
    && w.attemptId in db.attempts
    && db.attempts[w.attemptId].deliveryId == w.deliveryId
    && db.attempts[w.attemptId].number == w.attemptNumber
    && db.attempts[w.attemptId].leaseToken == w.leaseToken
    && db.attempts[w.attemptId].status == Reserved
  }

  function CompletedAttempt(a: Attempt, result: AttemptResult, retryAt: Option<Time>, now: Time)
    : Attempt
  {
    a.(status := Completed, disposition := Some(result.disposition),
       httpStatus := result.httpStatus, errorType := result.errorType,
       errorMessage := result.errorMessage, excerpt := result.excerpt,
       durationMs := Some(result.durationMs), requestTimestamp := Some(result.requestTimestamp),
       retryScheduledFor := retryAt, startedAt := Some(result.startedAt),
       finishedAt := Some(result.finishedAt), resolvedAt := Some(now))
  }

  function SettledRow(
    row: Delivery, target: DeliveryStatus, result: AttemptResult, retryAt: Option<Time>, now: Time)
    : Delivery
  {
    row.(status := target, nextAttemptAt := retryAt,
         deliveredAt := if target == Delivered then Some(now) else None,
         lastError := LastError(result),
         leaseOwner := None, leaseToken := None, leaseExpiresAt := None, updatedAt := now)
  }

  function Settle(db: DB, w: Webhook, result: AttemptResult, delay: Option<real>, now: Time): DB
    requires w.deliveryId in db.deliveries && w.attemptId in db.attempts
  {
    var retryAt := if delay.Some? then Some(now + delay.value) else None;
    db.(attempts := db.attempts[w.attemptId :=
          CompletedAttempt(db.attempts[w.attemptId], result, retryAt, now)],
        deliveries := db.deliveries[w.deliveryId :=
          SettledRow(db.deliveries[w.deliveryId], TargetStatus(result, delay), result, retryAt, now)])
  }

  /** `finalize`, run by worker `workerId` at database time `now`. */
  function FinalizeTx(
    s: Settings, db: DB, workerId: string, w: Webhook, result: AttemptResult, now: Time, jitter: real)
    : (DB, FinalizeOutcome)
    requires w.attemptNumber >= 1
  {
    if !OwnsLease(db, workerId, w) then (db, Stale)
    else if !HasMatchingAttempt(db, w) then (db, FinalizeRaised(MissingEvidence))
    else
      var delay := RetryDelay(s, w, result, jitter);
      if TargetStatus(result, delay) !in AllowedTransitions(InProgress) then
        (db, FinalizeRaised(InvalidTransition))
      else
        var staged := Settle(db, w, result, delay, now);
        if Constraints(staged) then (staged, Finalized) else (db, FinalizeRaised(IntegrityError))
  }

  // ----- publish -----

  /** `data` is absent when it holds a value that strict JSON cannot represent. */
  datatype PublishRequest = PublishRequest(endpointId: Id, eventType: string, data: Option<Data>)

  datatype Refusal =
    | InvalidIdempotencyKey | EndpointNotFound | InvalidEventData | IdempotencyKeyReused
    | DisabledEndpoint | DeliveryNotFound | ReplaySourceSuperseded | DeliveryNotReplayable
    | PayloadCorrection | ActiveDeliveryExists

  datatype PublishOutcome =
    | Published(eventId: Id, deliveryId: Id, idempotentReplay: bool)
    | PublishRefused(refusal: Refusal)
    | PublishRaised(fault: Fault)

  /** Fresh UUIDs, the API clock, and the database clock behind the `next_attempt_at` default. */
  datatype Minted = Minted(eventId: Id, deliveryId: Id, createdAt: Time, databaseNow: Time)

  /** `str.isspace()` of one character. */
  predicate IsSpace(c: char) {
    || c in " \t\n\r" || c in "\U{B}\U{C}" || c in "\U{1C}\U{1D}\U{1E}\U{1F}"
    || c in "\U{85}\U{A0}\U{1680}" || '\U{2000}' <= c <= '\U{200A}'
    || c in "\U{2028}\U{2029}\U{202F}" || c in "\U{205F}\U{3000}"
  }

  /** `str.strip()` leaves nothing. */
  predicate Blank(s: string) { forall c | c in s :: IsSpace(c) }

  function FingerprintOf(q: PublishRequest): Fingerprint
    requires q.data.Some?
  {
    Fingerprint(q.endpointId, q.eventType, q.data.value)
  }

  function NewEvent(q: PublishRequest, key: string, m: Minted): Event
    requires q.data.Some?
  {
    Event(q.eventType, key, q.data.value,
          Body(m.eventId, q.eventType, m.createdAt, q.data.value), FingerprintOf(q), m.createdAt)
  }

  function NewDelivery(eventId: Id, endpointId: Id, createdAt: Time, databaseNow: Time): Delivery {
    Delivery(eventId, endpointId, 0, None, None, Pending, 0, Some(databaseNow),
             None, None, None, None, None, createdAt, createdAt)
  }

  predicate HoldsKey(db: DB, key: string, e: Id) {
    e in db.events && db.events[e].key == key
  }

  predicate IsInitial(db: DB, eventId: Id, endpointId: Id, d: Id) {
    && d in db.deliveries && db.deliveries[d].eventId == eventId
    && db.deliveries[d].endpointId == endpointId && db.deliveries[d].generation == 0
  }

  function InsertEvent(db: DB, q: PublishRequest, key: string, m: Minted): DB
    requires q.data.Some?
  {
    db.(events := db.events[m.eventId := NewEvent(q, key, m)])
  }

  function Accept(db: DB, q: PublishRequest, key: string, m: Minted): DB
    requires q.data.Some?
  {
    db.(events := db.events[m.eventId := NewEvent(q, key, m)],
        deliveries := db.deliveries[m.deliveryId :=
          NewDelivery(m.eventId, q.endpointId, m.createdAt, m.databaseNow)])
  }

  ghost function ResolveIdempotentReplay(db: DB, q: PublishRequest, e: Id): PublishOutcome
    requires q.data.Some? && e in db.events
  {
    if db.events[e].fingerprint != FingerprintOf(q) then PublishRefused(IdempotencyKeyReused)
    else if !(exists d :: IsInitial(db, e, q.endpointId, d)) then
      PublishRaised(MissingInitialDelivery)
    else
      var d :| IsInitial(db, e, q.endpointId, d);
      Published(e, d, true)
  }

  /** `publish`, with the blank-key check of its route (backend/src/eventharbor/routers/v1.py). */
  ghost function PublishTx(db: DB, q: PublishRequest, key: string, m: Minted): (DB, PublishOutcome) {
    if Blank(key) then (db, PublishRefused(InvalidIdempotencyKey))
    else if q.endpointId !in db.endpoints then (db, PublishRefused(EndpointNotFound))
    else if q.data.None? then (db, PublishRefused(InvalidEventData))
    else if exists e :: HoldsKey(db, key, e) then
      var e :| HoldsKey(db, key, e);
      (db, ResolveIdempotentReplay(db, q, e))
    else if !Constraints(InsertEvent(db, q, key, m)) then (db, PublishRaised(IntegrityError))
    else if !db.endpoints[q.endpointId].enabled then (db, PublishRefused(DisabledEndpoint))
    else
      var staged := Accept(db, q, key, m);
      if Constraints(staged) then (staged, Published(m.eventId, m.deliveryId, false))
      else (db, PublishRaised(IntegrityError))
  }

  // ----- replay -----

  datatype ReplayOutcome =
    | Replayed(sourceId: Id, deliveryId: Id, idempotentReplay: bool)
    | ReplayRefused(refusal: Refusal)
    | ReplayRaised(fault: Fault)

  /** A replay between its unlocked read and its locked decision. `seen` is the row as first read:
      the session keeps that object, so its status is what the decision uses. */
  datatype ReplayCall = ReplayCall(sourceId: Id, seen: Delivery, key: string)

  predicate IsReplayOf(db: DB, sourceId: Id, key: string, d: Id) {
    && d in db.deliveries
    && db.deliveries[d].replayedFrom == Some(sourceId) && db.deliveries[d].replayKey == Some(key)
  }

  ghost function GetByReplayRequest(db: DB, sourceId: Id, key: string): Option<Id> {
    if exists d :: IsReplayOf(db, sourceId, key, d) then
      var d :| IsReplayOf(db, sourceId, key, d);
      Some(d)
    else None
  }

  predicate InChain(db: DB, eventId: Id, endpointId: Id, d: Id) {
    && d in db.deliveries
    && db.deliveries[d].eventId == eventId && db.deliveries[d].endpointId == endpointId
  }

  ghost predicate IsLatest(db: DB, eventId: Id, endpointId: Id, d: Id) {
    && InChain(db, eventId, endpointId, d)
    && forall other | InChain(db, eventId, endpointId, other) ::
         db.deliveries[other].generation <= db.deliveries[d].generation
  }

  /** The last row of `list_attempts`. */
  predicate IsLastAttempt(db: DB, d: Id, a: Id) {
    && a in db.attempts && db.attempts[a].deliveryId == d
    && forall b | b in db.attempts && db.attempts[b].deliveryId == d ::
         db.attempts[b].number <= db.attempts[a].number
  }

  ghost function BlockOf(db: DB, d: Id): Option<BlockCode> {
    if exists a :: IsLastAttempt(db, d, a) then
      var a :| IsLastAttempt(db, d, a);
      ReplayBlockCode(db.attempts[a].httpStatus, db.attempts[a].excerpt)
    else None
  }

  function ReplayRow(call: ReplayCall, now: Time, databaseNow: Time): Delivery {
    Delivery(call.seen.eventId, call.seen.endpointId, call.seen.generation + 1,
             Some(call.sourceId), Some(call.key), Pending, 0, Some(databaseNow),
             None, None, None, None, None, now, now)
  }

  datatype ReplayStart = Began(call: ReplayCall) | Declined(refusal: Refusal)

  /** The unlocked part of `replay`, with the blank-key check of its route. */
  function ReplayBegin(db: DB, sourceId: Id, key: string): ReplayStart {
    if Blank(key) then Declined(InvalidIdempotencyKey)
    else if sourceId !in db.deliveries then Declined(DeliveryNotFound)
    else Began(ReplayCall(sourceId, db.deliveries[sourceId], key))
  }

  ghost function ReplayDecision(db: DB, call: ReplayCall): Option<ReplayOutcome> {
    var e, p := call.seen.eventId, call.seen.endpointId;
    if e !in db.events then Some(ReplayRaised(EventVanished))
    else if call.sourceId !in db.deliveries then Some(ReplayRaised(SourceVanished))
    else if GetByReplayRequest(db, call.sourceId, call.key).Some? then
      Some(Replayed(call.sourceId, GetByReplayRequest(db, call.sourceId, call.key).value, true))
    else if !(exists d :: IsLatest(db, e, p, d)) then Some(ReplayRaised(NoLatestGeneration))
    else if !IsLatest(db, e, p, call.sourceId) then Some(ReplayRefused(ReplaySourceSuperseded))
    else if call.seen.status != DeadLettered then Some(ReplayRefused(DeliveryNotReplayable))
    else if BlockOf(db, call.sourceId).Some? then Some(ReplayRefused(PayloadCorrection))
    else if exists d :: InChain(db, e, p, d) && Active(db.deliveries[d].status) then
      Some(ReplayRefused(ActiveDeliveryExists))
    else if p !in db.endpoints then Some(ReplayRaised(MissingEndpoint))
    else if !db.endpoints[p].enabled then Some(ReplayRefused(DisabledEndpoint))
    else None
  }

  /** The locked part of `replay`. */
  ghost function ReplayTx(db: DB, call: ReplayCall, newId: Id, now: Time, databaseNow: Time)
    : (DB, ReplayOutcome)
  {
    var decision := ReplayDecision(db, call);
    if decision.Some? then (db, decision.value)
    else
      var staged := db.(deliveries := db.deliveries[newId := ReplayRow(call, now, databaseNow)]);
      if Constraints(staged) then (staged, Replayed(call.sourceId, newId, false))
      else (db, ReplayRaised(IntegrityError))
  }

  // ----- purge -----

  /** The database without the events of `gone`, their deliveries and their attempts
      (backend/src/eventharbor/maintenance.py). */
  function RemoveEvents(db: DB, gone: set<Id>): DB {
    var deliveries := map d | d in db.deliveries && db.deliveries[d].eventId !in gone
                      :: db.deliveries[d];
    DB(db.endpoints, db.events - gone, deliveries,
       map a | a in db.attempts && db.attempts[a].deliveryId in deliveries :: db.attempts[a])
  }

  /** No delivery of the event is active. */
  predicate AllTerminal(db: DB, e: Id) {
    forall d | d in db.deliveries && db.deliveries[d].eventId == e ::
      !Active(db.deliveries[d].status)
  }

  function Expired(db: DB, cutoff: Time): set<Id> {
    set e | e in db.events && db.events[e].createdAt < cutoff && AllTerminal(db, e)
  }
}
