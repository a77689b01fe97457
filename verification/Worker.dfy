/** `DeliveryWorker` (backend/src/eventharbor/deliveries/worker.py): short transactions around
    untrusted network I/O. Each method is proved equal to its transaction in `Transactions`. */
module Worker {
  import opened Schema
  import opened Retry
  import opened Transport
  import opened Transactions
  import opened Invariants
  import opened WorkerProofs
  import opened ServiceProofs
  import opened Settling
  import opened Claims
  import opened Answers
  import opened Tables

  /** The claim query orders by due time, then id; every non-empty set has a first row. */
  lemma {:induction false} FirstRowExists(db: DB, rows: set<Id>) returns (first: Id)
    requires rows != {} && forall d | d in rows :: d in db.deliveries
    ensures first in rows && forall other | other in rows :: ComesFirst(db, first, other)
    decreases |rows|
  {
    first :| first in rows;
    var rest := rows - {first};
    if rest != {} {
      var best := FirstRowExists(db, rest);
      if !ComesFirst(db, first, best) {
        first := best;
      }
    }
    forall other | other in rows ensures ComesFirst(db, first, other) {
      assert other in rest || rows == rest + {other};
    }
  }

  /** The order is total on ids, so the first row is the only one that can be selected. */
  lemma SelectionIsUnique(db: DB, t: Time, locked: set<Id>, d1: Id, d2: Id)
    requires Selected(db, t, locked, d1) && Selected(db, t, locked, d2)
    ensures d1 == d2
  {
    assert ComesFirst(db, d1, d2) && ComesFirst(db, d2, d1);
  }

  datatype RunResult = Idle | Worked | Failed

  /** What the outside world does during one iteration of the worker. */
  datatype Turn = Turn(exchange: Exchange, timing: Timing, jitter: real)

  predicate FairTurn(turn: Turn) {
    && 0.0 <= turn.jitter <= 1.0
    && turn.timing.startedAt <= turn.timing.finishedAt && turn.timing.requestTimestamp >= 0
  }

  class DeliveryWorker {
    const db: Database
    const settings: Settings
    const workerId: string

    constructor (db: Database, settings: Settings, workerId: string)
      ensures this.db == db && this.settings == settings
      ensures this.workerId == Truncate(workerId, 160)
    {
      this.db, this.settings, this.workerId := db, settings, Truncate(workerId, 160);
    }

    /** Rows of delivery_attempts that prove the delivery's current lease. */
    method FindEvidence(id: Id) returns (found: Option<Id>)
      requires id in db.deliveries && Constraints(db.Contents())
      ensures found.None? <==> !(exists a :: IsEvidence(db.Contents(), id, a))
      ensures found.Some? ==> IsEvidence(db.Contents(), id, found.value)
      ensures forall a | IsEvidence(db.Contents(), id, a) :: found.Some? && found.value == a
    {
      var rows := set a | a in db.attempts && IsEvidence(db.Contents(), id, a);
      forall a | IsEvidence(db.Contents(), id, a) ensures a in rows {
      }
      if rows == {} {
        return None;
      }
      var a :| a in rows;
      forall b | IsEvidence(db.Contents(), id, b) ensures b == a {
        NumberIsUnique(db.Contents(), a, b);
      }
      return Some(a);
    }

    /** Resolve an expired claim. `Some` stops the claim; `None` means redelivery goes on, with
        the attempt's new status and the row's new error staged. */
    method ResolveExpiredAttempt(id: Id, endpointEnabled: bool, now: Time)
      returns (resolution: Option<ClaimOutcome>, ghost evidence: Id)
      requires id in db.deliveries && db.deliveries[id].status == InProgress
      requires Constraints(db.Contents())
      modifies db
      ensures var before, after := old(db.Contents()), db.Contents();
              var exhausted := !HasAttemptRemaining(settings.policy,
                                                    before.deliveries[id].attemptCount);
              var reason := ExpiryReason(endpointEnabled, exhausted);
              if !(exists a :: IsEvidence(before, id, a)) then
                resolution == Some(ClaimRaised(MissingEvidence)) && after == before
              else
                && IsEvidence(before, id, evidence)
                && (forall a | IsEvidence(before, id, a) :: a == evidence)
                && var expired := ExpireLease(before, id, evidence, reason, now);
                   if endpointEnabled && !exhausted then resolution == None && after == expired
                   else (after, resolution)
                        == (CommitClaim(before, DeadLetter(expired, id, now), Resolved(id, reason)).0,
                            Some(CommitClaim(before, DeadLetter(expired, id, now),
                                             Resolved(id, reason)).1))
    {
      hide Constraints, Truncate;
      var saved := db.Contents();
      var found := FindEvidence(id);
      if found.None? {
        return Some(ClaimRaised(MissingEvidence)), 0;
      }
      evidence := found.value;
      var delivery, attempt := db.deliveries[id], db.attempts[found.value];
      var exhausted := !HasAttemptRemaining(settings.policy, delivery.attemptCount);
      var reason;
      if !endpointEnabled {
        reason := DISABLED_DURING_LEASE;
      } else if exhausted {
        reason := EXHAUSTED_DURING_LEASE;
      } else {
        reason := REDELIVERY_RESERVED;
      }

      attempt := attempt.(status := Indeterminate);
      attempt := attempt.(errorType := Some("lease_expired"));
      attempt := attempt.(errorMessage := Some(
        Truncate(reason + "; the endpoint may have received the request", 2048)));
      attempt := attempt.(resolvedAt := Some(now));
      delivery := delivery.(lastError := Some(Truncate("lease_expired: " + reason, 2048)));
      db.attempts := db.attempts[found.value := attempt];
      db.deliveries := db.deliveries[id := delivery];
      assert db.Contents() == ExpireLease(saved, id, evidence, reason, now);
      if endpointEnabled && !exhausted {
        return None, evidence;
      }

      delivery := delivery.(status := DeadLettered, nextAttemptAt := None);
      delivery := delivery.(leaseOwner := None, leaseToken := None, leaseExpiresAt := None);
      delivery := delivery.(updatedAt := now);
      db.deliveries := db.deliveries[id := delivery];
      assert db.Contents()
             == DeadLetter(ExpireLease(saved, id, evidence, reason, now), id, now);
      var ok := db.Flush();
      if !ok {
        db.Rollback(saved);
        return Some(ClaimRaised(IntegrityError)), evidence;
      }
      return Some(Resolved(id, reason)), evidence;
    }

    /** Terminate due work without implying that another attempt occurred. */
    method DeadLetterWithoutAttempt(id: Id, reason: string, now: Time)
      returns (outcome: ClaimOutcome)
      requires id in db.deliveries
      requires db.deliveries[id].status == Pending || db.deliveries[id].status == RetryWait
      modifies db
      ensures (db.Contents(), outcome)
              == CommitClaim(old(db.Contents()),
                             DeadLetterUnclaimed(old(db.Contents()), id, reason, now),
                             Resolved(id, reason))
    {
      var saved := db.Contents();
      var delivery := db.deliveries[id];
      delivery := delivery.(status := DeadLettered, nextAttemptAt := None);
      delivery := delivery.(lastError := Some(Truncate(reason, 2048)));
      delivery := delivery.(leaseOwner := None, leaseToken := None, leaseExpiresAt := None);
      delivery := delivery.(updatedAt := now);
      db.deliveries := db.deliveries[id := delivery];
      assert db.Contents() == DeadLetterUnclaimed(saved, id, reason, now);
      var ok := db.Flush();
      if !ok {
        db.Rollback(saved);
        return ClaimRaised(IntegrityError);
      }
      return Resolved(id, reason);
    }

    /** The tail of a claim: take the lease, reserve the attempt, hand out the snapshot. `saved`
        is the state to roll back to. */
    method ReserveAttempt(id: Id, now: Time, token: Id, attemptId: Id, saved: DB)
      returns (outcome: ClaimOutcome)
      requires id in db.deliveries && db.deliveries[id].endpointId in db.endpoints
      modifies db
      ensures (db.Contents(), outcome)
              == ReserveTx(settings, saved, old(db.Contents()), id,
                           Reservation(workerId, now, token, attemptId))
    {
      ghost var r := Reservation(workerId, now, token, attemptId);
      ghost var flushed := db.Contents();
      var delivery := db.deliveries[id];
      delivery := delivery.(status := InProgress);
      delivery := delivery.(attemptCount := delivery.attemptCount + 1);
      delivery := delivery.(nextAttemptAt := None);
      delivery := delivery.(leaseOwner := Some(Truncate(workerId, 160)));
      delivery := delivery.(leaseToken := Some(token));
      delivery := delivery.(leaseExpiresAt := Some(now + settings.leaseSeconds));
      delivery := delivery.(updatedAt := now);
      db.deliveries := db.deliveries[id := delivery];

      if delivery.eventId !in db.events {
        db.Rollback(saved);
        return ClaimRaised(MissingEvent);
      }
      var event, endpoint := db.events[delivery.eventId], db.endpoints[delivery.endpointId];
      db.attempts := db.attempts[attemptId :=
        Attempt(id, delivery.attemptCount, Reserved, token, None, None, None, None, None, None,
                None, None, None, None, None, now)];
      assert db.Contents() == Reserve(settings, flushed, id, r);
      var ok := db.Flush();
      if !ok {
        db.Rollback(saved);
        return ClaimRaised(IntegrityError);
      }
      return Claimed(Webhook(attemptId, id, delivery.eventId, event.eventType, endpoint.targetUrl,
                             endpoint.secret, event.body, delivery.attemptCount, token,
                             event.data.runId));
    }

    /** The claim query: the first row that is due and that nobody else has locked. */
    method SelectDue(queryTime: Time, locked: set<Id>) returns (found: Option<Id>)
      requires Constraints(db.Contents())
      ensures found.None? <==> Claimable(db.Contents(), queryTime, locked) == {}
      ensures found.None? ==> NothingMayBeTaken(db.Contents(), queryTime, locked)
      ensures found.Some? ==>
                && Selected(db.Contents(), queryTime, locked, found.value)
                && DueLongest(db.Contents(), queryTime, locked, found.value)
    {
      hide Constraints, MayBeTaken, DueLongest, DueAt;
      var due := Claimable(db.Contents(), queryTime, locked);
      if due == {} {
        SelectedIsDueLongest(db.Contents(), queryTime, locked, 0);
        return None;
      }
      ghost var first := FirstRowExists(db.Contents(), due);
      var id :| id in due && forall other | other in due :: ComesFirst(db.Contents(), id, other);
      SelectedIsDueLongest(db.Contents(), queryTime, locked, id);
      return Some(id);
    }

    /** `claim_one`: resolve or lease the first due delivery that nobody else has locked. */
    method ClaimOne(now: Time, queryTime: Time, locked: set<Id>, token: Id, attemptId: Id)
      returns (outcome: ClaimOutcome, ghost claimed: Id)
      requires Constraints(db.Contents())
      modifies db
      ensures Claimable(old(db.Contents()), queryTime, locked) == {} ==>
                outcome == NothingDue && db.Contents() == old(db.Contents())
      ensures Claimable(old(db.Contents()), queryTime, locked) != {} ==>
                && Selected(old(db.Contents()), queryTime, locked, claimed)
                && (db.Contents(), outcome)
                   == ClaimTx(settings, old(db.Contents()), claimed,
                              Reservation(workerId, now, token, attemptId))
      ensures Claimable(old(db.Contents()), queryTime, locked) != {} ==>
                DueLongest(old(db.Contents()), queryTime, locked, claimed)
      ensures Claimable(old(db.Contents()), queryTime, locked) == {} ==>
                NothingMayBeTaken(old(db.Contents()), queryTime, locked)
    {
      hide MayBeTaken, DueLongest, NothingMayBeTaken, ComesFirst, Constraints, IsEvidence,
           ExpiredAttempt, DeadLetter, DeadLetterUnclaimed, DueAt, ReserveTx, Truncate;
      var saved := db.Contents();
      ghost var r := Reservation(workerId, now, token, attemptId);
      var found := SelectDue(queryTime, locked);
      if found.None? {
        return NothingDue, 0;
      }
      var id := found.value;
      claimed := id;
      var delivery := db.deliveries[id];
      var endpoint := db.endpoints[delivery.endpointId];
      if delivery.status == InProgress {
        ghost var evidence;
        var resolution;
        resolution, evidence := ResolveExpiredAttempt(id, endpoint.enabled, now);
        if resolution.Some? {
          return resolution.value, claimed;
        }
        var ok := db.Flush();
        if !ok {
          db.Rollback(saved);
          return ClaimRaised(IntegrityError), claimed;
        }
      } else {
        var reason := UnclaimableDueReason(
          endpoint.enabled, !HasAttemptRemaining(settings.policy, delivery.attemptCount));
        if reason.Some? {
          outcome := DeadLetterWithoutAttempt(id, reason.value, now);
          return outcome, claimed;
        }
      }
      outcome := ReserveAttempt(id, now, token, attemptId, saved);
    }

    /** `finalize`: record the result, only while this worker still owns the lease. */
    method Finalize(webhook: Webhook, result: AttemptResult, now: Time, jitter: real)
      returns (outcome: FinalizeOutcome)
      requires webhook.attemptNumber >= 1
      modifies db
      ensures (db.Contents(), outcome)
              == FinalizeTx(settings, old(db.Contents()), workerId, webhook, result, now, jitter)
      ensures settings.Valid() && outcome == Finalized ==>
                && webhook.deliveryId in db.deliveries
                && SchedulesNext(settings, db.deliveries[webhook.deliveryId], webhook.attemptNumber,
                                 result, now, jitter)
    {
      hide SchedulesNext;
      var saved := db.Contents();
      var retryDelay: Option<real> := None;
      var target := DeadLettered;
      if result.disposition == Succeeded {
        target := Delivered;
      } else if result.disposition == Disposition.Retry
                && HasAttemptRemaining(settings.policy, webhook.attemptNumber) {
        var delay := DelaySeconds(settings.policy, webhook.attemptNumber, jitter);
        if result.retryAfter.Some? {
          delay := Max(delay, result.retryAfter.value);
        }
        retryDelay := Some(delay);
        target := RetryWait;
      }
      assert retryDelay == RetryDelay(settings, webhook, result, jitter);

      if !OwnsLease(db.Contents(), workerId, webhook) {
        return Stale;
      }
      if !HasMatchingAttempt(db.Contents(), webhook) {
        return FinalizeRaised(MissingEvidence);
      }
      var delivery, attempt := db.deliveries[webhook.deliveryId], db.attempts[webhook.attemptId];
      if target !in AllowedTransitions(delivery.status) {
        return FinalizeRaised(InvalidTransition);
      }
      var retryAt := if retryDelay.Some? then Some(now + retryDelay.value) else None;
      attempt := attempt.(status := Completed, disposition := Some(result.disposition));
      attempt := attempt.(httpStatus := result.httpStatus, errorType := result.errorType);
      attempt := attempt.(errorMessage := result.errorMessage, excerpt := result.excerpt);
      attempt := attempt.(durationMs := Some(result.durationMs));
      attempt := attempt.(requestTimestamp := Some(result.requestTimestamp));
      attempt := attempt.(retryScheduledFor := retryAt);
      attempt := attempt.(startedAt := Some(result.startedAt), finishedAt := Some(result.finishedAt));
      attempt := attempt.(resolvedAt := Some(now));

      delivery := delivery.(status := target, nextAttemptAt := retryAt);
      delivery := delivery.(deliveredAt := if target == Delivered then Some(now) else None);
      delivery := delivery.(lastError := LastError(result));
      delivery := delivery.(leaseOwner := None, leaseToken := None, leaseExpiresAt := None);
      delivery := delivery.(updatedAt := now);
      db.attempts := db.attempts[webhook.attemptId := attempt];
      db.deliveries := db.deliveries[webhook.deliveryId := delivery];
      assert db.Contents() == Settle(saved, webhook, result, retryDelay, now);
      var ok := db.Flush();
      if !ok {
        db.Rollback(saved);
        return FinalizeRaised(IntegrityError);
      }
      if settings.Valid() {
        ResultSchedulesNext(settings, saved, workerId, webhook, result, now, jitter);
      }
      return Finalized;
    }

    /** `run_once`: at most one delivery. `Idle` is the answer False; `Failed` is an exception that
        escapes to the polling loop. */
    method RunOnce(now: Time, queryTime: Time, finalizedAt: Time, locked: set<Id>, token: Id,
                   attemptId: Id, turn: Turn)
      returns (r: RunResult, ghost claimed: Id)
      requires Constraints(db.Contents())
      modifies db
      ensures Claimable(old(db.Contents()), queryTime, locked) == {} ==>
                r == Idle && db.Contents() == old(db.Contents())
      ensures Claimable(old(db.Contents()), queryTime, locked) != {} ==>
                && Selected(old(db.Contents()), queryTime, locked, claimed)
                && (db.Contents(), r)
                   == OneTurn(settings, old(db.Contents()), claimed,
                              Reservation(workerId, now, token, attemptId), finalizedAt, turn)
    {
      hide Constraints, ClaimTx, FinalizeTx;
      var claim;
      claim, claimed := ClaimOne(now, queryTime, locked, token, attemptId);
      if claim.NothingDue? {
        return Idle, claimed;
      }
      if claim.Resolved? {
        return Worked, claimed;
      }
      if claim.ClaimRaised? {
        return Failed, claimed;
      }
      var result := SendWebhook(turn.exchange, settings.retryAfterCap, turn.timing);
      if result.None? || claim.webhook.attemptNumber < 1 {
        return Failed, claimed;
      }
      var outcome := Finalize(claim.webhook, result.value, finalizedAt, turn.jitter);
      r := if outcome.FinalizeRaised? then Failed else Worked;
    }

    /** The polling loop between two sleeps, with the clock standing still: it stops, it stops
        with nothing due, and it takes no more iterations than the table's budget allows.
        UUIDs are minted upward from `firstFree`. */
    method RunUntilIdle(t: Time, turns: nat -> Turn, firstFree: Id) returns (iterations: nat)
      requires settings.Valid() && Inv(settings, db.Contents())
      requires forall i :: FairTurn(turns(i))
      requires IdsBelow(db.Contents(), firstFree)
      modifies db
      ensures Inv(settings, db.Contents())
      ensures Claimable(db.Contents(), t, {}) == {}
      ensures iterations <= Total(settings, old(db.deliveries), old(db.deliveries).Keys)
      ensures db.deliveries.Keys == old(db.deliveries).Keys
    {
      hide Inv, Constraints, OneTurn, IdsBelow, FairTurn, Claimable, Selected;
      iterations := 0;
      TotalIsNat(settings, db.Contents(), db.deliveries.Keys);
      var r := Worked;
      while r != Idle
        invariant Inv(settings, db.Contents())
        invariant IdsBelow(db.Contents(), firstFree + 2 * iterations)
        invariant db.deliveries.Keys == old(db.deliveries).Keys
        invariant Total(settings, db.deliveries, db.deliveries.Keys) >= 0
        invariant iterations + Total(settings, db.deliveries, db.deliveries.Keys)
                  <= Total(settings, old(db.deliveries), old(db.deliveries).Keys)
        invariant r == Idle ==> Claimable(db.Contents(), t, {}) == {}
        decreases r != Idle, Total(settings, db.deliveries, db.deliveries.Keys)
      {
        ghost var before := db.Contents();
        var id := firstFree + 2 * iterations;
        InvGivesConstraints(settings, before);
        ghost var claimed;
        r, claimed := RunOnce(t, t, t, {}, id, id + 1, turns(iterations));
        if Claimable(before, t, {}) != {} {
          TurnSpends(settings, before, claimed, Reservation(workerId, t, id, id + 1), t,
                     turns(iterations), id);
          TotalIsNat(settings, db.Contents(), db.deliveries.Keys);
        }
        if r != Idle {
          iterations := iterations + 1;
        }
      }
    }
  }

  /** What one turn of `run_once` does once delivery d is selected. */
  ghost function OneTurn(s: Settings, db: DB, d: Id, r: Reservation, finalizedAt: Time, turn: Turn)
    : (DB, RunResult)
    requires d in db.deliveries && db.deliveries[d].endpointId in db.endpoints
  {
    var (claimedDb, claim) := ClaimTx(s, db, d, r);
    match claim
    case NothingDue => (claimedDb, Idle)
    case Resolved(_, _) => (claimedDb, Worked)
    case ClaimRaised(_) => (claimedDb, Failed)
    case Claimed(w) =>
      var result := SendWebhook(turn.exchange, s.retryAfterCap, turn.timing);
      if result.None? || w.attemptNumber < 1 then (claimedDb, Failed)
      else
        var (finalDb, outcome) :=
          FinalizeTx(s, claimedDb, r.workerId, w, result.value, finalizedAt, turn.jitter);
        (finalDb, if outcome.FinalizeRaised? then Failed else Worked)
  }

  predicate IdsBelow(db: DB, bound: Id) {
    forall a | a in db.attempts :: a < bound && db.attempts[a].leaseToken < bound
  }

  lemma FreshBelow(db: DB, r: Reservation, bound: Id)
    requires IdsBelow(db, bound) && r.token >= bound && r.attemptId >= bound
    ensures FreshReservation(db, r)
  {
  }

  /** One turn keeps the invariant, spends budget, never loses a delivery and never fails except
      when the exchange itself returned an impossible status. */
  lemma TurnSpends(s: Settings, db: DB, d: Id, r: Reservation, t: Time, turn: Turn, bound: Id)
    requires s.Valid() && Inv(s, db) && Selected(db, t, {}, d) && FairTurn(turn)
    requires IdsBelow(db, bound) && r.token == bound && r.attemptId == bound + 1
    ensures var (db', result) := OneTurn(s, db, d, r, t, turn);
            && result != Idle && Inv(s, db') && db'.deliveries.Keys == db.deliveries.Keys
            && Total(s, db'.deliveries, db'.deliveries.Keys)
               < Total(s, db.deliveries, db.deliveries.Keys)
            && IdsBelow(db', bound + 2)
            && (result == Failed ==>
                  turn.exchange.Responded? && !(100 <= turn.exchange.status <= 599))
  {
    hide Inv, ClaimTx, FinalizeTx, Due, FairTurn, WellFormed, NamesItsAttempt, SnapshotAgrees;
    FreshBelow(db, r, bound);
    ClaimKeepsInv(s, db, d, r, t, {});
    ClaimEffect(s, db, d, r, t, {});
    var (mid, claim) := ClaimTx(s, db, d, r);
    ClaimSpends(s, db, mid, d, r, claim);
    TotalDrops(s, db.deliveries, mid.deliveries, d);
    IdsAfterClaim(db, mid, d, r, claim, bound);
    if claim.Claimed? {
      var result := SendWebhook(turn.exchange, s.retryAfterCap, turn.timing);
      FairTurnFacts(turn);
      SendWebhookWellFormed(s, turn.exchange, turn.timing);
      var w := claim.webhook;
      assert w.attemptNumber >= 1 by { NamesPositive(mid, w); }
      if result.Some? {
        FinalizeKeepsInv(s, mid, r.workerId, w, result.value, t, turn.jitter);
        var (db', outcome) := FinalizeTx(s, mid, r.workerId, w, result.value, t, turn.jitter);
        if outcome == Finalized {
          FinalizeSpends(s, mid, r.workerId, w, result.value, t, turn.jitter);
          TotalDrops(s, mid.deliveries, db'.deliveries, w.deliveryId);
          FinalizeEffect(s, mid, r.workerId, w, result.value, t, turn.jitter);
        }
      }
    }
  }

  lemma FairTurnFacts(turn: Turn)
    requires FairTurn(turn)
    ensures 0.0 <= turn.jitter <= 1.0
    ensures turn.timing.startedAt <= turn.timing.finishedAt && turn.timing.requestTimestamp >= 0
  {
  }

  lemma IdsAfterClaim(db: DB, mid: DB, d: Id, r: Reservation, claim: ClaimOutcome, bound: Id)
    requires IdsBelow(db, bound) && ClaimChanges(db, mid, d, r, claim)
    requires r.token == bound && r.attemptId == bound + 1
    ensures IdsBelow(mid, bound + 2)
  {
    hide RewritesDelivery, NamesItsAttempt, SnapshotAgrees;
  }
}
