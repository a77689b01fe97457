/** The reliability contract over whole runs (README.md, docs/reliability-contract.md): what holds
    in every state that any interleaving of the protocol's steps can reach. */
module Contract {
  import opened Schema
  import opened Retry
  import opened Transport
  import opened Transactions
  import opened Invariants
  import opened WorkerProofs
  import opened ServiceProofs
  import opened Protocol

  ghost predicate Runs(s: Settings, sys: System, actions: seq<Action>)
    decreases |actions|
  {
    actions == []
    || (Enabled(s, sys, actions[0]) && Runs(s, Next(s, sys, actions[0]), actions[1..]))
  }

  ghost function After(s: Settings, sys: System, actions: seq<Action>): System
    requires Runs(s, sys, actions)
    decreases |actions|
  {
    if actions == [] then sys else After(s, Next(s, sys, actions[0]), actions[1..])
  }

  ghost predicate Reachable(s: Settings, sys: System) {
    exists actions :: Runs(s, START, actions) && After(s, START, actions) == sys
  }

  /** A run keeps the invariant, and nothing that `Evolves` protects is undone along it. */
  lemma {:induction false} RunKeepsSysInv(s: Settings, sys: System, actions: seq<Action>)
    requires s.Valid() && SysInv(s, sys) && Runs(s, sys, actions)
    ensures var end := After(s, sys, actions);
            SysInv(s, end) && sys.used <= end.used && Evolves(sys.used, sys.db, end.db)
    decreases |actions|
  {
    hide SysInv, Evolves, Enabled, Next;
    if actions == [] {
      EvolvesReflexively(sys.used, sys.db);
    } else {
      var mid := Next(s, sys, actions[0]);
      StepKeepsSysInv(s, sys, actions[0]);
      RunKeepsSysInv(s, mid, actions[1..]);
      InvOfSys(s, sys);
      EvolvesTransitively(sys, mid.used, mid.db, After(s, sys, actions).db);
    }
  }

  /** A run can be prolonged by any enabled step. */
  lemma {:induction false} RunsOn(s: Settings, sys: System, actions: seq<Action>, a: Action)
    requires Runs(s, sys, actions) && Enabled(s, After(s, sys, actions), a)
    ensures Runs(s, sys, actions + [a])
    ensures After(s, sys, actions + [a]) == Next(s, After(s, sys, actions), a)
    decreases |actions|
  {
    hide Enabled, Next;
    if actions == [] {
      var next := Next(s, sys, a);
      assert (actions + [a])[1..] == [] && Runs(s, next, []) && After(s, next, []) == next;
    } else {
      assert (actions + [a])[1..] == actions[1..] + [a];
      RunsOn(s, Next(s, sys, actions[0]), actions[1..], a);
    }
  }

  lemma ReachableOn(s: Settings, sys: System, a: Action)
    requires Reachable(s, sys) && Enabled(s, sys, a)
    ensures Reachable(s, Next(s, sys, a))
  {
    hide Enabled, Next, Runs, After;
    var actions :| Runs(s, START, actions) && After(s, START, actions) == sys;
    RunsOn(s, START, actions, a);
  }

  lemma StartFits(s: Settings)
    ensures SysInv(s, START)
  {
  }

  lemma ReachableFits(s: Settings, sys: System)
    requires s.Valid() && Reachable(s, sys)
    ensures SysInv(s, sys)
  {
    hide SysInv, Runs, After, Evolves;
    StartFits(s);
    var actions :| Runs(s, START, actions) && After(s, START, actions) == sys;
    RunKeepsSysInv(s, START, actions);
  }

  // ----- no step ever raises -----

  /** In every reachable state every enabled transaction returns normally: the missing-evidence
      errors, the missing initial delivery, the forbidden transitions and every constraint error
      are unreachable. The one exception is a replay whose event was purged between its read and
      its decision, and it raises exactly then. */
  lemma NothingRaises(s: Settings, sys: System, a: Action)
    requires s.Valid() && Reachable(s, sys) && Enabled(s, sys, a)
    ensures match a
            case Publish(q, key, m) => !PublishTx(sys.db, q, key, m).1.PublishRaised?
            case Claim(d, r, t, locked) => !ClaimTx(s, sys.db, d, r).1.ClaimRaised?
            case Finalize(h, result, now, jitter) =>
              !FinalizeTx(s, sys.db, h.workerId, h.webhook, result, now, jitter).1.FinalizeRaised?
            case DecideReplay(call, newId, now, databaseNow) =>
              var outcome := ReplayTx(sys.db, call, newId, now, databaseNow).1;
              && (outcome.ReplayRaised? <==> call.seen.eventId !in sys.db.events)
              && (outcome.ReplayRaised? ==> outcome.fault == EventVanished)
            case _ => true
  {
    hide Reachable, SysInv, Inv, PublishTx, ClaimTx, FinalizeTx, ReplayTx, Evolves, CallFits;
    ReachableFits(s, sys);
    match a
    case Publish(q, key, m) => PublishStep(s, sys, q, key, m);
    case Claim(d, r, t, locked) =>
      ClaimNeverRaises(s, sys, d, r, t, locked);
    case Finalize(h, result, now, jitter) => FinalizeStep(s, sys, h, result, now, jitter);
    case DecideReplay(call, newId, now, databaseNow) =>
      ReplayStep(s, sys, call, newId, now, databaseNow);
      InvOfSys(s, sys);
      ReplayKeepsInv(s, sys.db, call, newId, now, databaseNow);
    case _ =>
  }

  lemma ClaimNeverRaises(
    s: Settings, sys: System, d: Id, r: Reservation, t: Time, locked: set<Id>)
    requires s.Valid() && SysInv(s, sys) && Enabled(s, sys, Claim(d, r, t, locked))
    ensures !ClaimTx(s, sys.db, d, r).1.ClaimRaised?
  {
    hide SysInv, Inv, ClaimTx, UsedCovers;
    InvOfSys(s, sys);
    assert FreshReservation(sys.db, r) by {
      FreshIds(s, sys, r);
    }
    ClaimKeepsInv(s, sys.db, d, r, t, locked);
  }

  // ----- the delivery lifecycle -----

  /** The transition map holds of every step: a delivery starts pending, and its status then stays or
      moves along the map. Only a claim and an accepted result of this delivery write it. A claim
      leaves it in progress exactly when it reserved an attempt, also when it was in progress before,
      and an accepted result always moves it on. */
  lemma StatusFollowsTheMap(s: Settings, sys: System, a: Action, d: Id)
    requires s.Valid() && Reachable(s, sys) && Enabled(s, sys, a)
    requires d in Next(s, sys, a).db.deliveries
    ensures var to := Next(s, sys, a).db.deliveries[d].status;
            && (d !in sys.db.deliveries ==> to == Pending)
            && (d in sys.db.deliveries ==>
                  var from := sys.db.deliveries[d].status;
                  && (to == from || to in AllowedTransitions(from))
                  && (a.Claim? && a.d == d ==>
                        if ClaimTx(s, sys.db, d, a.r).1.Claimed? then to == InProgress
                        else to == DeadLettered)
                  && (a.Finalize? && a.holder.webhook.deliveryId == d && AcceptedBy(s, sys, a) ==>
                        from == InProgress && to != InProgress)
                  && (!(a.Claim? && a.d == d)
                      && !(a.Finalize? && a.holder.webhook.deliveryId == d && AcceptedBy(s, sys, a))
                      ==> to == from))
  {
    hide Reachable, SysInv, Inv, PublishTx, ReplayTx, ClaimTx, FinalizeTx, Evolves, CallFits,
         ResolvesOnly, NamesItsAttempt, SnapshotAgrees, WellFormed, ReplayBegin, RemoveEvents;
    ReachableFits(s, sys);
    InvOfSys(s, sys);
    match a
    case Publish(q, key, m) => PublishStep(s, sys, q, key, m);
    case DecideReplay(call, newId, now, databaseNow) =>
      ReplayStep(s, sys, call, newId, now, databaseNow);
    case Claim(x, r, t, locked) => ClaimStep(s, sys, x, r, t, locked);
    case Finalize(h, result, now, jitter) =>
      FinalizeStep(s, sys, h, result, now, jitter);
      if AcceptedBy(s, sys, a) {
        FinalizeEffect(s, sys.db, h.workerId, h.webhook, result, now, jitter);
        AcceptedWasInProgress(s, sys.db, h, result, now, jitter);
      }
    case Purge(gone) => RemovalKeepsRows(sys.db, gone, d);
    case _ =>
  }

  predicate AcceptedBy(s: Settings, sys: System, a: Action)
    requires a.Finalize? && a.holder.webhook.attemptNumber >= 1
  {
    FinalizeTx(s, sys.db, a.holder.workerId, a.holder.webhook, a.result, a.finalizedAt, a.jitter).1
      == Finalized
  }

  lemma AcceptedWasInProgress(
    s: Settings, db: DB, h: Holding, result: AttemptResult, now: Time, jitter: real)
    requires h.webhook.attemptNumber >= 1
    requires FinalizeTx(s, db, h.workerId, h.webhook, result, now, jitter).1 == Finalized
    ensures h.webhook.deliveryId in db.deliveries
    ensures db.deliveries[h.webhook.deliveryId].status == InProgress
  {
    hide Constraints, Settle, RetryDelay, TargetStatus, Truncate;
  }

  lemma RemovalKeepsRows(db: DB, gone: set<Id>, d: Id)
    requires d in RemoveEvents(db, gone).deliveries
    ensures d in db.deliveries && RemoveEvents(db, gone).deliveries[d] == db.deliveries[d]
  {
  }

  // ----- the ledger -----

  predicate IsSuccess(a: Attempt) {
    a.status == Completed && a.disposition == Some(Succeeded)
  }

  /** The attempts of a delivery are numbered exactly 1..attempt_count, once each, within the
      budget. One is reserved iff the delivery is in progress; it is then the last and carries the
      row's lease token. The delivery is delivered iff its last attempt succeeded, and no attempt
      follows a success. */
  lemma LedgerIsExact(s: Settings, sys: System, d: Id)
    requires s.Valid() && Reachable(s, sys) && d in sys.db.deliveries
    ensures sys.db.deliveries[d].attemptCount <= s.policy.maxAttempts
    ensures forall n :: HasNumber(sys.db.attempts, d, n)
                        <==> 1 <= n <= sys.db.deliveries[d].attemptCount
    ensures forall a, b | a in sys.db.attempts && b in sys.db.attempts
                          && sys.db.attempts[a].deliveryId == sys.db.attempts[b].deliveryId == d
                          && sys.db.attempts[a].number == sys.db.attempts[b].number :: a == b
    ensures forall a | a in sys.db.attempts && sys.db.attempts[a].deliveryId == d ::
              var row, x := sys.db.deliveries[d], sys.db.attempts[a];
              && (x.status == Reserved <==>
                    row.status == InProgress && x.number == row.attemptCount)
              && (x.status == Reserved ==> row.leaseToken == Some(x.leaseToken))
              && (IsSuccess(x) <==> row.status == Delivered && x.number == row.attemptCount)
  {
    hide Reachable, SysInv, Inv, LedgerOf, UniqueAttempts, HasNumber, IsSuccess;
    ReachableFits(s, sys);
    InvOfSys(s, sys);
    RowFacts(s, sys.db, d);
    LedgerIsExactFor(s, sys.db, d);
  }

  lemma LedgerIsExactFor(s: Settings, db: DB, d: Id)
    requires d in db.deliveries && LedgerOf(s, db, d) && UniqueAttempts(db.attempts)
    ensures db.deliveries[d].attemptCount <= s.policy.maxAttempts
    ensures forall n :: HasNumber(db.attempts, d, n) <==> 1 <= n <= db.deliveries[d].attemptCount
    ensures forall a, b | a in db.attempts && b in db.attempts
                          && db.attempts[a].deliveryId == db.attempts[b].deliveryId == d
                          && db.attempts[a].number == db.attempts[b].number :: a == b
    ensures forall a | a in db.attempts && db.attempts[a].deliveryId == d ::
              var row, x := db.deliveries[d], db.attempts[a];
              && (x.status == Reserved <==>
                    row.status == InProgress && x.number == row.attemptCount)
              && (x.status == Reserved ==> row.leaseToken == Some(x.leaseToken))
              && (IsSuccess(x) <==> row.status == Delivered && x.number == row.attemptCount)
  {
    hide HasNumber, UniqueAttempts;
    forall n | HasNumber(db.attempts, d, n) ensures 1 <= n <= db.deliveries[d].attemptCount {
      NumberIsWithinCount(s, db, d, n);
    }
    forall a, b | a in db.attempts && b in db.attempts
                  && db.attempts[a].deliveryId == db.attempts[b].deliveryId == d
                  && db.attempts[a].number == db.attempts[b].number
      ensures a == b
    {
      NumberIsUnique(db, a, b);
    }
  }

  lemma NumberIsWithinCount(s: Settings, db: DB, d: Id, n: int)
    requires d in db.deliveries && LedgerOf(s, db, d) && HasNumber(db.attempts, d, n)
    ensures 1 <= n <= db.deliveries[d].attemptCount
  {
  }

  // ----- at-least-once delivery -----

  lemma LogFacts(s: Settings, sys: System, i: int)
    requires SysInv(s, sys) && 0 <= i < |sys.log|
    ensures sys.log[i].webhook in sys.issued && SnapshotFits(s, sys.db, sys.log[i].webhook)
    ensures sys.log[i].answer.Some? ==> WellFormed(s, sys.log[i].answer.value)
    ensures forall j | 0 <= j < |sys.log| && j != i ::
              !SameClaim(sys.log[j].webhook, sys.log[i].webhook)
  {
    hide Inv, UsedCovers, HoldingsFit, RecordsFit, CallsFit, SnapshotFits, WasIssued, SameClaim;
    forall j | 0 <= j < |sys.log| && j != i
      ensures !SameClaim(sys.log[j].webhook, sys.log[i].webhook)
    {
      assert sys.log[j].webhook != sys.log[i].webhook;
    }
  }

  /** The logged answer behind a completed attempt. */
  lemma CompletedFacts(s: Settings, sys: System, a: Id) returns (i: int)
    requires SysInv(s, sys) && a in sys.db.attempts && sys.db.attempts[a].status == Completed
    ensures 0 <= i < |sys.log| && sys.log[i].webhook.attemptId == a
    ensures sys.log[i].answer.Some? && Records(sys.db.attempts[a], sys.log[i].answer.value)
  {
    hide Inv, UsedCovers, HoldingsFit, LogFits, CallsFit, SnapshotsFit;
    assert RecordedFromLog(sys.log, a, sys.db.attempts[a]);
    i :| 0 <= i < |sys.log| && sys.log[i].webhook.attemptId == a
         && sys.log[i].answer.Some? && Records(sys.db.attempts[a], sys.log[i].answer.value);
  }

  /** Everything the log says about one request: it was reserved before it was sent, its body is
      the immutable event body, no other request shares its attempt number, and a 2xx answer
      leaves its attempt succeeded, indeterminate or still reserved. A recorded success is backed
      by a 2xx answer. */
  lemma EverySendIsReserved(s: Settings, sys: System, i: int)
    requires s.Valid() && Reachable(s, sys) && 0 <= i < |sys.log|
    ensures var w := sys.log[i].webhook;
            && w in sys.issued && 1 <= w.attemptNumber <= s.policy.maxAttempts
            && (forall j | 0 <= j < |sys.log| && j != i :: !SameClaim(sys.log[j].webhook, w))
            && (w.deliveryId in sys.db.deliveries ==>
                  && w.attemptId in sys.db.attempts
                  && sys.db.attempts[w.attemptId].deliveryId == w.deliveryId
                  && sys.db.attempts[w.attemptId].number == w.attemptNumber
                  && w.eventId in sys.db.events && w.body == sys.db.events[w.eventId].body
                  && w.eventId == sys.db.deliveries[w.deliveryId].eventId
                  && var x := sys.db.attempts[w.attemptId];
                     (sys.log[i].answer.Some? && Accepted(sys.log[i].answer.value) ==>
                       IsSuccess(x) || x.status == Indeterminate || x.status == Reserved)
                     && (IsSuccess(x) ==>
                           sys.log[i].answer.Some? && Accepted(sys.log[i].answer.value)))
  {
    hide Reachable, SysInv, Runs;
    ReachableFits(s, sys);
    LogFacts(s, sys, i);
    var a := sys.log[i].webhook.attemptId;
    if a in sys.db.attempts && sys.db.attempts[a].status == Completed {
      var j := CompletedFacts(s, sys, a);
      LogFacts(s, sys, j);
    }
  }

  /** Of all requests of one delivery that were answered 2xx, at most one has its attempt recorded
      as succeeded, and every other one is indeterminate or the single reserved attempt; once the
      delivery is delivered, every other one is indeterminate. */
  lemma AtMostOneRecordedSuccess(s: Settings, sys: System, i: int, j: int)
    requires s.Valid() && Reachable(s, sys) && 0 <= i < |sys.log| && 0 <= j < |sys.log| && i != j
    requires sys.log[i].webhook.deliveryId == sys.log[j].webhook.deliveryId
    requires sys.log[i].webhook.deliveryId in sys.db.deliveries
    requires sys.log[i].answer.Some? && Accepted(sys.log[i].answer.value)
    requires sys.log[j].answer.Some? && Accepted(sys.log[j].answer.value)
    ensures var d := sys.log[i].webhook.deliveryId;
            var a, b := sys.log[i].webhook.attemptId, sys.log[j].webhook.attemptId;
            && a in sys.db.attempts && b in sys.db.attempts && a != b
            && (sys.db.attempts[a].status == Indeterminate
                || sys.db.attempts[b].status == Indeterminate)
            && (sys.db.deliveries[d].status == Delivered ==>
                  IsSuccess(sys.db.attempts[b]) || sys.db.attempts[b].status == Indeterminate)
  {
    hide Reachable, LedgerOf, NamesItsAttempt;
    EverySendIsReserved(s, sys, i);
    EverySendIsReserved(s, sys, j);
    LedgerIsExact(s, sys, sys.log[i].webhook.deliveryId);
    assert !SameClaim(sys.log[j].webhook, sys.log[i].webhook);
  }

  /** A delivered delivery was really accepted: some logged request of it was answered 2xx and
      its attempt, the last one, is the recorded success. */
  lemma DeliveredMeansAccepted(s: Settings, sys: System, d: Id) returns (i: int)
    requires s.Valid() && Reachable(s, sys)
    requires d in sys.db.deliveries && sys.db.deliveries[d].status == Delivered
    ensures 0 <= i < |sys.log| && sys.log[i].webhook.deliveryId == d
    ensures sys.log[i].answer.Some? && Accepted(sys.log[i].answer.value)
    ensures sys.log[i].webhook.attemptNumber == sys.db.deliveries[d].attemptCount
  {
    hide Reachable, SysInv, Inv, LedgerOf;
    ReachableFits(s, sys);
    InvOfSys(s, sys);
    RowFacts(s, sys.db, d);
    var n := sys.db.deliveries[d].attemptCount;
    LedgerIsExact(s, sys, d);
    assert HasNumber(sys.db.attempts, d, n);
    var a :| a in sys.db.attempts && sys.db.attempts[a].deliveryId == d
             && sys.db.attempts[a].number == n;
    i := CompletedFacts(s, sys, a);
    LogFacts(s, sys, i);
  }

  /** In every reachable state a completed attempt was judged by its status: a success iff 2xx, to be
      retried iff there was no answer, or one of 408, 425, 429 and 500..599, final otherwise. */
  lemma AttemptsAreJudgedByStatus(s: Settings, sys: System, a: Id)
    requires s.Valid() && Reachable(s, sys) && a in sys.db.attempts
    requires sys.db.attempts[a].status == Completed
    ensures var x := sys.db.attempts[a];
            x.disposition
            == Some(if x.httpStatus.None? then Disposition.Retry
                    else if 200 <= x.httpStatus.value <= 299 then Succeeded
                    else if x.httpStatus.value == 408 || x.httpStatus.value == 425
                            || x.httpStatus.value == 429 || 500 <= x.httpStatus.value <= 599
                    then Disposition.Retry else TerminalFailure)
  {
    hide Reachable, SysInv;
    ReachableFits(s, sys);
    var i := CompletedFacts(s, sys, a);
    LogFacts(s, sys, i);
  }

  /** What the schema promises, on the columns, in every reachable state: keys are unique, an event has
      at most one active delivery at an endpoint, an attempt number and a lease token occur once, at
      most one attempt of a delivery is outstanding, and every reference leads to a row. */
  lemma SchemaHolds(s: Settings, sys: System)
    requires s.Valid() && Reachable(s, sys)
    ensures forall e, f | e in sys.db.events && f in sys.db.events
                          && sys.db.events[e].key == sys.db.events[f].key :: e == f
    ensures forall d, c | d in sys.db.deliveries && c in sys.db.deliveries
                          && sys.db.deliveries[d].eventId == sys.db.deliveries[c].eventId
                          && sys.db.deliveries[d].endpointId == sys.db.deliveries[c].endpointId
                          && sys.db.deliveries[d].status !in {Delivered, DeadLettered}
                          && sys.db.deliveries[c].status !in {Delivered, DeadLettered} :: d == c
    ensures forall a, b | a in sys.db.attempts && b in sys.db.attempts
                          && sys.db.attempts[a].deliveryId == sys.db.attempts[b].deliveryId
                          && (|| sys.db.attempts[a].number == sys.db.attempts[b].number
                              || sys.db.attempts[a].leaseToken == sys.db.attempts[b].leaseToken
                              || sys.db.attempts[a].status == sys.db.attempts[b].status == Reserved)
                          :: a == b
    ensures forall d | d in sys.db.deliveries ::
              && sys.db.deliveries[d].eventId in sys.db.events
              && sys.db.deliveries[d].endpointId in sys.db.endpoints
              && (sys.db.deliveries[d].replayedFrom.Some? ==>
                    sys.db.deliveries[d].replayedFrom.value in sys.db.deliveries)
    ensures forall a | a in sys.db.attempts :: sys.db.attempts[a].deliveryId in sys.db.deliveries
  {
    hide Reachable, SysInv, Inv;
    ReachableFits(s, sys);
    InvOfSys(s, sys);
    InvGivesConstraints(s, sys.db);
    hide RowChecks;
    forall d, c | d in sys.db.deliveries && c in sys.db.deliveries && d != c
      ensures !DeliveriesClash(sys.db.deliveries[d], sys.db.deliveries[c])
    {
    }
    forall a, b | a in sys.db.attempts && b in sys.db.attempts && a != b
      ensures !AttemptsClash(sys.db.attempts[a], sys.db.attempts[b])
    {
    }
  }

  /** What the schema promises of single rows, on the columns, in every reachable state: the lease
      columns go together and exactly with in_progress, a delivered row has its time, replay columns go
      together, and an attempt has exactly the columns of its status. */
  lemma ChecksHold(s: Settings, sys: System)
    requires s.Valid() && Reachable(s, sys)
    ensures forall e | e in sys.db.events ::
              sys.db.events[e].key != "" && sys.db.events[e].eventType != ""
    ensures forall d | d in sys.db.deliveries ::
              var row := sys.db.deliveries[d];
              && row.generation >= 0 && row.attemptCount >= 0
              && row.leaseOwner.Some? == (row.status == InProgress)
              && row.leaseToken.Some? == (row.status == InProgress)
              && row.leaseExpiresAt.Some? == (row.status == InProgress)
              && row.deliveredAt.Some? == (row.status == Delivered)
              && row.nextAttemptAt.Some? == (row.status == Pending || row.status == RetryWait)
              && row.replayedFrom.Some? == row.replayKey.Some? == (row.generation > 0)
              && row.replayKey != Some("")
    ensures forall a | a in sys.db.attempts ::
              var x, done := sys.db.attempts[a], sys.db.attempts[a].status == Completed;
              && x.number >= 1
              && x.disposition.Some? == x.durationMs.Some? == x.requestTimestamp.Some? == done
              && x.startedAt.Some? == x.finishedAt.Some? == done
              && x.resolvedAt.Some? == (x.status != Reserved)
              && (x.status == Indeterminate ==> x.errorType.Some?)
              && (x.status == Reserved ==> x.errorType.None? && x.errorMessage.None?)
              && (!done ==> x.httpStatus.None? && x.excerpt.None? && x.retryScheduledFor.None?)
              && (x.httpStatus.Some? ==> 100 <= x.httpStatus.value <= 599)
              && (done ==> x.durationMs.value >= 0 && x.requestTimestamp.value >= 0
                           && x.startedAt.value <= x.finishedAt.value)
  {
    hide Reachable, SysInv, Inv;
    ReachableFits(s, sys);
    InvOfSys(s, sys);
    InvGivesConstraints(s, sys.db);
    hide UniqueEvents, UniqueDeliveries, UniqueAttempts, ForeignKeys, LedgerOf;
    forall d | d in sys.db.deliveries
      ensures RowFits(s, sys.db.deliveries[d]) && DeliveryChecks(sys.db.deliveries[d])
      ensures sys.db.deliveries[d].replayedFrom.None? <==> sys.db.deliveries[d].generation == 0
    {
      RowFacts(s, sys.db, d);
      GenerationIsReplay(s, sys.db, d);
    }
  }

  lemma GenerationIsReplay(s: Settings, db: DB, d: Id)
    requires Inv(s, db) && d in db.deliveries
    ensures db.deliveries[d].replayedFrom.None? <==> db.deliveries[d].generation == 0
  {
    hide Constraints, Ledger, HasInitial;
    assert LineageOf(db, d);
  }

  // ----- fencing -----

  /** A resolved attempt keeps its evidence, and a terminal delivery its whole row, in every
      continuation (until retention removes their event). */
  lemma ResolvedForever(s: Settings, sys: System, actions: seq<Action>, a: Id, d: Id)
    requires s.Valid() && Reachable(s, sys) && Runs(s, sys, actions)
    ensures var end := After(s, sys, actions);
            && (a in sys.db.attempts && a in end.db.attempts
                && sys.db.attempts[a].status != Reserved ==>
                  end.db.attempts[a] == sys.db.attempts[a])
            && (d in sys.db.deliveries && d in end.db.deliveries
                && !Active(sys.db.deliveries[d].status) ==>
                  end.db.deliveries[d] == sys.db.deliveries[d])
  {
    hide Reachable, SysInv, Inv, Runs, After, UsedCovers, Evolves, ForeignKeys;
    ReachableFits(s, sys);
    InvOfSys(s, sys);
    RunKeepsSysInv(s, sys, actions);
    var end := After(s, sys, actions);
    if a in sys.db.attempts && a in end.db.attempts {
      AttemptEvolved(sys, end.db, a);
    }
    if d in sys.db.deliveries && d in end.db.deliveries {
      RowEvolved(sys, end.db, d);
    }
  }

  /** Once an attempt is resolved, no result for it is accepted in any continuation: `finalize`
      answers False and leaves the whole database unchanged, whatever the clock, the jitter, the
      result and the worker's id. */
  lemma StaleResultsAreIgnored(
    s: Settings, sys: System, actions: seq<Action>, h: Holding, result: AttemptResult, now: Time,
    jitter: real)
    requires s.Valid() && Reachable(s, sys) && Runs(s, sys, actions)
    requires h.webhook in sys.issued
    requires h.webhook.attemptId in sys.db.attempts ==>
               sys.db.attempts[h.webhook.attemptId].status != Reserved
    requires Enabled(s, After(s, sys, actions), Finalize(h, result, now, jitter))
    ensures var end := After(s, sys, actions);
            && FinalizeTx(s, end.db, h.workerId, h.webhook, result, now, jitter) == (end.db, Stale)
            && Next(s, end, Finalize(h, result, now, jitter)) == end
  {
    hide Reachable, SysInv, Inv, Runs, After, FinalizeTx, Ledger, Lineage, WellFormed;
    var end := After(s, sys, actions);
    ReachableFits(s, sys);
    InvOfSys(s, sys);
    RunKeepsSysInv(s, sys, actions);
    IssuedIsUsed(s, sys, h.webhook);
    FinalizeStep(s, end, h, result, now, jitter);
    InvOfSys(s, end);
    FinalizeKeepsInv(s, end.db, h.workerId, h.webhook, result, now, jitter);
  }

  lemma IssuedIsUsed(s: Settings, sys: System, w: Webhook)
    requires SysInv(s, sys) && w in sys.issued
    ensures w.attemptId in sys.used
  {
    hide Inv, SnapshotsFit, HoldingsFit, LogFits, RecordsFit, CallsFit;
  }

  /** A result is accepted exactly when its attempt is still reserved and the lease is held under
      this worker's id; expiry time plays no part. */
  lemma AcceptedIffStillReserved(
    s: Settings, sys: System, h: Holding, result: AttemptResult, now: Time, jitter: real)
    requires s.Valid() && Reachable(s, sys)
    requires Enabled(s, sys, Finalize(h, result, now, jitter))
    ensures FinalizeTx(s, sys.db, h.workerId, h.webhook, result, now, jitter).1 == Finalized
            <==> && h.webhook.attemptId in sys.db.attempts
                 && sys.db.attempts[h.webhook.attemptId].status == Reserved
                 && h.webhook.deliveryId in sys.db.deliveries
                 && sys.db.deliveries[h.webhook.deliveryId].leaseOwner
                    == Some(Truncate(h.workerId, 160))
  {
    hide Reachable, SysInv, Inv, FinalizeTx, WellFormed, Truncate;
    ReachableFits(s, sys);
    FinalizeStep(s, sys, h, result, now, jitter);
    InvOfSys(s, sys);
    FinalizeKeepsInv(s, sys.db, h.workerId, h.webhook, result, now, jitter);
  }

  /** A request can only be sent while its attempt is reserved or has expired; it is never sent
      again, and never sent for an attempt that already has an outcome. */
  lemma SendIsFirst(s: Settings, sys: System, h: Holding, answer: Option<AttemptResult>)
    requires s.Valid() && Reachable(s, sys) && Enabled(s, sys, Send(h, answer))
    ensures !Sent(sys.log, h.webhook)
    ensures h.webhook.deliveryId in sys.db.deliveries ==>
              && h.webhook.attemptId in sys.db.attempts
              && sys.db.attempts[h.webhook.attemptId].status != Completed
  {
    hide Reachable, SysInv, SnapshotFits;
    ReachableFits(s, sys);
    ReadyFacts(s, sys, h);
    var a := h.webhook.attemptId;
    if a in sys.db.attempts && sys.db.attempts[a].status == Completed {
      var j := CompletedFacts(s, sys, a);
      LogFacts(s, sys, j);
      SameAttemptSameSnapshot(s, sys, sys.log[j].webhook, h.webhook);
    }
  }

  lemma ReadyFacts(s: Settings, sys: System, h: Holding)
    requires SysInv(s, sys) && h in sys.ready
    ensures h.webhook in sys.issued && !Sent(sys.log, h.webhook)
    ensures NamesItsAttempt(sys.db, h.webhook)
  {
    hide Inv, UsedCovers, LogFits, RecordsFit, CallsFit, NamesItsAttempt, SnapshotAgrees, Sent;
    assert SnapshotFits(s, sys.db, h.webhook);
  }

  lemma SameAttemptSameSnapshot(s: Settings, sys: System, w1: Webhook, w2: Webhook)
    requires SysInv(s, sys) && w1 in sys.issued && w2 in sys.issued && SameClaim(w1, w2)
    ensures w1 == w2
  {
    hide Inv, UsedCovers, HoldingsFit, LogFits, RecordsFit, CallsFit, SnapshotFits, SameClaim;
  }
}
