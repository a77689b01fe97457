/** Retention selects its events without a lock and deletes them in a later statement
    (backend/src/eventharbor/maintenance.py): what a deletion can still take by then. */
module LatePurge {
  import opened Schema
  import opened Retry
  import opened Transport
  import opened Transactions
  import opened Invariants
  import opened WorkerProofs
  import opened ServiceProofs
  import opened Protocol
  import opened Contract
  import opened Settling
  import opened Effects
  import Retention

  /** The delivery belongs to a selected event, is active, and was created by a replay after the
      state `before`, in which the events were selected. */
  predicate LateReplay(before: System, db: DB, gone: set<Id>, d: Id) {
    && d in db.deliveries && db.deliveries[d].eventId in gone && Active(db.deliveries[d].status)
    && d !in before.used && db.deliveries[d].replayedFrom.Some?
  }

  /** Retention selects, and then the other transactions go on. */
  ghost predicate SelectedThen(s: Settings, sys: System, gone: set<Id>, actions: seq<Action>) {
    && s.Valid() && Reachable(s, sys) && Enabled(s, sys, SelectExpired(gone))
    && Runs(s, Next(s, sys, SelectExpired(gone)), actions)
  }

  ghost function StateThen(s: Settings, sys: System, gone: set<Id>, actions: seq<Action>): System
    requires SelectedThen(s, sys, gone, actions)
  {
    After(s, Next(s, sys, SelectExpired(gone)), actions)
  }

  lemma ThenEvolves(s: Settings, sys: System, gone: set<Id>, actions: seq<Action>)
    requires SelectedThen(s, sys, gone, actions)
    ensures var end := StateThen(s, sys, gone, actions);
            && SysInv(s, sys) && SysInv(s, end) && Evolves(sys.used, sys.db, end.db)
            && gone <= sys.db.events.Keys && (forall e | e in gone :: AllTerminal(sys.db, e))
            && gone in end.chosen
  {
    hide Reachable, SysInv, Evolves, Runs, After;
    ReachableFits(s, sys);
    StepKeepsSysInv(s, sys, SelectExpired(gone));
    var mid := Next(s, sys, SelectExpired(gone));
    RunKeepsSysInv(s, mid, actions);
    ChosenStay(s, mid, actions);
  }

  lemma {:induction false} ChosenStay(s: Settings, sys: System, actions: seq<Action>)
    requires Runs(s, sys, actions)
    ensures sys.chosen <= After(s, sys, actions).chosen
    decreases |actions|
  {
    hide Enabled, Next;
    if actions != [] {
      ChosenOfNext(s, sys, actions[0]);
      ChosenStay(s, Next(s, sys, actions[0]), actions[1..]);
    }
  }

  lemma ChosenOfNext(s: Settings, sys: System, a: Action)
    requires Enabled(s, sys, a)
    ensures sys.chosen <= Next(s, sys, a).chosen
  {
    hide Enabled, PublishTx, ReplayTx, ClaimTx, FinalizeTx, RemoveEvents, ReplayBegin;
  }

  /** An active delivery of a selected event can only be one that a replay made since. */
  lemma OnlyReplaysAreLate(s: Settings, before: System, db: DB, gone: set<Id>, d: Id)
    requires SysInv(s, before) && Inv(s, db) && Evolves(before.used, before.db, db)
    requires gone <= before.db.events.Keys && forall e | e in gone :: AllTerminal(before.db, e)
    requires d in db.deliveries && db.deliveries[d].eventId in gone
    requires Active(db.deliveries[d].status)
    ensures LateReplay(before, db, gone, d)
  {
    hide SysInv, Inv, UsedCovers, LedgerOf, RowChecks, UniqueAttempts;
    InvOfSys(s, before);
    RowFacts(s, db, d);
    if d in before.used { KnownStaysTerminal(before, db, gone, d); }
    var e := db.deliveries[d].eventId;
    var first := InitialExists(s, before.db, e);
    FirstStays(s, before, db, e, first);
    if db.deliveries[d].replayedFrom.None? {
      OnlyFirstIsNotReplayed(s, db, d, first);
    }
  }

  lemma KnownStaysTerminal(before: System, db: DB, gone: set<Id>, d: Id)
    requires Evolves(before.used, before.db, db) && forall e | e in gone :: AllTerminal(before.db, e)
    requires d in before.used && d in db.deliveries && db.deliveries[d].eventId in gone
    ensures !Active(db.deliveries[d].status)
  {
    assert DeliveryEvolves(before.db.deliveries[d], db.deliveries[d]);
    assert AllTerminal(before.db, before.db.deliveries[d].eventId);
  }

  lemma FirstStays(s: Settings, before: System, db: DB, e: Id, first: Id)
    requires UsedCovers(before) && Inv(s, db) && Evolves(before.used, before.db, db)
    requires e in before.db.events && e in db.events
    requires IsInitial(before.db, e, before.db.events[e].fingerprint.endpointId, first)
    ensures first in before.used && first in db.deliveries
    ensures db.deliveries[first].eventId == e && db.deliveries[first].generation == 0
  {
    hide Inv;
    assert first in before.used;
    assert DeliveryEvolves(before.db.deliveries[first], db.deliveries[first]);
  }

  lemma OnlyFirstIsNotReplayed(s: Settings, db: DB, d: Id, first: Id)
    requires Inv(s, db) && d in db.deliveries && first in db.deliveries
    requires db.deliveries[d].eventId == db.deliveries[first].eventId
    requires db.deliveries[d].replayedFrom.None? && db.deliveries[first].generation == 0
    ensures d == first
  {
    hide RowChecks, UniqueEvents, UniqueAttempts, ForeignKeys, Ledger, HasInitial;
    assert LineageOf(db, d) && LineageOf(db, first);
    var row1, row2 := db.deliveries[d], db.deliveries[first];
    assert d != first ==> !DeliveriesClash(row1, row2);
  }

  /** A late deletion keeps every active delivery exactly when no selected event has got, since it was
      selected, a replay that is still active. Of the events not selected it always keeps everything,
      and the invariant holds again. */
  lemma LatePurgeKeepsActiveIff(s: Settings, sys: System, gone: set<Id>, actions: seq<Action>)
    requires SelectedThen(s, sys, gone, actions)
    ensures var end := StateThen(s, sys, gone, actions);
            && Enabled(s, end, Purge(gone))
            && var db, db' := end.db, Next(s, end, Purge(gone)).db;
               (Inv(s, db')
                && ((forall d | d in db.deliveries && Active(db.deliveries[d].status) ::
                       d in db'.deliveries && db'.deliveries[d] == db.deliveries[d])
                    <==> !(exists d :: LateReplay(sys, db, gone, d)))
                && (forall d | LateReplay(sys, db, gone, d) :: DecidedIn(actions, d))
                && (forall d | d in db.deliveries && db.deliveries[d].eventId !in gone ::
                      d in db'.deliveries && db'.deliveries[d] == db.deliveries[d]))
  {
    hide Reachable, SysInv, Inv, Evolves, Runs, After, SelectedThen;
    var end := StateThen(s, sys, gone, actions);
    ThenEvolves(s, sys, gone, actions);
    SelectedThenIsValid(s, sys, gone, actions);
    InvOfSys(s, end);
    RemovalKeepsInv(s, end.db, gone);
    forall d | d in end.db.deliveries && Active(end.db.deliveries[d].status)
               && end.db.deliveries[d].eventId in gone
      ensures LateReplay(sys, end.db, gone, d)
    {
      OnlyReplaysAreLate(s, sys, end.db, gone, d);
    }
    forall d | LateReplay(sys, end.db, gone, d) ensures DecidedIn(actions, d) {
      LateReplayIsInRun(s, sys, gone, actions, d);
    }
  }

  /** The run holds the decision that created delivery d. */
  predicate DecidedIn(actions: seq<Action>, d: Id) {
    exists i :: 0 <= i < |actions| && actions[i].DecideReplay? && actions[i].newId == d
  }

  lemma LateReplayIsInRun(
    s: Settings, sys: System, gone: set<Id>, actions: seq<Action>, d: Id)
    requires SelectedThen(s, sys, gone, actions)
    requires LateReplay(sys, StateThen(s, sys, gone, actions).db, gone, d)
    ensures DecidedIn(actions, d)
  {
    hide Reachable, SysInv, Evolves, Runs, After;
    ThenEvolves(s, sys, gone, actions);
    StepKeepsSysInv(s, sys, SelectExpired(gone));
    NotUsedNotThere(s, sys, d);
    var i := LateReplayWasDecided(s, Next(s, sys, SelectExpired(gone)), actions, d);
  }

  lemma NotUsedNotThere(s: Settings, sys: System, d: Id)
    requires SysInv(s, sys) && d !in sys.used
    ensures d !in sys.db.deliveries
  {
    hide Inv, SnapshotsFit, HoldingsFit, LogFits, RecordsFit, CallsFit;
  }

  lemma SelectedThenIsValid(s: Settings, sys: System, gone: set<Id>, actions: seq<Action>)
    requires SelectedThen(s, sys, gone, actions)
    ensures s.Valid()
  {
    hide Reachable, Runs, Next;
  }

  /** The transaction that made it is in the run, after the selection. */
  lemma {:induction false} LateReplayWasDecided(
    s: Settings, sys: System, actions: seq<Action>, d: Id) returns (i: nat)
    requires s.Valid() && SysInv(s, sys) && Runs(s, sys, actions) && d !in sys.db.deliveries
    requires d in After(s, sys, actions).db.deliveries
    requires After(s, sys, actions).db.deliveries[d].replayedFrom.Some?
    ensures i < |actions| && actions[i].DecideReplay? && actions[i].newId == d
    decreases |actions|
  {
    hide SysInv, Enabled, Next, Evolves;
    var next := Next(s, sys, actions[0]);
    StepKeepsSysInv(s, sys, actions[0]);
    if d in next.db.deliveries {
      RunKeepsSysInv(s, next, actions[1..]);
      InvOfSys(s, next);
      RowEvolved(next, After(s, sys, actions).db, d);
      NewDeliveryComesFrom(s, sys, actions[0], d);
      i := 0;
    } else {
      var j := LateReplayWasDecided(s, next, actions[1..], d);
      i := j + 1;
    }
  }

  /** Only publish and replay create deliveries, and publish creates no replay. */
  lemma NewDeliveryComesFrom(s: Settings, sys: System, a: Action, d: Id)
    requires s.Valid() && SysInv(s, sys) && Enabled(s, sys, a)
    requires d !in sys.db.deliveries && d in Next(s, sys, a).db.deliveries
    ensures Next(s, sys, a).db.deliveries[d].replayedFrom.Some? ==> a.DecideReplay? && a.newId == d
  {
    hide SysInv, Inv, PublishTx, ReplayTx, ClaimTx, FinalizeTx, Evolves, CallFits, ResolvesOnly,
         NamesItsAttempt, SnapshotAgrees, WellFormed;
    InvOfSys(s, sys);
    match a
    case Publish(q, key, m) => PublishStep(s, sys, q, key, m);
    case DecideReplay(call, newId, now, databaseNow) =>
      ReplayStep(s, sys, call, newId, now, databaseNow);
    case Claim(x, r, t, locked) => ClaimStep(s, sys, x, r, t, locked);
    case Finalize(h, result, now, jitter) =>
      FinalizeStep(s, sys, h, result, now, jitter);
      if FinalizeTx(s, sys.db, h.workerId, h.webhook, result, now, jitter).1 == Finalized {
        FinalizeEffect(s, sys.db, h.workerId, h.webhook, result, now, jitter);
      }
    case _ =>
  }

  // ----- the transactions that a purge interleaves with -----

  predicate PurgesNothing(actions: seq<Action>) {
    forall i | 0 <= i < |actions| :: !actions[i].Purge?
  }

  /** What the retention job assumes of everyone else holds of every run of this protocol. */
  lemma {:induction false} RunIsPolite(s: Settings, sys: System, actions: seq<Action>)
    requires s.Valid() && SysInv(s, sys) && Runs(s, sys, actions) && PurgesNothing(actions)
    ensures Retention.OthersMay(sys.db, After(s, sys, actions).db)
    decreases |actions|
  {
    hide SysInv, Enabled, Next, Evolves;
    if actions == [] {
      Retention.AttemptsHaveDeliveries(s, sys.db) by { InvOfSys(s, sys); }
    } else {
      StepIsPolite(s, sys, actions[0]);
      StepKeepsSysInv(s, sys, actions[0]);
      RunIsPolite(s, Next(s, sys, actions[0]), actions[1..]);
    }
  }

  lemma StepIsPolite(s: Settings, sys: System, a: Action)
    requires s.Valid() && SysInv(s, sys) && Enabled(s, sys, a) && !a.Purge?
    ensures Retention.OthersMay(sys.db, Next(s, sys, a).db)
  {
    EventsStay(s, sys, a);
    hide SysInv, Inv, Next, Enabled, Evolves;
    StepKeepsSysInv(s, sys, a);
    InvOfSys(s, Next(s, sys, a));
    Retention.AttemptsHaveDeliveries(s, Next(s, sys, a).db);
  }

  lemma EventsStay(s: Settings, sys: System, a: Action)
    requires s.Valid() && SysInv(s, sys) && Enabled(s, sys, a) && !a.Purge?
    ensures forall e | e in sys.db.events ::
              e in Next(s, sys, a).db.events && Next(s, sys, a).db.events[e] == sys.db.events[e]
  {
    hide SysInv, Inv, PublishTx, ReplayTx, ClaimTx, FinalizeTx, Evolves, CallFits, ResolvesOnly,
         NamesItsAttempt, SnapshotAgrees, WellFormed, ReplayBegin;
    InvOfSys(s, sys);
    match a
    case Publish(q, key, m) => PublishStep(s, sys, q, key, m);
    case DecideReplay(call, newId, now, databaseNow) =>
      ReplayStep(s, sys, call, newId, now, databaseNow);
    case Claim(x, r, t, locked) => ClaimStep(s, sys, x, r, t, locked);
    case Finalize(h, result, now, jitter) =>
      FinalizeStep(s, sys, h, result, now, jitter);
      if FinalizeTx(s, sys.db, h.workerId, h.webhook, result, now, jitter).1 == Finalized {
        FinalizeEffect(s, sys.db, h.workerId, h.webhook, result, now, jitter);
      }
    case _ =>
  }

  // ----- a run that loses an active delivery -----

  const ENDPOINT := Endpoint("https://receiver.example", "secret", true, 0.0)
  const REQUEST := PublishRequest(0, "order.paid", Some(Data("{}", None)))
  const MINTED := Minted(1, 2, 0.0, 0.0)

  /** One endpoint, one event, and its one delivery, which was never attempted. */
  predicate OneDelivery(sys: System, enabled: bool, status: DeliveryStatus) {
    && sys.db.endpoints.Keys == {0} && sys.db.endpoints[0].enabled == enabled
    && sys.db.events.Keys == {1} && sys.db.deliveries.Keys == {2} && sys.db.attempts == map[]
    && sys.db.deliveries[2].eventId == 1 && sys.db.deliveries[2].endpointId == 0
    && sys.db.deliveries[2].replayedFrom.None? && sys.db.deliveries[2].status == status
    && (status == Pending ==>
          sys.db.deliveries[2].nextAttemptAt == Some(0.0) && sys.db.deliveries[2].leaseToken.None?)
    && (forall id | id in sys.used :: id < 5)
  }

  lemma Published(s: Settings) returns (sys: System)
    requires s.Valid()
    ensures Reachable(s, sys) && OneDelivery(sys, true, Pending) && {0, 1, 2} == sys.used
  {
    hide Reachable, SysInv, Inv, Runs, After, PublishTx, IsSpace, Constraints;
    StartIsReachable(s);
    var add := AddEndpoint(0, ENDPOINT);
    ReachableOn(s, START, add);
    sys := Next(s, START, add);
    var publish := Publish(REQUEST, "key", MINTED);
    KeyIsNotBlank("key");
    ReachableFits(s, sys);
    InvOfSys(s, sys);
    PublishKeepsInv(s, sys.db, REQUEST, "key", MINTED);
    ReachableOn(s, sys, publish);
    sys := Next(s, sys, publish);
  }

  lemma StartIsReachable(s: Settings)
    ensures Reachable(s, START)
  {
    assert Runs(s, START, []) && After(s, START, []) == START;
  }

  lemma KeyIsNotBlank(key: string)
    requires key != [] && key[0] == 'k'
    ensures !Blank(key)
  {
    assert key[0] in key && !IsSpace('k');
  }

  /** Disabling the endpoint dead-letters the delivery without an attempt, and enabling it again leaves
      a dead letter that may be replayed. */
  lemma DeadLettered(s: Settings) returns (sys: System)
    requires s.Valid()
    ensures Reachable(s, sys) && OneDelivery(sys, true, DeliveryStatus.DeadLettered)
  {
    hide Reachable, SysInv, Inv, Runs, After, ClaimTx, Constraints, FreshReservation, Evolves,
         RewritesDelivery, ResolvesOnly, NamesItsAttempt, SnapshotAgrees;
    var published := Published(s);
    var disable := SetEnabled(0, false);
    ReachableOn(s, published, disable);
    var disabled := Next(s, published, disable);
    assert OneDelivery(disabled, false, Pending);
    var r := Reservation("worker", 0.0, 3, 4);
    var claim := Claim(2, r, 0.0, {});
    assert Selected(disabled.db, 0.0, {}, 2);
    ReachableOn(s, disabled, claim);
    ReachableFits(s, disabled);
    InvOfSys(s, disabled);
    assert FreshReservation(disabled.db, r) by { FreshIds(s, disabled, r); }
    ClaimDecidesExactly(s, disabled.db, 2, r, 0.0, {});
    ClaimEffect(s, disabled.db, 2, r, 0.0, {});
    var claimed := Next(s, disabled, claim);
    ClaimRewrites(disabled.db, claimed.db, 2, r, ClaimTx(s, disabled.db, 2, r).1);
    var enable := SetEnabled(0, true);
    ReachableOn(s, claimed, enable);
    sys := Next(s, claimed, enable);
  }

  lemma ClaimRewrites(db: DB, db': DB, d: Id, r: Reservation, outcome: ClaimOutcome)
    requires ClaimChanges(db, db', d, r, outcome) && !outcome.Claimed? && db.attempts == map[]
    ensures db'.endpoints == db.endpoints && db'.events == db.events && db'.attempts == map[]
    ensures d in db.deliveries && d in db'.deliveries
    ensures db'.deliveries == db.deliveries[d := db'.deliveries[d]]
    ensures SamePlace(db.deliveries[d], db'.deliveries[d])
    ensures db'.deliveries[d].status == DeliveryStatus.DeadLettered
  {
    assert forall a :: a !in db'.attempts;
  }

  /** The loss is real: retention selects the event of a dead letter, a replay of it commits, and the
      deletion that follows removes the pending replay. */
  lemma LosingRun(s: Settings)
    returns (sys: System, gone: set<Id>, actions: seq<Action>, d: Id)
    requires s.Valid()
    ensures SelectedThen(s, sys, gone, actions)
    ensures var end := StateThen(s, sys, gone, actions);
            && d in end.db.deliveries && end.db.deliveries[d].status == Pending
            && Enabled(s, end, Purge(gone))
            && d !in Next(s, end, Purge(gone)).db.deliveries
  {
    hide Reachable, SysInv, Inv, Runs, After, ReplayTx, IsSpace, Constraints, Evolves;
    sys := DeadLettered(s);
    gone, d := {1}, 5;
    assert AllTerminal(sys.db, 1);
    assert Enabled(s, sys, SelectExpired(gone));
    var mid := Next(s, sys, SelectExpired(gone));
    var begin := BeginReplay(2, "key");
    KeyIsNotBlank("key");
    var begun := Next(s, mid, begin);
    var call := ReplayCall(2, sys.db.deliveries[2], "key");
    var decide := DecideReplay(call, 5, 0.0, 0.0);
    ReachableOn(s, sys, SelectExpired(gone));
    ReachableOn(s, mid, begin);
    assert call in begun.calls;
    actions := [begin, decide];
    DecidedReplay(s, begun, call);
    TwoSteps(s, mid, begin, decide);
    ThenEvolves(s, sys, gone, actions);
  }

  lemma TwoSteps(s: Settings, sys: System, a: Action, b: Action)
    requires Enabled(s, sys, a) && Enabled(s, Next(s, sys, a), b)
    ensures Runs(s, sys, [a, b]) && After(s, sys, [a, b]) == Next(s, Next(s, sys, a), b)
  {
    hide Enabled, Next;
    assert Runs(s, sys, []) && After(s, sys, []) == sys;
    RunsOn(s, sys, [], a);
    RunsOn(s, sys, [a], b);
    assert [] + [a] == [a] && [a] + [b] == [a, b];
  }

  lemma DecidedReplay(s: Settings, sys: System, call: ReplayCall)
    requires s.Valid() && Reachable(s, sys) && OneDelivery(sys, true, DeliveryStatus.DeadLettered)
    requires call in sys.calls && call.sourceId == 2 && call.seen == sys.db.deliveries[2]
    ensures Enabled(s, sys, DecideReplay(call, 5, 0.0, 0.0))
    ensures var db' := ReplayTx(sys.db, call, 5, 0.0, 0.0).0;
            5 in db'.deliveries && db'.deliveries[5].status == Pending
            && db'.deliveries[5].eventId == 1
  {
    hide Reachable, SysInv, Inv, ReplayTx, Evolves, CallFits;
    ReachableFits(s, sys);
    InvOfSys(s, sys);
    ReplayStep(s, sys, call, 5, 0.0, 0.0);
    assert BlockOf(sys.db, 2).None?;
    ReplayKeepsInv(s, sys.db, call, 5, 0.0, 0.0);
  }
}
