/** Publish and replay are idempotent over whole runs (docs/reliability-contract.md, sections
    "Idempotent ingestion" and "Manual replay"). */
module Idempotency {
  import opened Schema
  import opened Retry
  import opened Transport
  import opened Transactions
  import opened Invariants
  import opened ServiceProofs
  import opened Protocol
  import opened Contract

  /** The event and the delivery a successful publish names. */
  lemma PublishedRows(s: Settings, db: DB, q: PublishRequest, key: string, m: Minted)
    requires s.Valid() && Inv(s, db) && FreshMint(db, m) && |q.eventType| > 0
    requires PublishTx(db, q, key, m).1.Published?
    ensures var (db', outcome) := PublishTx(db, q, key, m);
            && q.data.Some? && !Blank(key) && HoldsKey(db', key, outcome.eventId)
            && db'.events[outcome.eventId].fingerprint == FingerprintOf(q)
            && IsInitial(db', outcome.eventId, q.endpointId, outcome.deliveryId)
  {
    hide Inv, Constraints, IsSpace;
    PublishKeepsInv(s, db, q, key, m);
    if e :| HoldsKey(db, key, e) && PublishTx(db, q, key, m).0 == db {
      PublishAgain(s, db, q, key, m, e);
    }
  }

  /** Once a key has been accepted, every later publish under it, in any continuation that still
      holds the event, changes nothing: the same request gets the same event and the same initial
      delivery back, any other valid request is refused. */
  lemma PublishIsIdempotent(
    s: Settings, sys: System, q: PublishRequest, key: string, m: Minted, actions: seq<Action>,
    q': PublishRequest, m': Minted)
    requires s.Valid() && Reachable(s, sys)
    requires Enabled(s, sys, Publish(q, key, m)) && PublishTx(sys.db, q, key, m).1.Published?
    requires Runs(s, Next(s, sys, Publish(q, key, m)), actions)
    requires var end := After(s, Next(s, sys, Publish(q, key, m)), actions);
             && PublishTx(sys.db, q, key, m).1.eventId in end.db.events
             && q'.data.Some? && q'.endpointId in end.db.endpoints
    ensures var first := PublishTx(sys.db, q, key, m).1;
            var end := After(s, Next(s, sys, Publish(q, key, m)), actions);
            var (db', again) := PublishTx(end.db, q', key, m');
            && db' == end.db
            && again == if q'.endpointId == q.endpointId && q'.eventType == q.eventType
                           && q'.data == q.data
                        then Published(first.eventId, first.deliveryId, true)
                        else PublishRefused(IdempotencyKeyReused)
  {
    hide Reachable, SysInv, Inv, Runs, After, PublishTx, Evolves, IsSpace;
    var first := PublishTx(sys.db, q, key, m).1;
    var e, mid := first.eventId, Next(s, sys, Publish(q, key, m));
    var end := After(s, mid, actions);
    ReachableFits(s, sys);
    InvOfSys(s, sys);
    PublishedRows(s, sys.db, q, key, m);
    StepKeepsSysInv(s, sys, Publish(q, key, m));
    RunKeepsSysInv(s, mid, actions);
    InvOfSys(s, mid);
    InvOfSys(s, end);
    InitialSurvives(s, mid, end.db, e, q.endpointId, first.deliveryId);
    PublishAgain(s, end.db, q', key, m', e);
    if end.db.events[e].fingerprint == FingerprintOf(q') {
      OnlyOneInitial(s, end.db, e, q.endpointId, first.deliveryId,
                     PublishTx(end.db, q', key, m').1.deliveryId);
    }
  }

  lemma InitialSurvives(s: Settings, sys: System, db': DB, e: Id, p: Id, d: Id)
    requires UsedCovers(sys) && Evolves(sys.used, sys.db, db')
    requires e in sys.db.events && e in db'.events && IsInitial(sys.db, e, p, d)
    ensures db'.events[e] == sys.db.events[e] && IsInitial(db', e, p, d)
  {
  }

  lemma OnlyOneInitial(s: Settings, db: DB, e: Id, p: Id, d1: Id, d2: Id)
    requires Inv(s, db) && IsInitial(db, e, p, d1) && IsInitial(db, e, p, d2)
    ensures d1 == d2
  {
    hide RowChecks, UniqueEvents, UniqueAttempts, ForeignKeys, Ledger, Lineage;
    var row1, row2 := db.deliveries[d1], db.deliveries[d2];
    assert d1 != d2 ==> !DeliveriesClash(row1, row2);
  }

  /** A publish that raises nothing but is refused, or finds its key taken, leaves no trace; in
      particular a disabled endpoint rolls the inserted event back. */
  lemma RefusedPublishLeavesNoTrace(s: Settings, sys: System, q: PublishRequest, key: string,
                                    m: Minted)
    requires s.Valid() && Reachable(s, sys) && Enabled(s, sys, Publish(q, key, m))
    ensures Next(s, sys, Publish(q, key, m)).db == sys.db
            <==> !(PublishTx(sys.db, q, key, m).1 == Published(m.eventId, m.deliveryId, false))
  {
    hide Reachable, SysInv, Inv, PublishTx, UsedCovers;
    ReachableFits(s, sys);
    InvOfSys(s, sys);
    assert FreshMint(sys.db, m) by {
      MintIsFresh(s, sys, q, key, m);
    }
    PublishKeepsInv(s, sys.db, q, key, m);
    if PublishTx(sys.db, q, key, m).1 == Published(m.eventId, m.deliveryId, false) {
      assert PublishTx(sys.db, q, key, m).1.Published?;
    }
  }

  lemma MintIsFresh(s: Settings, sys: System, q: PublishRequest, key: string, m: Minted)
    requires UsedCovers(sys) && Enabled(s, sys, Publish(q, key, m))
    ensures FreshMint(sys.db, m)
  {
  }

  // ----- replay -----

  /** Once a replay of a source succeeded, every later decision about that source, in any
      continuation that still holds its event, changes nothing: a request with the same key gets
      the same delivery back and any other is superseded. So overlapping requests, however their
      reads and decisions interleave, create at most one successor. */
  lemma ReplayIsIdempotent(
    s: Settings, sys: System, call: ReplayCall, newId: Id, now: Time, databaseNow: Time,
    actions: seq<Action>, call': ReplayCall, newId': Id, now': Time, databaseNow': Time)
    requires s.Valid() && Reachable(s, sys)
    requires Enabled(s, sys, DecideReplay(call, newId, now, databaseNow))
    requires ReplayTx(sys.db, call, newId, now, databaseNow).1.Replayed?
    requires var mid := Next(s, sys, DecideReplay(call, newId, now, databaseNow));
             && Runs(s, mid, actions)
             && Enabled(s, After(s, mid, actions), DecideReplay(call', newId', now', databaseNow'))
             && call'.seen.eventId in After(s, mid, actions).db.events
    requires call'.sourceId == call.sourceId
    ensures var mid := Next(s, sys, DecideReplay(call, newId, now, databaseNow));
            var end := After(s, mid, actions);
            ReplayTx(end.db, call', newId', now', databaseNow')
            == (end.db,
                if call'.key == call.key
                then Replayed(call.sourceId,
                              ReplayTx(sys.db, call, newId, now, databaseNow).1.deliveryId, true)
                else ReplayRefused(ReplaySourceSuperseded))
  {
    hide Reachable, SysInv, Inv, Runs, After, ReplayTx, Evolves, CallFits, IsSuccessor;
    var a := DecideReplay(call, newId, now, databaseNow);
    var mid := Next(s, sys, a);
    var end := After(s, mid, actions);
    var c := ReplayTx(sys.db, call, newId, now, databaseNow).1.deliveryId;
    ReachableFits(s, sys);
    InvOfSys(s, sys);
    ReplayStep(s, sys, call, newId, now, databaseNow);
    ReplayedRow(s, sys.db, call, newId, now, databaseNow);
    StepKeepsSysInv(s, sys, a);
    RunKeepsSysInv(s, mid, actions);
    InvOfSys(s, mid);
    InvOfSys(s, end);
    ReplayStep(s, end, call', newId', now', databaseNow');
    SuccessorSurvives(s, mid, end, call.sourceId, c, call');
    ReplayKeepsInv(s, end.db, call', newId', now', databaseNow');
    assert Replayed(call.sourceId, c, true) != Replayed(call'.sourceId, newId', false);
  }

  lemma ReplayedRow(
    s: Settings, db: DB, call: ReplayCall, newId: Id, now: Time, databaseNow: Time)
    requires ReplayTx(db, call, newId, now, databaseNow).1.Replayed?
    ensures var (db', outcome) := ReplayTx(db, call, newId, now, databaseNow);
            && IsSuccessor(db', call.sourceId, outcome.deliveryId)
            && db'.deliveries[outcome.deliveryId].replayKey == Some(call.key)
  {
    hide Constraints, BlockOf, IsLatest, InChain;
  }

  lemma SuccessorSurvives(s: Settings, sys: System, end: System, source: Id, c: Id, call': ReplayCall)
    requires SysInv(s, sys) && SysInv(s, end) && Evolves(sys.used, sys.db, end.db)
    requires IsSuccessor(sys.db, source, c)
    requires call' in end.calls && call'.sourceId == source && call'.seen.eventId in end.db.events
    ensures IsSuccessor(end.db, source, c)
    ensures end.db.deliveries[c].replayKey == sys.db.deliveries[c].replayKey
  {
    InvOfSys(s, sys);
    CallOf(s, end, call');
    hide SysInv, Constraints, Ledger, HasInitial, DeliveryChecks, IsSpace;
    assert LineageOf(sys.db, c);
    assert source in sys.used;
  }

  lemma CallOf(s: Settings, sys: System, call: ReplayCall)
    requires SysInv(s, sys) && call in sys.calls
    ensures CallFits(sys.db, call)
  {
    hide Inv, UsedCovers, SnapshotsFit, HoldingsFit, LogFits, RecordsFit, CallFits;
  }

  /** What a replay may rely on between its unlocked read and its decision, in any continuation that
      still holds the event: the source is still there, with the identity it was read with, and if it
      was read as a dead letter it is that row still, to the last column. */
  lemma BegunReplayStaysSound(
    s: Settings, sys: System, sourceId: Id, key: string, actions: seq<Action>)
    requires s.Valid() && Reachable(s, sys) && Enabled(s, sys, BeginReplay(sourceId, key))
    requires Runs(s, Next(s, sys, BeginReplay(sourceId, key)), actions)
    ensures var call := ReplayBegin(sys.db, sourceId, key).call;
            var end := After(s, Next(s, sys, BeginReplay(sourceId, key)), actions);
            call in end.calls
            && (call.seen.eventId in end.db.events ==>
                  && sourceId in end.db.deliveries
                  && DeliveryEvolves(call.seen, end.db.deliveries[sourceId])
                  && (call.seen.status == DeadLettered ==>
                        end.db.deliveries[sourceId] == call.seen))
  {
    hide Reachable, SysInv, Inv, Runs, After, Evolves, IsSpace;
    var begin := BeginReplay(sourceId, key);
    var mid := Next(s, sys, begin);
    ReachableFits(s, sys);
    StepKeepsSysInv(s, sys, begin);
    RunKeepsSysInv(s, mid, actions);
    CallsStay(s, mid, actions);
    InvOfSys(s, mid);
    SourceEvolves(mid, After(s, mid, actions).db, sourceId);
  }

  lemma SourceEvolves(sys: System, db': DB, d: Id)
    requires UsedCovers(sys) && Evolves(sys.used, sys.db, db') && d in sys.db.deliveries
    ensures sys.db.deliveries[d].eventId in db'.events ==>
              d in db'.deliveries && DeliveryEvolves(sys.db.deliveries[d], db'.deliveries[d])
  {
  }

  lemma {:induction false} CallsStay(s: Settings, sys: System, actions: seq<Action>)
    requires Runs(s, sys, actions)
    ensures sys.calls <= After(s, sys, actions).calls
    decreases |actions|
  {
    hide Enabled, Next;
    if actions != [] {
      CallsOfNext(s, sys, actions[0]);
      CallsStay(s, Next(s, sys, actions[0]), actions[1..]);
    }
  }

  /** A decision made on a status read earlier is as good as one made on the current status: it
      never creates a successor that the current row would not allow, and when it read
      `dead_lettered` the answer is the same. */
  lemma StaleReadIsSafe(
    s: Settings, sys: System, call: ReplayCall, newId: Id, now: Time, databaseNow: Time)
    requires s.Valid() && Reachable(s, sys)
    requires Enabled(s, sys, DecideReplay(call, newId, now, databaseNow))
    requires call.sourceId in sys.db.deliveries
    ensures var reread := call.(seen := sys.db.deliveries[call.sourceId]);
            var stale := ReplayTx(sys.db, call, newId, now, databaseNow);
            var current := ReplayTx(sys.db, reread, newId, now, databaseNow);
            && (call.seen.status == DeadLettered ==> stale == current)
            && (stale != current ==> stale == (sys.db, ReplayRefused(DeliveryNotReplayable)))
  {
    hide Reachable, SysInv, Inv, Constraints, BlockOf, IsLatest, InChain, IsReplayOf, IsSpace;
    ReachableFits(s, sys);
    CallOf(s, sys, call);
  }
}
