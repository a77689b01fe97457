/** Bounded retention (backend/src/eventharbor/maintenance.py): a batched purge that, undisturbed,
    equals one single deletion of the oldest expired events. */
module Retention {
  import opened Schema
  import opened Transport
  import opened Transactions
  import opened Invariants
  import opened ServiceProofs
  import opened Sets
  import opened Tables

  /** Event e precedes event o in (created_at, id) order. */
  predicate Earlier(events: map<Id, Event>, e: Id, o: Id)
    requires e in events && o in events
  {
    var t, u := events[e].createdAt, events[o].createdAt;
    t < u || (t == u && e < o)
  }

  /** `chosen` is the oldest k of `all`, or all of them when there are fewer. */
  predicate IsOldest(events: map<Id, Event>, all: set<Id>, chosen: set<Id>, k: nat) {
    && all <= events.Keys && chosen <= all
    && |chosen| == (if k <= |all| then k else |all|)
    && forall c, o | c in chosen && o in all - chosen :: Earlier(events, c, o)
  }

  /** There is only one such set, so `IsOldest` says exactly which events go. */
  lemma OldestIsUnique(events: map<Id, Event>, all: set<Id>, c1: set<Id>, c2: set<Id>, k: nat)
    requires IsOldest(events, all, c1, k) && IsOldest(events, all, c2, k)
    ensures c1 == c2
  {
    if !(c1 <= c2) {
      var x :| x in c1 && x !in c2;
      if c2 <= c1 {
        SubsetSize(c2, c1, x);
      } else {
        var y :| y in c2 && y !in c1;
        NotBothEarlier(events, x, y);
      }
    } else if !(c2 <= c1) {
      var y :| y in c2 && y !in c1;
      SubsetSize(c1, c2, y);
    }
  }

  lemma NotBothEarlier(events: map<Id, Event>, x: Id, y: Id)
    requires x in events && y in events
    ensures !(Earlier(events, x, y) && Earlier(events, y, x))
  {
  }

  lemma SubsetSize(small: set<Id>, large: set<Id>, extra: Id)
    requires small <= large && extra in large && extra !in small
    ensures |small| < |large|
  {
    var rest := large - small;
    assert large == small + rest && extra in rest;
  }

  /** The oldest j, and then the oldest k of what is left, are the oldest j + k. */
  lemma OldestCompose(events: map<Id, Event>, all: set<Id>, first: set<Id>, second: set<Id>, k: nat)
    requires IsOldest(events, all, first, |first|) && IsOldest(events, all - first, second, k)
    ensures first !! second
    ensures IsOldest(events, all, first + second, |first| + |second|)
  {
    assert |first + second| == |first| + |second|;
    var rest := all - first;
    assert all == first + rest && |all| == |first| + |rest|;
    var after := rest - second;
    assert rest == second + after && |rest| == |second| + |after|;
  }

  lemma OldestStays(
    events: map<Id, Event>, events': map<Id, Event>, all: set<Id>, chosen: set<Id>, k: nat)
    requires IsOldest(events', all, chosen, k)
    requires forall e | e in events' :: e in events && events[e] == events'[e]
    ensures IsOldest(events, all, chosen, k)
  {
  }

  // ----- the same on the columns -----

  /** Every delivery of the event has come to its end. */
  predicate Settled(db: DB, e: Id) {
    forall d | d in db.deliveries && db.deliveries[d].eventId == e ::
      db.deliveries[d].status == Delivered || db.deliveries[d].status == DeadLettered
  }

  /** Created before the cutoff, with nothing left to deliver. */
  predicate MayGo(db: DB, cutoff: Time, e: Id) {
    e in db.events && db.events[e].createdAt < cutoff && Settled(db, e)
  }

  /** At most `limit` events that may go are taken, and any that stays is younger than all of them, or
      as old with a larger id, and stays because the limit was reached. */
  ghost predicate TakesOldest(seen: DB, cutoff: Time, batch: set<Id>, limit: nat) {
    && |batch| <= limit && (forall e | e in batch :: MayGo(seen, cutoff, e))
    && (forall e: Id | MayGo(seen, cutoff, e) && e !in batch ::
          && |batch| == limit
          && forall b | b in batch ::
               seen.events[b].createdAt < seen.events[e].createdAt
               || (seen.events[b].createdAt == seen.events[e].createdAt && b < e))
  }

  lemma ExpiredMayGo(db: DB, cutoff: Time)
    ensures forall e: Id :: e in Expired(db, cutoff) <==> MayGo(db, cutoff, e)
  {
    forall e: Id ensures AllTerminal(db, e) <==> Settled(db, e) {
    }
  }

  /** The specification of a batch says the same as the columns. */
  lemma OldestOnColumns(seen: DB, cutoff: Time, batch: set<Id>, limit: nat)
    ensures IsOldest(seen.events, Expired(seen, cutoff), batch, limit)
            <==> TakesOldest(seen, cutoff, batch, limit)
  {
    ExpiredMayGo(seen, cutoff);
    hide Expired, MayGo;
    var all := Expired(seen, cutoff);
    EventsOfExpired(seen, cutoff);
    assert forall e: Id :: e in all - batch <==> MayGo(seen, cutoff, e) && e !in batch;
    if batch <= all && batch != all {
      var e :| e in all && e !in batch;
      SubsetSize(batch, all, e);
    }
  }

  lemma EventsOfExpired(db: DB, cutoff: Time)
    ensures Expired(db, cutoff) <= db.events.Keys
  {
  }

  /** What a removal leaves: every row that does not hang on a removed event, as it was. */
  lemma RemovalOnColumns(db: DB, gone: set<Id>)
    ensures var db' := RemoveEvents(db, gone);
            && db'.endpoints == db.endpoints
            && (forall e :: e in db'.events <==> e in db.events && e !in gone)
            && (forall e | e in db'.events :: db'.events[e] == db.events[e])
            && (forall d :: d in db'.deliveries
                            <==> d in db.deliveries && db.deliveries[d].eventId !in gone)
            && (forall d | d in db'.deliveries :: db'.deliveries[d] == db.deliveries[d])
            && (forall a :: a in db'.attempts
                            <==> && a in db.attempts && db.attempts[a].deliveryId in db.deliveries
                                 && db.deliveries[db.attempts[a].deliveryId].eventId !in gone)
            && (forall a | a in db'.attempts :: db'.attempts[a] == db.attempts[a])
  {
  }

  // ----- removal in steps -----

  lemma RemovalsCompose(db: DB, first: set<Id>, second: set<Id>)
    ensures RemoveEvents(RemoveEvents(db, first), second) == RemoveEvents(db, first + second)
  {
    var left := RemoveEvents(RemoveEvents(db, first), second);
    var right := RemoveEvents(db, first + second);
    assert left.events == right.events;
    assert left.deliveries == right.deliveries;
    assert left.attempts == right.attempts;
  }

  lemma ExpiredAfterRemoval(db: DB, cutoff: Time, gone: set<Id>)
    ensures Expired(RemoveEvents(db, gone), cutoff) == Expired(db, cutoff) - gone
  {
    var db' := RemoveEvents(db, gone);
    forall e | e in db'.events ensures AllTerminal(db', e) <==> AllTerminal(db, e) {
      if AllTerminal(db', e) {
        forall d | d in db.deliveries && db.deliveries[d].eventId == e
          ensures !Active(db.deliveries[d].status)
        {
          assert d in db'.deliveries;
        }
      }
    }
  }

  /** Deleting events that are still eligible removes no active delivery, keeps every other event with
      all its deliveries and attempts, and keeps the whole invariant: lineage, ledger, foreign keys. */
  lemma PurgeIsSafe(s: Settings, db: DB, cutoff: Time, gone: set<Id>)
    requires Inv(s, db) && gone <= Expired(db, cutoff)
    ensures var db' := RemoveEvents(db, gone);
            && Inv(s, db')
            && (forall d | d in db.deliveries && Active(db.deliveries[d].status) ::
                  d in db'.deliveries && db'.deliveries[d] == db.deliveries[d])
            && (forall d | d in db.deliveries && db.deliveries[d].eventId !in gone ::
                  d in db'.deliveries && db'.deliveries[d] == db.deliveries[d])
            && (forall a | a in db.attempts :: a in db'.attempts
                  <==> db.deliveries[db.attempts[a].deliveryId].eventId !in gone)
  {
    hide Inv;
    RemovalKeepsInv(s, db, gone);
    assert forall e | e in gone :: AllTerminal(db, e);
    AttemptsHaveDeliveries(s, db);
  }

  lemma AttemptsHaveDeliveries(s: Settings, db: DB)
    requires Inv(s, db)
    ensures AttemptsOwned(db)
  {
    hide RowChecks, UniqueEvents, UniqueDeliveries, UniqueAttempts, Ledger, Lineage;
  }

  // ----- the job -----

  datatype CleanupResult = CleanupResult(lockAcquired: bool, deletedEvents: nat, batches: nat)
    | InvalidArguments

  class RetentionJob {
    const db: Database

    constructor (db: Database)
      ensures this.db == db
    {
      this.db := db;
    }

    /** The first `limit` candidates by age, ties broken by id. */
    method SelectOldest(candidates: set<Id>, limit: nat) returns (chosen: set<Id>)
      requires candidates <= db.events.Keys
      ensures IsOldest(db.events, candidates, chosen, limit)
    {
      chosen := {};
      while |chosen| < limit && candidates - chosen != {}
        invariant IsOldest(db.events, candidates, chosen, |chosen|) && |chosen| <= limit
        decreases |candidates - chosen|
      {
        var rest := candidates - chosen;
        ghost var next := EarliestExists(db.events, rest);
        var e :| e in rest && forall o | o in rest :: e == o || Earlier(db.events, e, o);
        assert IsOldest(db.events, rest, {e}, 1) by {
          assert rest == {e} + (rest - {e});
        }
        OldestCompose(db.events, candidates, chosen, {e}, 1);
        assert candidates - (chosen + {e}) < rest;
        SubsetSize(candidates - (chosen + {e}), rest, e);
        chosen := chosen + {e};
      }
      if candidates - chosen == {} {
        assert chosen == candidates;
      } else {
        SubsetCounts(chosen, candidates);
      }
    }

    /** Other transactions commit between two statements of this one. */
    method OthersCommit(i: nat, others: (nat, DB) -> DB)
      requires AttemptsOwned(db.Contents()) && Polite(others)
      modifies db
      ensures db.Contents() == others(i, old(db.Contents()))
      ensures OthersMay(old(db.Contents()), db.Contents())
    {
      var next := others(i, db.Contents());
      db.endpoints, db.events, db.deliveries, db.attempts :=
        next.endpoints, next.events, next.deliveries, next.attempts;
    }

    /** One batch: select without a lock; then, whatever was committed since, delete the selected
        events. Attempts go with their deliveries, deliveries before their events. */
    method DeleteTerminalEventBatch(cutoff: Time, limit: nat, i: nat, others: (nat, DB) -> DB)
      returns (deleted: nat, ghost gone: set<Id>)
      requires AttemptsOwned(db.Contents()) && Polite(others)
      modifies db
      ensures IsOldest(old(db.events), Expired(old(db.Contents()), cutoff), gone, limit)
      ensures TakesOldest(old(db.Contents()), cutoff, gone, limit)
      ensures db.Contents() == if gone == {} then old(db.Contents())
                               else RemoveEvents(others(i, old(db.Contents())), gone)
      ensures deleted == |gone| && AttemptsOwned(db.Contents())
      ensures OthersMay(old(db.Contents()), others(i, old(db.Contents())))
    {
      var eventIds := SelectOldest(Expired(db.Contents(), cutoff), limit);
      gone := eventIds;
      OldestOnColumns(db.Contents(), cutoff, eventIds, limit);
      hide TakesOldest;
      if eventIds == {} {
        return 0, gone;
      }
      OthersCommit(i, others);
      ghost var before := db.Contents();
      db.deliveries := map d | d in db.deliveries && db.deliveries[d].eventId !in eventIds
                       :: db.deliveries[d];
      db.attempts := map a | a in db.attempts && db.attempts[a].deliveryId in db.deliveries
                     :: db.attempts[a];
      var removed := eventIds * db.events.Keys;
      db.events := db.events - eventIds;
      assert removed == eventIds;
      deleted := |removed|;
      assert db.Contents() == RemoveEvents(before, gone);
    }

    /** One round of the loop: others commit, and then comes the batch. */
    method NextBatch(cutoff: Time, limit: nat, batches: nat, others: (nat, DB) -> DB)
      returns (deleted: nat, ghost batch: set<Id>, ghost seen: DB)
      requires AttemptsOwned(db.Contents()) && Polite(others)
      modifies db
      ensures seen == others(2 * batches, old(db.Contents())) && OthersMay(old(db.Contents()), seen)
      ensures OthersMay(seen, others(2 * batches + 1, seen))
      ensures IsOldest(seen.events, Expired(seen, cutoff), batch, limit) && deleted == |batch|
      ensures db.Contents() == if batch == {} then seen
                               else RemoveEvents(others(2 * batches + 1, seen), batch)
      ensures AttemptsOwned(db.Contents())
    {
      hide *;
      ghost var before := db.Contents();
      OthersCommit(2 * batches, others);
      seen := db.Contents();
      OwnedByOthers(before, seen);
      deleted, batch := DeleteTerminalEventBatch(cutoff, limit, 2 * batches + 1, others);
    }

    /** Whatever others commit meanwhile: the run ends, and it deletes at most `maxEvents` events, in
        each batch exactly the oldest ones that were eligible when the batch was selected; when fewer
        are deleted, nothing eligible was left at the last select. No other event is lost. When
        nobody else commits, the whole run is one purge of the oldest `maxEvents` expired events,
        whatever the batch size, in as many batches as that size requires. */
    method PurgeExpiredDemoEvents(cutoff: Time, batchSize: int, maxEvents: int, lockFree: bool,
                                  others: (nat, DB) -> DB)
      returns (result: CleanupResult, ghost gone: set<Id>, ghost taken: seq<set<Id>>)
      requires AttemptsOwned(db.Contents()) && Polite(others)
      modifies db
      ensures result.InvalidArguments? <==> batchSize < 1 || maxEvents < 1
      ensures result.InvalidArguments? || !lockFree ==>
                gone == {} && db.Contents() == old(db.Contents())
      ensures !result.InvalidArguments? && !lockFree ==> result == CleanupResult(false, 0, 0)
      ensures !result.InvalidArguments? && lockFree ==>
                && result == CleanupResult(true, Count(taken), |taken|)
                && result.deletedEvents <= maxEvents && gone == Union(taken)
                && Follows(old(db.Contents()), taken, cutoff, batchSize, maxEvents, others)
                && TakesOldestEachTime(old(db.Contents()), taken, cutoff, batchSize, maxEvents, others)
                && EventsStay(old(db.events), db.events, gone)
                && (if result.deletedEvents == maxEvents
                    then db.Contents() == StateAfter(old(db.Contents()), taken, others)
                    else db.Contents() == SeenAfter(old(db.Contents()), taken, others)
                         && (forall e: Id :: !MayGo(db.Contents(), cutoff, e)))
      ensures !result.InvalidArguments? && lockFree && Quiet(others) ==>
                QuietRun(old(db.Contents()), db.Contents(), cutoff, taken, gone, batchSize, maxEvents)
    {
      hide *;
      gone, taken := {}, [];
      if batchSize < 1 || maxEvents < 1 {
        return InvalidArguments, gone, taken;
      }
      if !lockFree {
        return CleanupResult(false, 0, 0), gone, taken;
      }
      ghost var start, quiet := db.Contents(), Quiet(others);
      NothingTaken(start, cutoff, batchSize, maxEvents, others, quiet);
      var deletedEvents, batches := 0, 0;
      while deletedEvents < maxEvents
        invariant deletedEvents == Count(taken) <= maxEvents && batches == |taken|
        invariant AttemptsOwned(db.Contents())
        invariant Progress(start, db.Contents(), cutoff, taken, gone, batchSize, maxEvents, others,
                           quiet)
        decreases maxEvents - deletedEvents
      {
        var limit := if batchSize <= maxEvents - deletedEvents then batchSize
                     else maxEvents - deletedEvents;
        IsNextLimit(limit, batchSize, maxEvents, deletedEvents);
        ghost var before := db.Contents();
        ghost var batch: set<Id>;
        ghost var seen: DB;
        var deleted;
        deleted, batch, seen := NextBatch(cutoff, limit, batches, others);
        if deleted == 0 {
          NothingLeft(start, before, seen, cutoff, taken, gone, batch, limit, batchSize, maxEvents,
                      others, quiet);
          FollowsOnColumns(start, taken, cutoff, batchSize, maxEvents, others);
          result := CleanupResult(true, deletedEvents, batches);
          return;
        }
        OneMoreBatch(start, before, seen, cutoff, taken, gone, batch, limit, batchSize, maxEvents,
                     others, quiet);
        taken := taken + [batch];
        gone := gone + batch;
        deletedEvents := deletedEvents + deleted;
        batches := batches + 1;
      }
      RunEnds(start, db.Contents(), cutoff, taken, gone, batchSize, maxEvents, others, quiet);
      FollowsOnColumns(start, taken, cutoff, batchSize, maxEvents, others);
      result := CleanupResult(true, deletedEvents, batches);
    }
  }

  // ----- what others may commit meanwhile -----

  /** Other transactions never remove or change an event, and attempts keep their deliveries. */
  predicate OthersMay(before: DB, after: DB) {
    && (forall e | e in before.events :: e in after.events && after.events[e] == before.events[e])
    && AttemptsOwned(after)
  }

  ghost predicate Polite(others: (nat, DB) -> DB) {
    forall i: nat, db | AttemptsOwned(db) :: OthersMay(db, others(i, db))
  }

  ghost predicate Quiet(others: (nat, DB) -> DB) {
    forall i: nat, db :: others(i, db) == db
  }

  function Count(taken: seq<set<Id>>): nat {
    if taken == [] then 0 else Count(taken[..|taken| - 1]) + |taken[|taken| - 1]|
  }

  function Union(taken: seq<set<Id>>): set<Id> {
    if taken == [] then {} else Union(taken[..|taken| - 1]) + taken[|taken| - 1]
  }

  /** The tables after the batches taken, with what others committed in between. */
  ghost function StateAfter(start: DB, taken: seq<set<Id>>, others: (nat, DB) -> DB): DB
    decreases |taken|
  {
    if taken == [] then start else
      var k := |taken| - 1;
      var seen := others(2 * k, StateAfter(start, taken[..k], others));
      RemoveEvents(others(2 * k + 1, seen), taken[k])
  }

  /** The tables as the next select sees them. */
  ghost function SeenAfter(start: DB, taken: seq<set<Id>>, others: (nat, DB) -> DB): DB {
    others(2 * |taken|, StateAfter(start, taken, others))
  }

  /** Each batch took the oldest events that were eligible when it was selected. */
  ghost predicate Follows(start: DB, taken: seq<set<Id>>, cutoff: Time, batchSize: int,
                          maxEvents: int, others: (nat, DB) -> DB)
    decreases |taken|
  {
    taken == [] ||
      var k := |taken| - 1;
      var seen := SeenAfter(start, taken[..k], others);
      var room := maxEvents - Count(taken[..k]);
      && Follows(start, taken[..k], cutoff, batchSize, maxEvents, others)
      && taken[k] != {} && batchSize >= 1 && room >= 1
      && IsOldest(seen.events, Expired(seen, cutoff), taken[k],
                  if batchSize <= room then batchSize else room)
  }

  predicate EventsStay(before: map<Id, Event>, after: map<Id, Event>, gone: set<Id>) {
    forall e | e in before && e !in gone :: e in after && after[e] == before[e]
  }

  /** Without interference: so far exactly the oldest events are gone, with all that hangs on them. */
  predicate QuietSoFar(start: DB, now: DB, cutoff: Time, gone: set<Id>, deleted: nat) {
    && deleted == |gone| && gone <= Expired(start, cutoff)
    && IsOldest(start.events, Expired(start, cutoff), gone, |gone|)
    && now == RemoveEvents(start, gone)
  }

  predicate BatchesSoFar(expired: set<Id>, gone: set<Id>, batchSize: int, maxEvents: int,
                         deleted: int, batches: int)
  {
    && batchSize * batches - batchSize < deleted <= batchSize * batches
    && (deleted == batchSize * batches || deleted == maxEvents || gone == expired)
  }

  /** What holds before every batch. */
  ghost predicate Progress(
    start: DB, now: DB, cutoff: Time, taken: seq<set<Id>>, gone: set<Id>, batchSize: int,
    maxEvents: int, others: (nat, DB) -> DB, quiet: bool)
  {
    && Follows(start, taken, cutoff, batchSize, maxEvents, others) && gone == Union(taken)
    && now == StateAfter(start, taken, others) && EventsStay(start.events, now.events, gone)
    && (quiet ==>
          && Quiet(others) && QuietSoFar(start, now, cutoff, gone, Count(taken))
          && BatchesSoFar(Expired(start, cutoff), gone, batchSize, maxEvents, Count(taken), |taken|))
  }

  lemma NothingTaken(start: DB, cutoff: Time, batchSize: int, maxEvents: int,
                     others: (nat, DB) -> DB, quiet: bool)
    requires AttemptsOwned(start) && batchSize >= 1 && (quiet ==> Quiet(others))
    ensures Count([]) == 0
    ensures Progress(start, start, cutoff, [], {}, batchSize, maxEvents, others, quiet)
  {
    hide AllTerminal, Earlier;
    NothingRemoved(start);
    NoneIsOldest(start.events, Expired(start, cutoff));
  }

  predicate NextLimit(limit: nat, batchSize: int, maxEvents: int, deleted: nat) {
    && 1 <= batchSize && deleted < maxEvents
    && limit == if batchSize <= maxEvents - deleted then batchSize else maxEvents - deleted
  }

  lemma IsNextLimit(limit: nat, batchSize: int, maxEvents: int, deleted: nat)
    requires 1 <= batchSize && deleted < maxEvents
    requires limit == if batchSize <= maxEvents - deleted then batchSize else maxEvents - deleted
    ensures NextLimit(limit, batchSize, maxEvents, deleted)
  {
  }

  lemma OwnedByOthers(before: DB, after: DB)
    requires OthersMay(before, after)
    ensures AttemptsOwned(after)
  {
  }

  lemma StaysMore(events: map<Id, Event>, before: DB, after: DB, gone: set<Id>)
    requires EventsStay(events, before.events, gone) && OthersMay(before, after)
    ensures EventsStay(events, after.events, gone)
  {
  }

  lemma StaysAfterBatch(
    events: map<Id, Event>, seen: DB, mid: DB, gone: set<Id>, batch: set<Id>)
    requires EventsStay(events, seen.events, gone) && OthersMay(seen, mid)
    ensures EventsStay(events, RemoveEvents(mid, batch).events, gone + batch)
  {
  }

  function Room(taken: seq<set<Id>>, batchSize: int, maxEvents: int): int {
    if batchSize <= maxEvents - Count(taken) then batchSize else maxEvents - Count(taken)
  }

  /** Every batch takes the oldest events that may go at its own select, as many as there is room. */
  ghost predicate TakesOldestEachTime(
    start: DB, taken: seq<set<Id>>, cutoff: Time, batchSize: int, maxEvents: int,
    others: (nat, DB) -> DB)
  {
    forall i | 0 <= i < |taken| ::
      && Room(taken[..i], batchSize, maxEvents) >= 1
      && TakesOldest(SeenAfter(start, taken[..i], others), cutoff, taken[i],
                     Room(taken[..i], batchSize, maxEvents))
  }

  lemma {:induction false} FollowsOnColumns(
    start: DB, taken: seq<set<Id>>, cutoff: Time, batchSize: int, maxEvents: int,
    others: (nat, DB) -> DB)
    requires Follows(start, taken, cutoff, batchSize, maxEvents, others)
    ensures TakesOldestEachTime(start, taken, cutoff, batchSize, maxEvents, others)
    decreases |taken|
  {
    hide Expired, IsOldest, TakesOldest, SeenAfter;
    if taken != [] {
      var k := |taken| - 1;
      var before := taken[..k];
      FollowsOnColumns(start, before, cutoff, batchSize, maxEvents, others);
      OldestOnColumns(SeenAfter(start, before, others), cutoff, taken[k],
                      Room(before, batchSize, maxEvents));
      forall i | 0 <= i < |taken|
        ensures Room(taken[..i], batchSize, maxEvents) >= 1
                && TakesOldest(SeenAfter(start, taken[..i], others), cutoff, taken[i],
                               Room(taken[..i], batchSize, maxEvents))
      {
        if i < k {
          assert before[..i] == taken[..i] && before[i] == taken[i];
        }
      }
    }
  }

  lemma {:induction false} TakeBatch(
    start: DB, seen: DB, cutoff: Time, taken: seq<set<Id>>, gone: set<Id>, batch: set<Id>,
    limit: nat, batchSize: int, maxEvents: int, others: (nat, DB) -> DB)
    requires Follows(start, taken, cutoff, batchSize, maxEvents, others) && gone == Union(taken)
    requires seen == SeenAfter(start, taken, others)
    requires IsOldest(seen.events, Expired(seen, cutoff), batch, limit) && |batch| >= 1
    requires NextLimit(limit, batchSize, maxEvents, Count(taken))
    ensures Follows(start, taken + [batch], cutoff, batchSize, maxEvents, others)
    ensures StateAfter(start, taken + [batch], others)
            == RemoveEvents(others(2 * |taken| + 1, seen), batch)
    ensures Count(taken + [batch]) == Count(taken) + |batch| <= maxEvents
    ensures Union(taken + [batch]) == gone + batch
  {
    hide Expired, Earlier, RemoveEvents;
    assert (taken + [batch])[..|taken|] == taken;
  }

  /** A batch without interference. */
  lemma QuietBatch(
    start: DB, before: DB, cutoff: Time, gone: set<Id>, batch: set<Id>, limit: nat)
    requires QuietSoFar(start, before, cutoff, gone, |gone|)
    requires IsOldest(before.events, Expired(before, cutoff), batch, limit)
    ensures QuietSoFar(start, RemoveEvents(before, batch), cutoff, gone + batch, |gone| + |batch|)
    ensures |batch| <= limit
    ensures |batch| < limit ==> gone + batch == Expired(start, cutoff)
  {
    hide Expired, RemoveEvents;
    BatchStep(start, cutoff, gone, batch, limit);
  }

  /** The loop breaks on an empty batch: nothing eligible is left. */
  lemma NothingLeft(
    start: DB, before: DB, seen: DB, cutoff: Time, taken: seq<set<Id>>, gone: set<Id>,
    batch: set<Id>, limit: nat, batchSize: int, maxEvents: int, others: (nat, DB) -> DB, quiet: bool)
    requires Progress(start, before, cutoff, taken, gone, batchSize, maxEvents, others, quiet)
    requires seen == others(2 * |taken|, before) && OthersMay(before, seen)
    requires IsOldest(seen.events, Expired(seen, cutoff), batch, limit) && |batch| == 0
    requires NextLimit(limit, batchSize, maxEvents, Count(taken))
    ensures Follows(start, taken, cutoff, batchSize, maxEvents, others) && gone == Union(taken)
    ensures batch == {} && seen == SeenAfter(start, taken, others)
    ensures forall e: Id :: !MayGo(seen, cutoff, e)
    ensures EventsStay(start.events, seen.events, gone)
    ensures quiet ==> QuietRun(start, seen, cutoff, taken, gone, batchSize, maxEvents)
  {
    ExpiredMayGo(seen, cutoff);
    hide Expired, RemoveEvents, Earlier, Follows, Count, Union, StateAfter, MayGo;
    if quiet {
      QuietBatch(start, before, cutoff, gone, batch, limit);
      assert gone + batch == gone;
      OldestOnColumns(start, cutoff, gone, maxEvents);
    }
  }

  /** One round of the loop that deletes something. */
  lemma OneMoreBatch(
    start: DB, before: DB, seen: DB, cutoff: Time, taken: seq<set<Id>>, gone: set<Id>,
    batch: set<Id>, limit: nat, batchSize: int, maxEvents: int, others: (nat, DB) -> DB, quiet: bool)
    requires Progress(start, before, cutoff, taken, gone, batchSize, maxEvents, others, quiet)
    requires seen == others(2 * |taken|, before) && OthersMay(before, seen)
    requires OthersMay(seen, others(2 * |taken| + 1, seen))
    requires IsOldest(seen.events, Expired(seen, cutoff), batch, limit) && |batch| >= 1
    requires NextLimit(limit, batchSize, maxEvents, Count(taken))
    ensures Progress(start, RemoveEvents(others(2 * |taken| + 1, seen), batch), cutoff,
                     taken + [batch], gone + batch, batchSize, maxEvents, others, quiet)
    ensures Count(taken + [batch]) == Count(taken) + |batch| <= maxEvents
  {
    hide Expired, RemoveEvents, Earlier, IsOldest, Follows, Count, Union, StateAfter, EventsStay,
         OthersMay;
    TakeBatch(start, seen, cutoff, taken, gone, batch, limit, batchSize, maxEvents, others);
    StaysMore(start.events, before, seen, gone);
    StaysAfterBatch(start.events, seen, others(2 * |taken| + 1, seen), gone, batch);
    if quiet {
      QuietBatch(start, before, cutoff, gone, batch, limit);
      BatchesGrow(start, cutoff, gone, batch, limit, batchSize, maxEvents, Count(taken), |taken|);
    }
  }

  lemma BatchesGrow(
    start: DB, cutoff: Time, gone: set<Id>, batch: set<Id>, limit: nat, batchSize: int,
    maxEvents: int, deleted: nat, batches: nat)
    requires BatchesSoFar(Expired(start, cutoff), gone, batchSize, maxEvents, deleted, batches)
    requires gone + batch <= Expired(start, cutoff) && |gone + batch| == |gone| + |batch|
    requires 1 <= |batch| <= limit && NextLimit(limit, batchSize, maxEvents, deleted)
    requires |batch| < limit ==> gone + batch == Expired(start, cutoff)
    ensures BatchesSoFar(Expired(start, cutoff), gone + batch, batchSize, maxEvents,
                         deleted + |batch|, batches + 1)
  {
    hide Expired;
    NotAllGone(Expired(start, cutoff), gone, batch);
    BatchCount(batchSize, batches, deleted, |batch|, limit);
  }

  lemma NotAllGone(expired: set<Id>, gone: set<Id>, batch: set<Id>)
    requires gone + batch <= expired && |gone + batch| > |gone|
    ensures gone != expired
  {
    if gone + batch == gone {
    }
  }

  /** The finished run without interference. */
  ghost predicate QuietRun(start: DB, now: DB, cutoff: Time, taken: seq<set<Id>>, gone: set<Id>,
                     batchSize: int, maxEvents: nat)
  {
    && IsOldest(start.events, Expired(start, cutoff), gone, maxEvents)
    && TakesOldest(start, cutoff, gone, maxEvents)
    && now == RemoveEvents(start, gone) && Count(taken) == |gone|
    && batchSize * |taken| - batchSize < Count(taken) <= batchSize * |taken|
  }

  /** What a run has done that used up its limit. */
  lemma RunEnds(
    start: DB, now: DB, cutoff: Time, taken: seq<set<Id>>, gone: set<Id>, batchSize: int,
    maxEvents: int, others: (nat, DB) -> DB, quiet: bool)
    requires Progress(start, now, cutoff, taken, gone, batchSize, maxEvents, others, quiet)
    requires Count(taken) == maxEvents
    ensures Follows(start, taken, cutoff, batchSize, maxEvents, others) && gone == Union(taken)
    ensures now == StateAfter(start, taken, others) && EventsStay(start.events, now.events, gone)
    ensures quiet ==> QuietRun(start, now, cutoff, taken, gone, batchSize, maxEvents)
  {
    hide Expired, RemoveEvents, Earlier, Follows, Count, Union, StateAfter, EventsStay, TakesOldest;
    OldestOnColumns(start, cutoff, gone, maxEvents);
  }

  lemma AllTaken(expired: set<Id>, gone: set<Id>, batch: set<Id>)
    requires batch <= expired - gone && |batch| == |expired - gone| && gone <= expired
    ensures gone + batch == expired
  {
    var rest := expired - gone;
    if x :| x in rest && x !in batch {
      SubsetSize(batch, rest, x);
    }
  }

  lemma NoneIsOldest(events: map<Id, Event>, all: set<Id>)
    requires all <= events.Keys
    ensures IsOldest(events, all, {}, 0)
  {
  }

  lemma BatchCount(batchSize: int, batches: nat, before: nat, deleted: nat, limit: nat)
    requires batchSize >= 1 && before == batchSize * batches && 0 < deleted <= limit <= batchSize
    ensures batchSize * (batches + 1) - batchSize < before + deleted <= batchSize * (batches + 1)
    ensures deleted == batchSize ==> before + deleted == batchSize * (batches + 1)
  {
  }

  /** Attempts cascade from deliveries: every attempt has one. */
  predicate AttemptsOwned(db: DB) {
    forall a | a in db.attempts :: db.attempts[a].deliveryId in db.deliveries
  }

  lemma NothingRemoved(db: DB)
    requires AttemptsOwned(db)
    ensures RemoveEvents(db, {}) == db
  {
    assert RemoveEvents(db, {}).deliveries == db.deliveries;
  }

  /** One batch of the loop, after `gone` was already removed from `start`. */
  lemma BatchStep(start: DB, cutoff: Time, gone: set<Id>, batch: set<Id>, limit: nat)
    requires IsOldest(start.events, Expired(start, cutoff), gone, |gone|)
    requires var mid := RemoveEvents(start, gone);
             IsOldest(mid.events, Expired(mid, cutoff), batch, limit)
    ensures gone !! batch && gone + batch <= Expired(start, cutoff)
    ensures |gone + batch| == |gone| + |batch| && |batch| <= limit
    ensures IsOldest(start.events, Expired(start, cutoff), gone + batch, |gone + batch|)
    ensures RemoveEvents(RemoveEvents(start, gone), batch) == RemoveEvents(start, gone + batch)
    ensures |batch| < limit ==> gone + batch == Expired(start, cutoff)
  {
    var expired := Expired(start, cutoff);
    ExpiredAfterRemoval(start, cutoff, gone);
    OldestStays(start.events, RemoveEvents(start, gone).events, expired - gone, batch, limit);
    OldestCompose(start.events, expired, gone, batch, limit);
    RemovalsCompose(start, gone, batch);
    hide Expired, Earlier;
    if |batch| < limit {
      AllTaken(expired, gone, batch);
    }
  }

  lemma {:induction false} EarliestExists(events: map<Id, Event>, rows: set<Id>) returns (first: Id)
    requires rows != {} && rows <= events.Keys
    ensures first in rows && forall o | o in rows :: first == o || Earlier(events, first, o)
    decreases |rows|
  {
    first :| first in rows;
    var rest := rows - {first};
    if rest != {} {
      var best := EarliestExists(events, rest);
      if !Earlier(events, first, best) {
        first := best;
      }
    }
    forall o | o in rows ensures first == o || Earlier(events, first, o) {
      assert o in rest || rows == rest + {o};
    }
  }
}
