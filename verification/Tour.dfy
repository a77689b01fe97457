/** `runReliabilityTour` (frontend/src/reliabilityTour.ts), a resumable client of the protocol. The
    server moves between its calls in any way the protocol allows, answers may be lost, and the run
    may be aborted at any call and resumed later. */
module Tour {
  import opened Schema
  import opened Transport
  import opened Transactions
  import opened Invariants
  import opened ServiceProofs
  import opened Protocol
  import opened Contract

  datatype Strategy = Automatic | Terminal | Replay

  datatype EventDetail = EventDetail(
    id: Id, scenario: Option<string>, deliveries: map<Id, Delivery>)

  /** What the i-th call of the tour would see. `extra` is the time that passed beside the tour's
      own waiting; an absent answer is a call that throws, whether or not it took effect. */
  datatype Moment = Moment(
    extra: int, aborted: bool,
    presetConfirmed: Option<bool>, endpoint: Option<Id>, publish: Option<Id>,
    getEvent: Id -> Option<EventDetail>, replay: Id -> Option<Id>, rejectionProven: Option<bool>)

  datatype Options = Options(
    eventId: Option<Id>, replayDeliveryId: Option<Id>, scenarioId: string, strategy: Strategy,
    pollInterval: int, presentationPause: int, timeout: int)

  datatype Phase = Verified | Paused | Failed

  datatype Outcome = Outcome(
    phase: Phase, eventId: Option<Id>, event: Option<EventDetail>,
    sourceId: Option<Id>, replayId: Option<Id>)

  predicate ValidOptions(o: Options) {
    o.pollInterval > 0 && o.presentationPause >= 0 && o.timeout > 0
  }

  predicate Terminated(status: DeliveryStatus) { status == Delivered || status == DeadLettered }

  // ----- the server the tour talks to -----

  /** The detail shows the event's rows in this database. */
  ghost predicate Shows(db: DB, e: Id, detail: EventDetail) {
    && detail.id == e && e in db.events
    && (forall d :: d in detail.deliveries
                    <==> d in db.deliveries && db.deliveries[d].eventId == e)
    && (forall d | d in detail.deliveries :: detail.deliveries[d] == db.deliveries[d])
  }

  ghost predicate Follows(s: Settings, before: System, after: System) {
    exists actions :: Runs(s, before, actions) && After(s, before, actions) == after
  }

  /** `systems(i)` is the server when the i-th call returns. The keys are derived from the run id. */
  datatype Server = Server(
    settings: Settings, systems: nat -> System, storyKey: string, replayKey: string)
  {
    function Db(i: nat): DB { systems(i).db }
  }

  /** The server moves by runs of the protocol. */
  ghost predicate Lives(h: Server) {
    && h.settings.Valid() && Reachable(h.settings, h.systems(0))
    && (forall i: nat :: Follows(h.settings, h.systems(i), h.systems(i + 1)))
  }

  /** The replies are those of the server's read model, its publish and its replay services. */
  ghost predicate Honest(h: Server, world: nat -> Moment) {
    && Lives(h)
    && (forall i: nat :: world(i).extra <= world(i + 1).extra)
    && (forall i: nat, e | world(i).getEvent(e).Some? ::
          Shows(h.Db(i), e, world(i).getEvent(e).value))
    && (forall i: nat | world(i).publish.Some? ::
          HoldsKey(h.Db(i), h.storyKey, world(i).publish.value))
    && (forall i: nat, d | world(i).replay(d).Some? ::
          IsReplayOf(h.Db(i), d, h.replayKey, world(i).replay(d).value))
  }

  lemma {:induction false} LaterEvolves(h: Server, i: nat, j: nat)
    requires Lives(h) && i <= j
    ensures SysInv(h.settings, h.systems(i)) && SysInv(h.settings, h.systems(j))
    ensures h.systems(i).used <= h.systems(j).used
    ensures Evolves(h.systems(i).used, h.Db(i), h.Db(j))
    decreases j
  {
    hide SysInv, Evolves, Runs, After, Reachable;
    var s, systems := h.settings, h.systems;
    if j == 0 {
      ReachableFits(s, systems(0));
      EvolvesReflexively(systems(0).used, systems(0).db);
    } else {
      LaterEvolves(h, 0, j - 1);
      assert Follows(s, systems(j - 1), systems(j - 1 + 1));
      var actions :| Runs(s, systems(j - 1), actions) && After(s, systems(j - 1), actions) == systems(j);
      RunKeepsSysInv(s, systems(j - 1), actions);
      if i == j {
        EvolvesReflexively(systems(j).used, systems(j).db);
      } else {
        LaterEvolves(h, i, j - 1);
        InvOfSys(s, systems(i));
        EvolvesTransitively(systems(i), systems(j - 1).used, systems(j - 1).db, systems(j).db);
      }
    }
  }

  /** Generation 0 and the replay made of it. */
  predicate Linked(db: DB, source: Id, replay: Id) {
    && source in db.deliveries && replay in db.deliveries
    && db.deliveries[source].generation == 0
    && db.deliveries[replay].replayedFrom == Some(source)
  }

  /** The replay was made of generation 0 of event e. */
  predicate LinkedFor(db: DB, source: Id, replay: Id, e: Id) {
    Linked(db, source, replay) && db.deliveries[source].eventId == e
  }

  /** A link seen once holds wherever the replay is still seen, and its source is dead-lettered. */
  lemma LinkedLater(h: Server, i: nat, j: nat, source: Id, replay: Id)
    requires Lives(h) && i <= j
    requires Linked(h.Db(i), source, replay) && replay in h.Db(j).deliveries
    ensures Linked(h.Db(j), source, replay)
    ensures h.Db(j).deliveries[source].status == DeadLettered
    ensures h.Db(j).deliveries[source].eventId == h.Db(j).deliveries[replay].eventId
    ensures h.Db(j).deliveries[source].eventId == h.Db(i).deliveries[source].eventId
  {
    hide SysInv, Inv, Evolves, Lives;
    LaterEvolves(h, i, j);
    InvOfSys(h.settings, h.systems(i));
    InvOfSys(h.settings, h.systems(j));
    RowEvolved(h.systems(i), h.Db(j), replay);
    ReplayHasSource(h.settings, h.Db(j), replay);
    RowEvolved(h.systems(i), h.Db(j), source);
  }

  lemma ReplayHasSource(s: Settings, db: DB, replay: Id)
    requires Inv(s, db) && replay in db.deliveries && db.deliveries[replay].replayedFrom.Some?
    ensures db.deliveries[replay].replayedFrom.value in db.deliveries
    ensures SuccessorOf(db.deliveries[replay], db.deliveries[db.deliveries[replay].replayedFrom.value])
  {
    hide Constraints, Ledger, SuccessorOf;
    assert LineageOf(db, replay);
  }

  // ----- the tour -----

  /** The tour between its calls: how many it made, how long it waited, how often it polled. */
  datatype Pace = Pace(calls: nat, waited: nat, polls: nat)

  /** `assertRunning`, with the clock read at the next call. */
  predicate Running(world: nat -> Moment, o: Options, begun: int, p: Pace) {
    !world(p.calls).aborted && world(p.calls).extra + p.waited < begun + o.timeout
  }

  /** Every poll but the last was over, and waited for, before the deadline. */
  predicate InTime(world: nat -> Moment, o: Options, begun: int, p: Pace) {
    && p.polls * o.pollInterval <= p.waited
    && (p.polls >= 1 ==> (p.polls - 1) * o.pollInterval < o.timeout)
    && begun <= world(p.calls).extra
  }

  /** What the call at index i answered, as facts about the server. */
  lemma Replies(h: Server, world: nat -> Moment, i: nat)
    requires Honest(h, world)
    ensures world(i).extra <= world(i + 1).extra
    ensures forall e | world(i).getEvent(e).Some? ::
              Shows(h.Db(i), e, world(i).getEvent(e).value)
    ensures world(i).publish.Some? ==> HoldsKey(h.Db(i), h.storyKey, world(i).publish.value)
    ensures forall d | world(i).replay(d).Some? ::
              IsReplayOf(h.Db(i), d, h.replayKey, world(i).replay(d).value)
  {
    hide Follows, Shows, HoldsKey, IsReplayOf, Reachable;
  }

  /** Generation 0 in an event. The lineage makes it the only one. */
  method FindSource(detail: EventDetail) returns (r: Option<Id>)
    ensures r.Some? ==> r.value in detail.deliveries
                        && detail.deliveries[r.value].generation == 0
    ensures r.None? ==> forall d | d in detail.deliveries :: detail.deliveries[d].generation != 0
  {
    var ids := set d | d in detail.deliveries && detail.deliveries[d].generation == 0;
    if ids == {} {
      assert forall d | d in detail.deliveries && detail.deliveries[d].generation == 0 :: d in ids;
      return None;
    }
    var d :| d in ids;
    return Some(d);
  }

  predicate HasGenerationAbove(detail: EventDetail, g: int) {
    exists d :: d in detail.deliveries && detail.deliveries[d].generation > g
  }

  /** What the tour claims when it reports "verified". */
  predicate Proven(o: Options, r: Outcome) {
    && r.event.Some? && r.eventId == Some(r.event.value.id) && r.sourceId.Some?
    && r.sourceId.value in r.event.value.deliveries
    && var rows, source := r.event.value.deliveries, r.event.value.deliveries[r.sourceId.value];
       (source.generation == 0
        && match o.strategy
           case Automatic => source.status == Delivered
           case Terminal => source.status == DeadLettered
           case Replay =>
             && source.status == DeadLettered
             && r.replayId.Some? && r.replayId.value in rows
             && rows[r.replayId.value].replayedFrom == r.sourceId
             && rows[r.replayId.value].status == Delivered)
  }

  /** `wait`: the clock must not have reached the deadline before or after. */
  method Wait(ghost h: Server, world: nat -> Moment, o: Options, begun: int, p: Pace, duration: nat)
    returns (q: Pace, ok: bool)
    requires Honest(h, world) && ValidOptions(o) && InTime(world, o, begun, p)
    ensures InTime(world, o, begun, q) && q.polls == p.polls && q.calls <= p.calls + 1
    ensures ok ==> q == Pace(p.calls + 1, p.waited + duration, p.polls)
                   && Running(world, o, begun, p) && Running(world, o, begun, q)
                   && !world(p.calls).aborted && !world(q.calls).aborted
                   && world(q.calls).extra + q.waited < begun + o.timeout
    ensures world(p.calls).extra <= world(q.calls).extra && p.calls <= q.calls
  {
    Replies(h, world, p.calls);
    if !Running(world, o, begun, p) {
      return p, false;
    }
    q := Pace(p.calls + 1, p.waited + duration, p.polls);
    ok := Running(world, o, begun, q);
  }

  /** `readEventAfterPoll` */
  method ReadEventAfterPoll(
    ghost h: Server, world: nat -> Moment, o: Options, begun: int, p: Pace, e: Id)
    returns (q: Pace, latest: Option<EventDetail>)
    requires Honest(h, world) && ValidOptions(o) && InTime(world, o, begun, p)
    ensures InTime(world, o, begun, q) && p.calls <= q.calls
    ensures latest.Some? ==> q.calls > p.calls && Shows(h.Db(q.calls - 1), e, latest.value)
    ensures latest.Some? ==>
              && world(q.calls).extra + q.waited >= world(p.calls).extra + p.waited + o.pollInterval
              && Running(world, o, begun, p)
  {
    hide Shows, Honest;
    var ok;
    q, ok := Wait(h, world, o, begun, p, o.pollInterval);
    if !ok {
      return q, None;
    }
    q := q.(polls := q.polls + 1);
    assert q.polls * o.pollInterval == p.polls * o.pollInterval + o.pollInterval;
    Replies(h, world, q.calls);
    latest := world(q.calls).getEvent(e);
    q := q.(calls := q.calls + 1);
  }

  /** The event as some call showed it, and its generation 0. */
  datatype View = View(event: EventDetail, source: Id, ghost at: nat)

  ghost predicate Seen(h: Server, v: View, e: Id, calls: nat) {
    && v.at < calls && Shows(h.Db(v.at), e, v.event)
    && v.source in v.event.deliveries && v.event.deliveries[v.source].generation == 0
  }

  /** Poll until generation 0 has come to an end. In a replay tour that must be a dead letter, and
      no replay may appear before the tour asks for it. `ended` is set when the tour stops here. */
  method AwaitSource(
    ghost h: Server, world: nat -> Moment, o: Options, begun: int, p: Pace, e: Id, v: View)
    returns (q: Pace, w: View, ended: Option<Phase>)
    requires Honest(h, world) && ValidOptions(o) && InTime(world, o, begun, p)
    requires Seen(h, v, e, p.calls)
    ensures InTime(world, o, begun, q) && p.calls <= q.calls
    ensures Seen(h, w, e, q.calls) && v.at <= w.at && ended != Some(Verified)
    ensures ended.None? ==>
              var status := w.event.deliveries[w.source].status;
              Terminated(status) && (o.strategy == Replay ==> status == DeadLettered)
  {
    hide Shows, Honest, InTime;
    q, w, ended := p, v, None;
    while ended.None? && !(w.event.deliveries[w.source].status == DeadLettered
                           || (o.strategy != Replay
                               && w.event.deliveries[w.source].status == Delivered))
      invariant InTime(world, o, begun, q) && p.calls <= q.calls
      invariant Seen(h, w, e, q.calls) && v.at <= w.at && ended != Some(Verified)
      decreases ended.None?, begun + o.timeout - world(q.calls).extra - q.waited
    {
      if o.strategy == Replay
         && (w.event.deliveries[w.source].status == Delivered || HasGenerationAbove(w.event, 0)) {
        ended := Some(Failed);
      } else {
        var latest;
        q, latest := ReadEventAfterPoll(h, world, o, begun, q, e);
        if latest.None? {
          ended := Some(Paused);
        } else {
          var source := FindSource(latest.value);
          if source.None? {
            ended := Some(Failed);
          } else {
            w := View(latest.value, source.value, q.calls - 1);
          }
        }
      }
    }
  }

  /** The last loop: poll until the replay has come to an end. */
  method AwaitReplay(
    ghost h: Server, world: nat -> Moment, o: Options, begun: int, p: Pace, e: Id, v: View,
    replay: Id, ghost linkedAt: nat)
    returns (q: Pace, event: EventDetail, ended: Phase, ghost at: nat)
    requires Honest(h, world) && ValidOptions(o) && InTime(world, o, begun, p)
    requires v.at < p.calls && Shows(h.Db(v.at), e, v.event)
    requires linkedAt <= v.at && Linked(h.Db(linkedAt), v.source, replay)
    ensures InTime(world, o, begun, q) && p.calls <= q.calls
    ensures at < q.calls && Shows(h.Db(at), e, event)
    ensures ended == Verified ==>
              && replay in event.deliveries && event.deliveries[replay].status == Delivered
              && event.deliveries[replay].replayedFrom == Some(v.source)
              && v.source in event.deliveries
              && event.deliveries[v.source].status == DeadLettered
              && event.deliveries[v.source].generation == 0
  {
    hide Honest, InTime, Linked, Shows;
    q, event, at := p, v.event, v.at;
    var stopped: Option<Phase> := None;
    while stopped.None?
      invariant InTime(world, o, begun, q) && p.calls <= q.calls
      invariant linkedAt <= at < q.calls && Shows(h.Db(at), e, event)
      invariant stopped == Some(Verified) ==>
                  replay in event.deliveries && event.deliveries[replay].status == Delivered
      decreases stopped.None?, begun + o.timeout - world(q.calls).extra - q.waited
    {
      if replay !in event.deliveries && HasGenerationAbove(event, 0) {
        stopped := Some(Failed);
      } else if replay in event.deliveries && event.deliveries[replay].status == Delivered {
        stopped := Some(Verified);
      } else if replay in event.deliveries && event.deliveries[replay].status == DeadLettered {
        stopped := Some(Failed);
      } else {
        var latest;
        q, latest := ReadEventAfterPoll(h, world, o, begun, q, e);
        if latest.None? {
          stopped := Some(Paused);
        } else {
          event, at := latest.value, q.calls - 1;
        }
      }
    }
    ended := stopped.value;
    if ended == Verified {
      LinkShows(h, world, linkedAt, at, e, event, v.source, replay);
    }
  }

  /** A link seen before, in the event as shown now. */
  lemma LinkShows(h: Server, world: nat -> Moment, i: nat, j: nat, e: Id, event: EventDetail,
                  source: Id, replay: Id)
    requires Honest(h, world) && i <= j && Linked(h.Db(i), source, replay)
    requires Shows(h.Db(j), e, event) && replay in event.deliveries
    ensures event.deliveries[replay].replayedFrom == Some(source)
    ensures source in event.deliveries && event.deliveries[source].status == DeadLettered
    ensures event.deliveries[source].generation == 0
  {
    hide Lives;
    LinkedLater(h, i, j, source, replay);
  }

  /** Load the given event, or configure the receiver, publish under the story key, and load. */
  method Accept(ghost h: Server, world: nat -> Moment, o: Options, begun: int, p: Pace)
    returns (q: Pace, eventId: Option<Id>, event: Option<EventDetail>)
    requires Honest(h, world) && ValidOptions(o) && InTime(world, o, begun, p)
    ensures InTime(world, o, begun, q) && p.calls <= q.calls
    ensures o.eventId.Some? ==> eventId == o.eventId
    ensures o.eventId.None? && eventId.Some? ==> PublishedBefore(h, eventId.value, q.calls)
    ensures event.Some? ==> eventId.Some? && q.calls > 0
                            && Shows(h.Db(q.calls - 1), eventId.value, event.value)
  {
    hide Shows, Honest, HoldsKey;
    q, eventId, event := p, o.eventId, None;
    if eventId.None? {
      var preset := world(q.calls).presetConfirmed;
      q := Called(h, world, o, begun, q);
      if preset != Some(true) { return; }
      var endpoint := world(q.calls).endpoint;
      q := Called(h, world, o, begun, q);
      if endpoint.None? { return; }
      Replies(h, world, q.calls);
      eventId := world(q.calls).publish;
      q := Called(h, world, o, begun, q);
      if eventId.None? { return; }
    }
    Replies(h, world, q.calls);
    event := world(q.calls).getEvent(eventId.value);
    q := Called(h, world, o, begun, q);
  }

  ghost predicate PublishedBefore(h: Server, e: Id, calls: nat) {
    exists k: nat :: k < calls && HoldsKey(h.Db(k), h.storyKey, e)
  }

  /** One call is over. */
  method Called(ghost h: Server, world: nat -> Moment, o: Options, begun: int, p: Pace)
    returns (q: Pace)
    requires Honest(h, world) && InTime(world, o, begun, p)
    ensures q == p.(calls := p.calls + 1) && InTime(world, o, begun, q)
  {
    Replies(h, world, p.calls);
    q := p.(calls := p.calls + 1);
  }

  method PauseForPresentation(
    ghost h: Server, world: nat -> Moment, o: Options, begun: int, p: Pace)
    returns (q: Pace, ok: bool)
    requires Honest(h, world) && ValidOptions(o) && InTime(world, o, begun, p)
    ensures InTime(world, o, begun, q) && p.calls <= q.calls
  {
    q, ok := p, true;
    if o.presentationPause > 0 {
      q, ok := Wait(h, world, o, begun, p, o.presentationPause);
    }
  }

  /** A tour without a recovery replay: the receiver recovers by itself, or rejects for good. */
  method FollowOriginal(
    ghost h: Server, world: nat -> Moment, o: Options, begun: int, p: Pace, e: Id, v: View)
    returns (q: Pace, w: View, phase: Phase)
    requires Honest(h, world) && ValidOptions(o) && InTime(world, o, begun, p)
    requires Seen(h, v, e, p.calls) && o.strategy != Replay
    ensures InTime(world, o, begun, q) && p.calls <= q.calls && Seen(h, w, e, q.calls)
    ensures phase == Verified ==>
              w.event.deliveries[w.source].status
              == (if o.strategy == Automatic then Delivered else DeadLettered)
  {
    hide Shows, Honest, InTime;
    q, w, phase := p, v, Failed;
    if HasGenerationAbove(v.event, 0) { return; }
    var ended;
    q, w, ended := AwaitSource(h, world, o, begun, p, e, v);
    if ended.Some? {
      phase := ended.value;
    } else if o.strategy == Automatic {
      phase := if w.event.deliveries[w.source].status == Delivered then Verified else Failed;
    } else if w.event.deliveries[w.source].status == DeadLettered {
      var proven := world(q.calls).rejectionProven;
      q := Called(h, world, o, begun, q);
      phase := if proven.None? then Paused else if proven.value then Verified else Failed;
    }
  }

  /** The receiver is confirmed to accept again, between two pauses for presentation. */
  method RestoreReceiver(
    ghost h: Server, world: nat -> Moment, o: Options, begun: int, p: Pace)
    returns (q: Pace, ok: bool)
    requires Honest(h, world) && ValidOptions(o) && InTime(world, o, begun, p)
    ensures InTime(world, o, begun, q) && p.calls <= q.calls
  {
    hide Honest, InTime;
    q, ok := PauseForPresentation(h, world, o, begun, p);
    if !ok { return; }
    var restored := world(q.calls).presetConfirmed;
    q := Called(h, world, o, begun, q);
    ok := restored == Some(true);
    if !ok { return; }
    q, ok := PauseForPresentation(h, world, o, begun, q);
  }

  /** Wait for the dead letter, restore the receiver, and ask for the replay under the tour's key. The
      id the server returned is kept even when the event cannot be loaded again. */
  method AuthorizeReplay(
    ghost h: Server, world: nat -> Moment, o: Options, begun: int, p: Pace, e: Id, v: View)
    returns (q: Pace, w: View, replay: Option<Id>, ready: bool, ended: Phase, ghost linkedAt: nat)
    requires Honest(h, world) && ValidOptions(o) && InTime(world, o, begun, p)
    requires Seen(h, v, e, p.calls) && o.strategy == Replay
    ensures InTime(world, o, begun, q) && p.calls <= q.calls
    ensures w.at < q.calls && Shows(h.Db(w.at), e, w.event) && ended != Verified
    ensures replay.Some? ==> linkedAt < q.calls
                             && LinkedFor(h.Db(linkedAt), w.source, replay.value, e)
    ensures ready ==> replay.Some? && linkedAt <= w.at
  {
    hide Shows, Honest, InTime, LinkedFor;
    replay, ready, linkedAt := None, false, 0;
    var stopped, ok;
    q, w, stopped := AwaitSource(h, world, o, begun, p, e, v);
    ended := if stopped.Some? then stopped.value else Paused;
    if stopped.Some? { return; }
    q, ok := RestoreReceiver(h, world, o, begun, q);
    if !ok { return; }
    q, w, replay, ready, linkedAt := RequestReplay(h, world, o, begun, q, e, w);
  }

  /** Ask for the replay and load the event again. */
  method RequestReplay(
    ghost h: Server, world: nat -> Moment, o: Options, begun: int, p: Pace, e: Id, v: View)
    returns (q: Pace, w: View, replay: Option<Id>, ready: bool, ghost linkedAt: nat)
    requires Honest(h, world) && ValidOptions(o) && InTime(world, o, begun, p)
    requires Seen(h, v, e, p.calls)
    ensures InTime(world, o, begun, q) && p.calls <= q.calls
    ensures w.at < q.calls && Shows(h.Db(w.at), e, w.event)
    ensures replay.Some? ==> linkedAt < q.calls
                             && LinkedFor(h.Db(linkedAt), w.source, replay.value, e)
    ensures ready ==> replay.Some? && linkedAt <= w.at
  {
    hide Shows, Honest, InTime, LinkedFor, IsReplayOf;
    w, ready, linkedAt := v, false, p.calls;
    Replies(h, world, p.calls);
    replay := world(p.calls).replay(v.source);
    q := Called(h, world, o, begun, p);
    if replay.None? { return; }
    SourceOfReply(h, world, v, e, linkedAt, replay.value);
    Replies(h, world, q.calls);
    var reloaded := world(q.calls).getEvent(e);
    q := Called(h, world, o, begun, q);
    if reloaded.None? { return; }
    w, ready := View(reloaded.value, v.source, q.calls - 1), true;
  }

  /** The replay the server returned is linked to the source the tour named. */
  lemma SourceOfReply(
    h: Server, world: nat -> Moment, v: View, e: Id, i: nat, replay: Id)
    requires Honest(h, world) && Seen(h, v, e, i) && IsReplayOf(h.Db(i), v.source, h.replayKey, replay)
    ensures LinkedFor(h.Db(i), v.source, replay, e)
  {
    hide Lives, SysInv, Evolves, Inv;
    LaterEvolves(h, v.at, i);
    InvOfSys(h.settings, h.systems(v.at));
    InvOfSys(h.settings, h.systems(i));
    ReplayHasSource(h.settings, h.Db(i), replay);
    RowEvolved(h.systems(v.at), h.Db(i), v.source);
  }

  /** Resume with a replay that is known: it must be in the event and made of its generation 0. */
  method ConfirmReplay(
    ghost h: Server, world: nat -> Moment, o: Options, begun: int, p: Pace, e: Id, v: View,
    replay: Id)
    returns (q: Pace, w: View, ok: bool, ended: Phase)
    requires Honest(h, world) && ValidOptions(o) && InTime(world, o, begun, p)
    requires Seen(h, v, e, p.calls)
    ensures InTime(world, o, begun, q) && p.calls <= q.calls
    ensures w.at < q.calls && Shows(h.Db(w.at), e, w.event) && ended != Verified
    ensures ok ==> Linked(h.Db(w.at), w.source, replay)
  {
    hide Honest, InTime, Shows, Linked;
    q, w, ok, ended := p, v, false, Failed;
    if replay !in v.event.deliveries {
      Replies(h, world, q.calls);
      var reloaded := world(q.calls).getEvent(e);
      q := Called(h, world, o, begun, q);
      if reloaded.None? { ended := Paused; return; }
      w := View(reloaded.value, v.source, q.calls - 1);
    }
    if replay !in w.event.deliveries { return; }
    var row := w.event.deliveries[replay];
    if row.replayedFrom != Some(v.source) { return; }
    SourceStays(h, world, v, w, e, replay);
    if !Terminated(row.status) {
      var restored := world(q.calls).presetConfirmed;
      q := Called(h, world, o, begun, q);
      if restored != Some(true) { ended := Paused; return; }
    }
    ok := true;
  }

  lemma SourceStays(h: Server, world: nat -> Moment, v: View, w: View, e: Id, replay: Id)
    requires Honest(h, world) && v.at <= w.at && Seen(h, v, e, w.at + 1)
    requires Shows(h.Db(w.at), e, w.event) && replay in w.event.deliveries
    requires w.event.deliveries[replay].replayedFrom == Some(v.source)
    ensures Linked(h.Db(w.at), v.source, replay)
  {
    hide Lives, SysInv, Evolves, Inv;
    LaterEvolves(h, v.at, w.at);
    InvOfSys(h.settings, h.systems(v.at));
    InvOfSys(h.settings, h.systems(w.at));
    ReplayHasSource(h.settings, h.Db(w.at), replay);
    RowEvolved(h.systems(v.at), h.Db(w.at), v.source);
  }

  /** Some call saw the replay made of generation 0 of event e. */
  ghost predicate SuccessorSeen(h: Server, e: Id, replay: Id, calls: nat) {
    exists k: nat, source :: k < calls && LinkedFor(h.Db(k), source, replay, e)
  }

  /** The replay a tour reports is the one it was resumed with, or a successor the server made. */
  ghost predicate KeepsReplay(h: Server, o: Options, e: Id, replay: Option<Id>, calls: nat) {
    && (o.replayDeliveryId.Some? ==> replay == o.replayDeliveryId)
    && (o.replayDeliveryId.None? && replay.Some? ==> SuccessorSeen(h, e, replay.value, calls))
  }

  lemma SeenSuccessor(h: Server, e: Id, source: Id, replay: Id, k: nat, calls: nat)
    requires k < calls && LinkedFor(h.Db(k), source, replay, e)
    ensures SuccessorSeen(h, e, replay, calls)
  {
  }

  lemma SuccessorStaysSeen(h: Server, e: Id, replay: Id, before: nat, after: nat)
    requires before <= after && SuccessorSeen(h, e, replay, before)
    ensures SuccessorSeen(h, e, replay, after)
  {
  }

  /** The replay to follow: the one this tour was resumed with, else the one an ambiguous earlier call
      may already have made. */
  method KnownReplay(
    ghost h: Server, world: nat -> Moment, o: Options, begun: int, p: Pace, e: Id, v: View)
    returns (q: Pace, replay: Option<Id>, ok: bool)
    requires Honest(h, world) && ValidOptions(o) && InTime(world, o, begun, p)
    requires Seen(h, v, e, p.calls)
    ensures InTime(world, o, begun, q) && p.calls <= q.calls
    ensures KeepsReplay(h, o, e, replay, q.calls)
  {
    hide Shows, Honest, InTime, LinkedFor, IsReplayOf, SuccessorSeen;
    q, replay, ok := p, o.replayDeliveryId, true;
    if HasGenerationAbove(v.event, 0) && replay.None? {
      Replies(h, world, p.calls);
      replay := world(p.calls).replay(v.source);
      q := Called(h, world, o, begun, p);
      ok := replay.Some?;
      if ok {
        SourceOfReply(h, world, v, e, p.calls, replay.value);
        SeenSuccessor(h, e, v.source, replay.value, p.calls, q.calls);
      }
    }
  }

  /** A replay tour: authorize the replay, or pick up the one that is known, and see it through. */
  method FollowReplay(
    ghost h: Server, world: nat -> Moment, o: Options, begun: int, p: Pace, e: Id, v: View)
    returns (q: Pace, w: View, replay: Option<Id>, phase: Phase)
    requires Honest(h, world) && ValidOptions(o) && InTime(world, o, begun, p)
    requires Seen(h, v, e, p.calls) && o.strategy == Replay
    ensures InTime(world, o, begun, q) && p.calls <= q.calls
    ensures w.at < q.calls && Shows(h.Db(w.at), e, w.event)
    ensures KeepsReplay(h, o, e, replay, q.calls)
    ensures phase == Verified ==>
              && replay.Some? && replay.value in w.event.deliveries
              && w.event.deliveries[replay.value].status == Delivered
              && w.event.deliveries[replay.value].replayedFrom == Some(w.source)
              && w.source in w.event.deliveries
              && w.event.deliveries[w.source].status == DeadLettered
              && w.event.deliveries[w.source].generation == 0
  {
    hide Shows, Honest, InTime, Linked, SuccessorSeen;
    w, phase := v, Paused;
    var ok;
    q, replay, ok := KnownReplay(h, world, o, begun, p, e, v);
    if !ok { return; }
    ghost var linkedAt, seenBy := 0, q.calls;
    if replay.None? {
      q, w, replay, ok, phase, linkedAt := AuthorizeReplay(h, world, o, begun, q, e, v);
      if replay.Some? { SeenSuccessor(h, e, w.source, replay.value, linkedAt, q.calls); }
      seenBy := q.calls;
    } else {
      q, w, ok, phase := ConfirmReplay(h, world, o, begun, q, e, v, replay.value);
      linkedAt := w.at;
    }
    if ok {
      var event;
      ghost var at;
      q, event, phase, at := AwaitReplay(h, world, o, begun, q, e, w, replay.value, linkedAt);
      w := View(event, w.source, at);
    }
    if o.replayDeliveryId.None? && replay.Some? {
      SuccessorStaysSeen(h, e, replay.value, seenBy, q.calls);
    }
  }

  /** From the accepted event on, by the strategy of the scenario. */
  method Follow(
    ghost h: Server, world: nat -> Moment, o: Options, begun: int, p: Pace, e: Id, v: View)
    returns (q: Pace, r: Outcome, ghost at: nat)
    requires Honest(h, world) && ValidOptions(o) && InTime(world, o, begun, p)
    requires Seen(h, v, e, p.calls)
    ensures InTime(world, o, begun, q) && p.calls <= q.calls && r.eventId == Some(e)
    ensures KeepsReplay(h, o, e, r.replayId, q.calls)
    ensures r.phase == Verified ==>
              Proven(o, r) && at < q.calls && Shows(h.Db(at), e, r.event.value)
  {
    hide Shows, Honest, InTime, SuccessorSeen;
    var w, phase, replay := v, Paused, o.replayDeliveryId;
    if o.strategy == Replay {
      q, w, replay, phase := FollowReplay(h, world, o, begun, p, e, v);
    } else {
      q, w, phase := FollowOriginal(h, world, o, begun, p, e, v);
    }
    at := w.at;
    ShowsItsEvent(h.Db(at), e, w.event);
    r := Outcome(phase, Some(e), Some(w.event), Some(w.source), replay);
  }

  /** What every result can be resumed from: an event it was given or published under the story key,
      and a replay it was given or that the server made of that event's generation 0. */
  ghost predicate Reports(h: Server, o: Options, r: Outcome, calls: nat) {
    && (o.eventId.Some? ==> r.eventId == o.eventId)
    && (o.eventId.None? && r.eventId.Some? ==> PublishedBefore(h, r.eventId.value, calls))
    && (r.eventId.None? ==> r.replayId == o.replayDeliveryId)
    && (r.eventId.Some? ==> KeepsReplay(h, o, r.eventId.value, r.replayId, calls))
  }

  /** One run of the tour, from a new run id or resumed from what an earlier run returned. It always
      comes to an end, by the deadline if every wait advances the clock; a reported "verified" was
      true of the server when it was read; and an event it published holds its story key. */
  method RunReliabilityTour(ghost h: Server, world: nat -> Moment, o: Options)
    returns (r: Outcome, p: Pace, ghost at: nat)
    requires Honest(h, world) && ValidOptions(o)
    ensures r.phase == Verified ==>
              Proven(o, r) && at < p.calls && Shows(h.Db(at), r.event.value.id, r.event.value)
    ensures Reports(h, o, r, p.calls)
    ensures p.polls >= 1 ==> (p.polls - 1) * o.pollInterval < o.timeout
  {
    hide Shows, Honest, PublishedBefore, InTime, SuccessorSeen;
    var begun := world(0).extra;
    p, at := Pace(0, 0, 0), 0;
    StartsInTime(world, o);
    r := Outcome(Paused, o.eventId, None, None, o.replayDeliveryId);
    if !Running(world, o, begun, p) { return; }
    var eventId, event, ok;
    p, eventId, event := Accept(h, world, o, begun, p);
    r := r.(eventId := eventId, event := event);
    PollsInTime(world, o, begun, p);
    if event.None? { return; }
    ghost var accepted := p.calls;
    at := p.calls - 1;
    if event.value.scenario.Some? && event.value.scenario.value != o.scenarioId {
      r := r.(phase := Failed);
      return;
    }
    p, ok := PauseForPresentation(h, world, o, begun, p);
    PublishedStays(h, accepted, p.calls);
    PollsInTime(world, o, begun, p);
    if !ok { return; }
    var source := FindSource(event.value);
    if source.None? || HasGenerationAbove(event.value, 1) {
      r := r.(phase := Failed);
      return;
    }
    var v := View(event.value, source.value, at);
    p, r, at := Follow(h, world, o, begun, p, eventId.value, v);
    PublishedStays(h, accepted, p.calls);
    PollsInTime(world, o, begun, p);
  }

  lemma StartsInTime(world: nat -> Moment, o: Options)
    requires ValidOptions(o)
    ensures InTime(world, o, world(0).extra, Pace(0, 0, 0))
  {
  }

  lemma PollsInTime(world: nat -> Moment, o: Options, begun: int, p: Pace)
    requires InTime(world, o, begun, p)
    ensures p.polls >= 1 ==> (p.polls - 1) * o.pollInterval < o.timeout
  {
  }

  lemma PublishedStays(h: Server, before: nat, after: nat)
    requires before <= after
    ensures forall e | PublishedBefore(h, e, before) :: PublishedBefore(h, e, after)
  {
  }

  lemma ShowsItsEvent(db: DB, e: Id, event: EventDetail)
    requires Shows(db, e, event)
    ensures event.id == e
  {
  }

  // ----- any number of runs -----

  /** What a verified tour saw stays so: in every later state that still has the replay, generation
      0 is dead-lettered, and the replay is linked to it and delivered. */
  lemma VerifiedStays(h: Server, o: Options, r: Outcome, i: nat, j: nat)
    requires Lives(h) && i <= j && o.strategy == Replay
    requires Proven(o, r) && Shows(h.Db(i), r.event.value.id, r.event.value)
    requires r.replayId.value in h.Db(j).deliveries
    ensures Linked(h.Db(j), r.sourceId.value, r.replayId.value)
    ensures h.Db(j).deliveries[r.sourceId.value].status == DeadLettered
    ensures h.Db(j).deliveries[r.replayId.value].status == Delivered
  {
    hide Lives, Evolves, SysInv;
    LinkedLater(h, i, j, r.sourceId.value, r.replayId.value);
    LaterEvolves(h, i, j);
    InvOfSys(h.settings, h.systems(i));
    RowEvolved(h.systems(i), h.Db(j), r.replayId.value);
  }

  /** One run of the tour against a server that others use too: its i-th call returns at moment
      `clock(i)` of the server. */
  datatype Execution = Execution(
    world: nat -> Moment, clock: nat -> nat, o: Options, r: Outcome, calls: nat)

  /** The server as this run's calls find it. */
  function AsSeenBy(h: Server, x: Execution): Server {
    h.(systems := (i: nat) => h.systems(x.clock(i)))
  }

  /** The run took place against this server, and returned what every run does. */
  ghost predicate TookPlace(h: Server, x: Execution) {
    && (forall i: nat :: x.clock(i) <= x.clock(i + 1))
    && Honest(AsSeenBy(h, x), x.world) && Reports(AsSeenBy(h, x), x.o, x.r, x.calls)
  }

  /** Each run is new, or resumed from what an earlier one returned. */
  ghost predicate Session(h: Server, xs: seq<Execution>) {
    && (forall i | 0 <= i < |xs| :: TookPlace(h, xs[i]))
    && (forall i | 0 <= i < |xs| :: StartsFrom(xs, i))
  }

  ghost predicate StartsFrom(xs: seq<Execution>, i: nat)
    requires i < |xs|
  {
    || (xs[i].o.eventId.None? && xs[i].o.replayDeliveryId.None?)
    || (exists j :: 0 <= j < i && xs[j].r.eventId.Some? && xs[i].o.eventId == xs[j].r.eventId
                    && xs[i].o.replayDeliveryId == xs[j].r.replayId)
  }

  lemma {:induction false} ClockIsMonotone(x: Execution, i: nat, j: nat)
    requires (forall k: nat :: x.clock(k) <= x.clock(k + 1)) && i <= j
    ensures x.clock(i) <= x.clock(j)
    decreases j
  {
    if i < j {
      ClockIsMonotone(x, i, j - 1);
      assert x.clock(j - 1) <= x.clock(j - 1 + 1);
    }
  }

  /** By moment `end` of the server, all the runs are over. */
  predicate OverBy(xs: seq<Execution>, end: nat) {
    forall i | 0 <= i < |xs| :: xs[i].clock(xs[i].calls) <= end
  }

  /** Behind every result's event is one acceptance under the story key. */
  lemma {:induction false} EventWasPublished(h: Server, xs: seq<Execution>, end: nat, i: nat)
    returns (t: nat)
    requires Session(h, xs) && OverBy(xs, end) && i < |xs| && xs[i].r.eventId.Some?
    ensures t <= end && HoldsKey(h.Db(t), h.storyKey, xs[i].r.eventId.value)
    decreases i
  {
    hide Honest, HoldsKey, KeepsReplay;
    var x := xs[i];
    assert TookPlace(h, x) && StartsFrom(xs, i);
    if x.o.eventId.None? {
      assert PublishedBefore(AsSeenBy(h, x), x.r.eventId.value, x.calls);
      var k: nat :| k < x.calls && HoldsKey(AsSeenBy(h, x).Db(k), h.storyKey, x.r.eventId.value);
      ClockIsMonotone(x, k, x.calls);
      t := x.clock(k);
    } else {
      var j :| 0 <= j < i && xs[j].r.eventId.Some? && x.o.eventId == xs[j].r.eventId;
      t := EventWasPublished(h, xs, end, j);
    }
  }

  /** Behind every result's replay is a successor the server made of generation 0 of its event. */
  lemma {:induction false} ReplayWasMade(h: Server, xs: seq<Execution>, end: nat, i: nat)
    returns (t: nat, source: Id)
    requires Session(h, xs) && OverBy(xs, end) && i < |xs|
    requires xs[i].r.eventId.Some? && xs[i].r.replayId.Some?
    ensures t <= end
    ensures LinkedFor(h.Db(t), source, xs[i].r.replayId.value, xs[i].r.eventId.value)
    decreases i
  {
    hide Honest, LinkedFor, PublishedBefore;
    var x := xs[i];
    assert TookPlace(h, x) && StartsFrom(xs, i);
    if x.o.replayDeliveryId.None? {
      assert SuccessorSeen(AsSeenBy(h, x), x.r.eventId.value, x.r.replayId.value, x.calls);
      var k: nat, s :| k < x.calls
        && LinkedFor(AsSeenBy(h, x).Db(k), s, x.r.replayId.value, x.r.eventId.value);
      ClockIsMonotone(x, k, x.calls);
      t, source := x.clock(k), s;
    } else {
      var j :| 0 <= j < i && xs[j].r.eventId.Some? && x.o.eventId == xs[j].r.eventId
               && x.o.replayDeliveryId == xs[j].r.replayId;
      t, source := ReplayWasMade(h, xs, end, j);
    }
  }

  /** Any number of runs with one run id, started, paused and resumed at any moments of one server:
      once they are over, the events they report that are retained are one event, and the replays
      they report that are retained are one delivery, the successor of its generation 0. */
  lemma RunsShareOneStory(h: Server, xs: seq<Execution>, end: nat, i: nat, j: nat)
    requires Lives(h) && Session(h, xs) && OverBy(xs, end) && i < |xs| && j < |xs|
    requires xs[i].r.eventId.Some? && xs[i].r.eventId.value in h.Db(end).events
    requires xs[j].r.eventId.Some? && xs[j].r.eventId.value in h.Db(end).events
    ensures xs[i].r.eventId == xs[j].r.eventId
    ensures xs[i].r.replayId.Some? && xs[i].r.replayId.value in h.Db(end).deliveries
            && xs[j].r.replayId.Some? && xs[j].r.replayId.value in h.Db(end).deliveries
            ==> xs[i].r.replayId == xs[j].r.replayId
  {
    hide Lives, Session, OverBy;
    var t1 := EventWasPublished(h, xs, end, i);
    var t2 := EventWasPublished(h, xs, end, j);
    OneEvent(h, t1, t2, end, xs[i].r.eventId.value, xs[j].r.eventId.value);
    var r1, r2 := xs[i].r.replayId, xs[j].r.replayId;
    if r1.Some? && r1.value in h.Db(end).deliveries
       && r2.Some? && r2.value in h.Db(end).deliveries {
      var u1, s1 := ReplayWasMade(h, xs, end, i);
      var u2, s2 := ReplayWasMade(h, xs, end, j);
      OneReplay(h, u1, u2, end, xs[i].r.eventId.value, s1, s2, r1.value, r2.value);
    }
  }

  lemma OneEvent(h: Server, t1: nat, t2: nat, end: nat, e1: Id, e2: Id)
    requires Lives(h) && t1 <= end && t2 <= end
    requires HoldsKey(h.Db(t1), h.storyKey, e1) && HoldsKey(h.Db(t2), h.storyKey, e2)
    requires e1 in h.Db(end).events && e2 in h.Db(end).events
    ensures e1 == e2
  {
    hide Lives, SysInv, Evolves, Inv, UsedCovers;
    KeyStays(h, t1, end, e1);
    KeyStays(h, t2, end, e2);
    LaterEvolves(h, end, end);
    InvOfSys(h.settings, h.systems(end));
    InvGivesUniqueEvents(h.settings, h.Db(end));
    KeyHolderIsUnique(h.Db(end), h.storyKey, e1, e2);
  }

  lemma KeyStays(h: Server, t: nat, end: nat, e: Id)
    requires Lives(h) && t <= end && HoldsKey(h.Db(t), h.storyKey, e) && e in h.Db(end).events
    ensures HoldsKey(h.Db(end), h.storyKey, e)
  {
    hide Lives, SysInv, Inv;
    LaterEvolves(h, t, end);
    InvOfSys(h.settings, h.systems(t));
    assert e in h.systems(t).used;
  }

  lemma OneReplay(
    h: Server, t1: nat, t2: nat, end: nat, e: Id, s1: Id, s2: Id, r1: Id, r2: Id)
    requires Lives(h) && t1 <= end && t2 <= end
    requires LinkedFor(h.Db(t1), s1, r1, e) && LinkedFor(h.Db(t2), s2, r2, e)
    requires r1 in h.Db(end).deliveries && r2 in h.Db(end).deliveries
    ensures r1 == r2
  {
    hide Lives, SysInv, Inv, Evolves, UsedCovers;
    LinkedLater(h, t1, end, s1, r1);
    LinkedLater(h, t2, end, s2, r2);
    LaterEvolves(h, end, end);
    InvOfSys(h.settings, h.systems(end));
    OneGenerationZero(h.settings, h.Db(end), s1, s2);
    OneSuccessor(h.settings, h.Db(end), r1, r2);
  }

  lemma OneGenerationZero(s: Settings, db: DB, d1: Id, d2: Id)
    requires Inv(s, db) && d1 in db.deliveries && d2 in db.deliveries
    requires db.deliveries[d1].eventId == db.deliveries[d2].eventId
    requires db.deliveries[d1].generation == db.deliveries[d2].generation
    ensures d1 == d2
  {
    hide RowChecks, UniqueEvents, UniqueAttempts, ForeignKeys, Ledger, LineageOf, HasInitial;
    OneEndpointPerEvent(db, d1, d2);
    var row1, row2 := db.deliveries[d1], db.deliveries[d2];
    assert d1 != d2 ==> !DeliveriesClash(row1, row2);
  }
}
