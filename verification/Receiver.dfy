/** `ReceiverState` and its endpoints (backend/src/eventharbor/receiver_lab/api.py) as objects that
    are updated in place: each run is an object the registry points to. Every operation is proved
    to do exactly what `ReceiverRegistry` says. */
module Receiver {
  import opened Schema
  import opened ReceiverLab
  import opened ReceiverRegistry

  class ReceiverRunState {
    var configuration: Configuration
    var scenarioAttempts: nat
    var sequence: nat
    var requests: seq<Evidence>

    constructor ()
      ensures Contents() == FRESH_RUN
    {
      configuration := Configuration(Success, 0, 0);
      scenarioAttempts, sequence, requests := 0, 0, [];
    }

    function Contents(): (run: Run)
      reads this
      ensures run.configuration == configuration && run.scenarioAttempts == scenarioAttempts
      ensures run.sequence == sequence && run.requests == requests
    {
      Run(configuration, scenarioAttempts, sequence, requests)
    }

    method Reconfigure(configuration: Configuration)
      modifies this
      ensures Contents() == Reconfigured(old(Contents()), configuration)
    {
      this.configuration := configuration;
      scenarioAttempts := 0;
    }

    /** The status of a request, from the configured mode and the requests counted so far. */
    method ChooseStatus(error: Option<string>) returns (status: int)
      ensures status == StatusFor(configuration, scenarioAttempts, error)
    {
      if error.Some? {
        status := 400;
      } else if configuration.mode == RateLimited {
        var active := configuration.failures == 0 || scenarioAttempts <= configuration.failures;
        status := if active then 429 else 200;
      } else if configuration.mode == FailThenSucceed && scenarioAttempts <= configuration.failures {
        status := 503;
      } else {
        status := 200;
      }
    }

    /** Keep a new entry of evidence, and at most the newest hundred entries. */
    method Record(evidence: Evidence)
      modifies this`requests
      ensures requests == LastN(old(requests) + [evidence], MAX_REQUESTS_PER_RUN)
    {
      requests := requests + [evidence];
      requests := LastN(requests, MAX_REQUESTS_PER_RUN);
    }

    /** What the locked part of `receive_webhook` does to the run it found. */
    method Answer(q: Request) returns (status: int, code: string)
      modifies this
      ensures Contents() == Answered(old(Contents()), q)
      ensures status == EvidenceOf(old(Contents()), q).status
      ensures code == ResponseCode(status, ErrorOf(configuration, q))
    {
      hide PayloadError, StatusFor, ResponseCode, LastN;
      ghost var before := Contents();
      scenarioAttempts := scenarioAttempts + 1;
      sequence := sequence + 1;
      var error := PayloadError(q.body, q.channel,
                                q.channel.Some? || configuration.mode == PermanentFailure);
      status := ChooseStatus(error);
      code := ResponseCode(status, error);
      var route :=
        if q.channel.Some? && q.channel.value != "" then q.channel.value else "legacy-generic";
      var evidence := Evidence(sequence, scenarioAttempts, q.deliveryId, route, q.attempt,
                               q.receivedAt, status, configuration.mode, q.signed, q.body);
      assert evidence == EvidenceOf(before, q);
      Record(evidence);
    }
  }

  /** The runs a dictionary points to. */
  ghost function Snapshot(m: map<string, ReceiverRunState>): map<string, Run>
    reads m.Values
  {
    map r | r in m :: m[r].Contents()
  }

  /** No two keys share an object. */
  predicate Separated(fallback: ReceiverRunState, m: map<string, ReceiverRunState>) {
    && (forall r | r in m :: m[r] != fallback)
    && (forall r1, r2 | r1 in m && r2 in m && r1 != r2 :: m[r1] != m[r2])
  }

  /** Storing the object found under a key, or an object no key has, and evicting others. */
  lemma SeparatedAfterPut(
    fallback: ReceiverRunState, m: map<string, ReceiverRunState>, r: string,
    state: ReceiverRunState, order: seq<string>)
    requires Separated(fallback, m)
    requires if r in m then m[r] == state else state != fallback && state !in m.Values
    ensures Separated(fallback, Evict(order, m[r := state]).1)
  {
    hide Evict;
    var put := m[r := state];
    assert forall s | s in m :: m[s] in m.Values;
    assert Separated(fallback, put);
    SnapshotEvict(order, put);
  }

  lemma SnapshotKeys(m: map<string, ReceiverRunState>)
    ensures Snapshot(m).Keys == m.Keys
    ensures forall r | r in m :: Snapshot(m)[r] == m[r].Contents()
  {
  }

  lemma SnapshotInsert(m: map<string, ReceiverRunState>, r: string, state: ReceiverRunState)
    ensures Snapshot(m[r := state]) == Snapshot(m)[r := state.Contents()]
  {
  }

  /** Evicting objects evicts what they point to. */
  lemma SnapshotEvict(order: seq<string>, m: map<string, ReceiverRunState>)
    ensures Evict(order, m).1.Values <= m.Values
    ensures Evict(order, Snapshot(m)) == (Evict(order, m).0, Snapshot(Evict(order, m).1))
    ensures forall r | r in Evict(order, m).1 :: r in m && Evict(order, m).1[r] == m[r]
  {
    hide Evict;
    EvictRestricts(order, m);
    EvictRestricts(order, Snapshot(m));
    var gone := Ids(order[..|order| - |LastN(order, MAX_SCOPED_RUNS)|]);
    assert Snapshot(m) - gone == Snapshot(m - gone);
  }

  /** A request writes the one run it denotes, after touching it. */
  lemma ReceiveIsOneWrite(before: Registry, q: Request)
    requires WellFormed(before)
    ensures var found, key := Touched(before, q.runId), Target(before, q.runId);
            && Held(before, key) && Held(found, key) && StateOf(found, key) == StateOf(before, key)
            && Answered(StateOf(before, key), q).configuration == StateOf(before, key).configuration
            && WithState(found, key, Answered(StateOf(before, key), q)) == Step(before, Receive(q))
            && WellFormed(Step(before, Receive(q)))
  {
    StepKeepsWellFormed(before, Receive(q));
    hide WellFormed, EvidenceOf;
  }

  class ReceiverState {
    var fallback: ReceiverRunState
    /** The ordered dictionary: its keys, oldest first, and its values. */
    var order: seq<string>
    var scoped: map<string, ReceiverRunState>

    constructor ()
      ensures Valid() && fresh(fallback) && Contents() == EMPTY_REGISTRY
    {
      fallback := new ReceiverRunState();
      order, scoped := [], map[];
    }

    ghost predicate Valid()
      reads this, fallback, scoped.Values
    {
      Separated(fallback, scoped) && WellFormed(Contents())
    }

    ghost function Contents(): Registry
      reads this, fallback, scoped.Values
    {
      Registry(fallback.Contents(), order, Snapshot(scoped))
    }

    /** The objects this state may write. */
    ghost function Repr(): set<object>
      reads this
    {
      {this, fallback} + scoped.Values
    }

    method Reset()
      requires Valid()
      modifies this
      ensures Valid() && Contents() == Step(old(Contents()), Operation.Reset)
      ensures fresh(Repr() - old(Repr()))
    {
      fallback := new ReceiverRunState();
      order, scoped := [], map[];
    }

    /** The object a key denotes after the call. */
    ghost predicate Denotes(key: Option<string>, state: ReceiverRunState)
      reads this
    {
      if key.None? then state == fallback else key.value in scoped && scoped[key.value] == state
    }

    /** Drop the least recently touched keys while there are more than the registry may hold. */
    method EvictOldest()
      modifies this
      ensures (order, scoped) == Evict(old(order), old(scoped)) && fallback == old(fallback)
    {
      while |order| > MAX_SCOPED_RUNS
        invariant Evict(order, scoped) == Evict(old(order), old(scoped))
        invariant fallback == old(fallback)
      {
        order, scoped := order[1..], scoped - {order[0]};
      }
    }

    /** Insert a state at the end of the order, and evict what is then too much. */
    method Put(r: string, state: ReceiverRunState)
      modifies this
      ensures (order, scoped) == Evict(Without(old(order), r) + [r], old(scoped)[r := state])
      ensures fallback == old(fallback)
    {
      hide *;
      order, scoped := Without(order, r) + [r], scoped[r := state];
      EvictOldest();
    }

    lemma IsValid()
      ensures Valid() <==> Separated(fallback, scoped) && WellFormed(Contents())
    {
    }

    lemma OwnObjects()
      ensures Repr() == {this, fallback} + scoped.Values
    {
    }

    lemma ContentsOf()
      ensures Contents() == Registry(fallback.Contents(), order, Snapshot(scoped))
      ensures Contents().order == order && Contents().fallback == fallback.Contents()
      ensures Contents().runs.Keys == scoped.Keys
      ensures forall r | r in scoped :: Contents().runs[r] == scoped[r].Contents()
    {
    }

    method ConfiguredState(runId: Option<string>) returns (state: ReceiverRunState)
      requires Valid()
      modifies this
      ensures Valid() && Contents() == Admitted(old(Contents()), runId)
      ensures Denotes(runId, state) && fallback == old(fallback)
      ensures fresh(Repr() - old(Repr()))
    {
      hide *;
      IsValid();
      OwnObjects();
      NoneIsHeld();
      if runId.None? {
        return fallback;
      }
      var r := runId.value;
      if r in scoped {
        state := scoped[r];
      } else {
        state := new ReceiverRunState();
      }
      PutAdmits(r, state);
      Put(r, state);
      IsValid();
      OwnObjects();
      ContentsOf();
      IsDenoted(r, state);
    }

    lemma NoneIsHeld()
      ensures Admitted(Contents(), None) == Contents() && Denotes(None, fallback)
    {
    }

    lemma IsDenoted(r: string, state: ReceiverRunState)
      requires r in scoped && scoped[r] == state
      ensures Denotes(Some(r), state)
    {
    }

    /** What inserting the run's state and evicting come to. */
    lemma PutAdmits(r: string, state: ReceiverRunState)
      requires Valid()
      requires if r in scoped then state == scoped[r]
               else state != fallback && state !in scoped.Values && state.Contents() == FRESH_RUN
      ensures var kept := Evict(Without(order, r) + [r], scoped[r := state]);
              && Admitted(Contents(), Some(r))
                 == Registry(fallback.Contents(), kept.0, Snapshot(kept.1))
              && WellFormed(Admitted(Contents(), Some(r))) && Separated(fallback, kept.1)
              && r in kept.1 && kept.1[r] == state && kept.1.Values <= scoped.Values + {state}
    {
      AdmitEvictsTheOldest(Contents(), r);
      SnapshotKeys(scoped);
      hide Evict, Without, WellFormed, Separated, Snapshot;
      SnapshotInsert(scoped, r, state);
      SnapshotEvict(Without(order, r) + [r], scoped[r := state]);
      SnapshotKeys(Evict(Without(order, r) + [r], scoped[r := state]).1);
      SeparatedAfterPut(fallback, scoped, r, state, Without(order, r) + [r]);
    }

    /** Writing to one run's object changes the registry at that run's key only. */
    lemma OneRunWritten(before: Registry, key: Option<string>, run: ReceiverRunState)
      requires Separated(fallback, scoped) && Denotes(key, run)
      requires order == before.order && scoped.Keys == before.runs.Keys
      requires fallback != run ==> fallback.Contents() == before.fallback
      requires forall r | r in scoped && scoped[r] != run :: scoped[r].Contents() == before.runs[r]
      ensures Contents() == WithState(before, key, run.Contents())
    {
      assert Contents().runs == WithState(before, key, run.Contents()).runs;
    }

    method WebhookState(runId: Option<string>) returns (state: ReceiverRunState)
      requires Valid()
      modifies this
      ensures Valid() && Contents() == Touched(old(Contents()), runId)
      ensures fallback == old(fallback) && scoped == old(scoped)
      ensures Denotes(Target(old(Contents()), runId), state)
    {
      if runId.None? || runId.value !in scoped {
        return fallback;
      }
      var r := runId.value;
      TouchKeepsWellFormed(Contents(), runId);
      state := scoped[r];
      order := Without(order, r) + [r];
    }

    /** `PUT /control` */
    method Configure(runId: Option<string>, configuration: Configuration)
      requires Valid()
      modifies Repr()
      ensures Valid() && Contents() == Step(old(Contents()), Operation.Configure(runId, configuration))
      ensures fresh(Repr() - old(Repr()))
    {
      StepKeepsWellFormed(Contents(), Operation.Configure(runId, configuration));
      hide Admitted, WellFormed;
      var run := ConfiguredState(runId);
      ghost var found := Contents();
      SnapshotKeys(scoped);
      run.Reconfigure(configuration);
      OneRunWritten(found, runId, run);
    }

    /** `GET /control`: the configuration, the counter, and the newest twenty entries of evidence. */
    method ControlState(runId: Option<string>)
      returns (configuration: Configuration, attempts: nat, requests: seq<Evidence>)
      requires Valid()
      modifies this
      ensures Valid() && Contents() == Step(old(Contents()), Operation.Inspect(runId))
      ensures Held(Contents(), runId)
      ensures var run := StateOf(Contents(), runId);
              && configuration == run.configuration && attempts == run.scenarioAttempts
              && |requests| == (if |run.requests| <= 20 then |run.requests| else 20)
              && requests == run.requests[|run.requests| - |requests|..]
      ensures fresh(Repr() - old(Repr()))
    {
      var run := ConfiguredState(runId);
      configuration, attempts := run.configuration, run.scenarioAttempts;
      requests := LastN(run.requests, CONTROL_REQUEST_LIMIT);
    }

    /** `GET /requests`: all the evidence that is kept. */
    method ListRequests(runId: Option<string>) returns (count: nat, requests: seq<Evidence>)
      requires Valid()
      modifies this
      ensures Valid() && Contents() == Step(old(Contents()), Operation.Inspect(runId))
      ensures Held(Contents(), runId) && requests == StateOf(Contents(), runId).requests
      ensures count == |requests|
      ensures fresh(Repr() - old(Repr()))
    {
      var run := ConfiguredState(runId);
      requests := run.requests;
      count := |requests|;
    }

    lemma DenotedState(key: Option<string>, run: ReceiverRunState)
      requires Denotes(key, run)
      ensures run in Repr() && Held(Contents(), key) && StateOf(Contents(), key) == run.Contents()
    {
    }

    /** `POST /webhooks`: the status and the code of the answer. */
    method ReceiveWebhook(q: Request) returns (status: int, code: string)
      requires Valid()
      modifies Repr()
      ensures Valid() && Contents() == Step(old(Contents()), Receive(q))
      ensures Repr() == old(Repr())
      ensures var run := StateOf(old(Contents()), Target(old(Contents()), q.runId));
              && status == EvidenceOf(run, q).status
              && code == ResponseCode(status, ErrorOf(run.configuration, q))
    {
      hide *;
      ghost var key := Target(Contents(), q.runId);
      IsValid();
      ReceiveIsOneWrite(Contents(), q);
      OwnObjects();
      var run := WebhookState(q.runId);
      ghost var found := Contents();
      IsValid();
      OwnObjects();
      ContentsOf();
      DenotedState(key, run);
      status, code := run.Answer(q);
      OneRunWritten(found, key, run);
      IsValid();
      OwnObjects();
    }
  }
}
