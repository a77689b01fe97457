/** The Receiver Lab's state machine (backend/src/eventharbor/receiver_lab/api.py): what each
    request does to the bounded registry of runs, and what any sequence of requests leaves. */
module ReceiverRegistry {
  import opened Schema
  import opened ReceiverLab
  import opened Sets

  // ----- one run -----

  datatype Request = Request(
    runId: Option<string>, channel: Option<string>, deliveryId: Option<Id>, attempt: Option<int>,
    signed: bool, body: Decoded, receivedAt: Time)

  datatype Evidence = Evidence(
    sequence: nat, attempt: nat, deliveryId: Option<Id>, route: string,
    deliveryAttempt: Option<int>, receivedAt: Time, status: int, mode: Mode, signed: bool,
    body: Decoded)

  datatype Run = Run(
    configuration: Configuration, scenarioAttempts: nat, sequence: nat, requests: seq<Evidence>)

  const FRESH_RUN := Run(Configuration(Success, 0, 0), 0, 0, [])

  function LastN<T>(s: seq<T>, n: nat): (r: seq<T>)
    ensures |r| == if |s| <= n then |s| else n
  {
    if |s| <= n then s else s[|s| - n..]
  }

  function Reconfigured(run: Run, configuration: Configuration): Run {
    run.(configuration := configuration, scenarioAttempts := 0)
  }

  function ErrorOf(c: Configuration, q: Request): Option<string> {
    PayloadError(q.body, q.channel, q.channel.Some? || c.mode == PermanentFailure)
  }

  /** The status of the attempt-th request since the run was configured. */
  function StatusFor(c: Configuration, attempt: nat, error: Option<string>): int {
    if error.Some? then 400
    else if c.mode == RateLimited then if c.failures == 0 || attempt <= c.failures then 429 else 200
    else if c.mode == FailThenSucceed && attempt <= c.failures then 503
    else 200
  }

  function ResponseCode(status: int, error: Option<string>): string {
    if error.Some? then error.value
    else if status == 429 then "rate_limited"
    else if status == 503 then "temporarily_unavailable"
    else "accepted"
  }

  /** The evidence a run records for its next request. */
  function EvidenceOf(run: Run, q: Request): Evidence {
    var attempt := run.scenarioAttempts + 1;
    Evidence(run.sequence + 1, attempt, q.deliveryId,
             if q.channel.Some? && q.channel.value != "" then q.channel.value else "legacy-generic",
             q.attempt, q.receivedAt,
             StatusFor(run.configuration, attempt, ErrorOf(run.configuration, q)),
             run.configuration.mode, q.signed, q.body)
  }

  function Answered(run: Run, q: Request): Run {
    Run(run.configuration, run.scenarioAttempts + 1, run.sequence + 1,
        LastN(run.requests + [EvidenceOf(run, q)], MAX_REQUESTS_PER_RUN))
  }

  // ----- the registry -----

  /** `order` lists the scoped runs from least to most recently touched. */
  datatype Registry = Registry(fallback: Run, order: seq<string>, runs: map<string, Run>)

  const EMPTY_REGISTRY := Registry(FRESH_RUN, [], map[])

  function Without(s: seq<string>, x: string): (r: seq<string>)
    ensures x !in r && forall y :: y in r <==> y in s && y != x
    ensures |r| <= |s|
  {
    if s == [] then []
    else if s[0] == x then Without(s[1..], x)
    else [s[0]] + Without(s[1..], x)
  }

  function Evict<T>(order: seq<string>, runs: map<string, T>): (seq<string>, map<string, T>) {
    if |order| <= MAX_SCOPED_RUNS then (order, runs) else Evict(order[1..], runs - {order[0]})
  }

  /** The effect of `configured_state`. */
  function Admitted(reg: Registry, runId: Option<string>): Registry {
    if runId.None? then reg
    else
      var r := runId.value;
      var run := if r in reg.runs then reg.runs[r] else FRESH_RUN;
      var kept := Evict(Without(reg.order, r) + [r], reg.runs[r := run]);
      Registry(reg.fallback, kept.0, kept.1)
  }

  /** The effect of `webhook_state`. */
  function Touched(reg: Registry, runId: Option<string>): Registry {
    if runId.None? || runId.value !in reg.runs then reg
    else reg.(order := Without(reg.order, runId.value) + [runId.value])
  }

  /** Which state a run id denotes: its own while it is registered, otherwise the fallback. */
  function Target(reg: Registry, runId: Option<string>): Option<string> {
    if runId.Some? && runId.value in reg.runs then runId else None
  }

  predicate Held(reg: Registry, key: Option<string>) {
    key.None? || key.value in reg.runs
  }

  function StateOf(reg: Registry, key: Option<string>): Run
    requires Held(reg, key)
  {
    if key.None? then reg.fallback else reg.runs[key.value]
  }

  function WithState(reg: Registry, key: Option<string>, run: Run): Registry {
    if key.None? then reg.(fallback := run) else reg.(runs := reg.runs[key.value := run])
  }

  datatype Operation =
    | Reset
    | Configure(runId: Option<string>, configuration: Configuration)
    | Inspect(runId: Option<string>)
    | Receive(request: Request)

  function Step(reg: Registry, op: Operation): Registry {
    match op
    case Reset => EMPTY_REGISTRY
    case Configure(runId, configuration) =>
      var admitted := Admitted(reg, runId);
      var key := Target(admitted, runId);
      WithState(admitted, key, Reconfigured(StateOf(admitted, key), configuration))
    case Inspect(runId) => Admitted(reg, runId)
    case Receive(q) =>
      var key := Target(reg, q.runId);
      WithState(Touched(reg, q.runId), key, Answered(StateOf(reg, key), q))
  }

  function After(ops: seq<Operation>): Registry {
    if ops == [] then EMPTY_REGISTRY else Step(After(ops[..|ops| - 1]), ops[|ops| - 1])
  }

  predicate NoRepeats(s: seq<string>) {
    forall i, j | 0 <= i < j < |s| :: s[i] != s[j]
  }

  predicate WellFormed(reg: Registry) {
    && NoRepeats(reg.order) && |reg.order| <= MAX_SCOPED_RUNS
    && (forall r | r in reg.order :: r in reg.runs)
    && (forall r | r in reg.runs :: r in reg.order)
  }

  lemma {:induction false} WithoutKeepsNoRepeats(s: seq<string>, x: string)
    requires NoRepeats(s)
    ensures NoRepeats(Without(s, x))
    ensures x in s ==> |Without(s, x)| == |s| - 1
    ensures x !in s ==> Without(s, x) == s
  {
    if s != [] {
      WithoutKeepsNoRepeats(s[1..], x);
      assert forall y | y in Without(s[1..], x) :: y in s[1..];
      assert s[0] !in s[1..];
      assert x in s <==> x == s[0] || x in s[1..];
      assert s == [s[0]] + s[1..];
    }
  }

  lemma {:induction false} WithoutConcat(a: seq<string>, b: seq<string>, x: string)
    ensures Without(a + b, x) == Without(a, x) + Without(b, x)
  {
    if a == [] {
      assert a + b == b && Without(a, x) == [];
    } else {
      WithoutConcat(a[1..], b, x);
      WithoutCons(a[0], a[1..], x);
      WithoutCons(a[0], a[1..] + b, x);
      hide Without;
      assert a == [a[0]] + a[1..] && a + b == [a[0]] + (a[1..] + b);
    }
  }

  lemma WithoutCons(head: string, tail: seq<string>, x: string)
    ensures Without([head] + tail, x)
            == (if head == x then [] else [head]) + Without(tail, x)
  {
    assert ([head] + tail)[1..] == tail;
  }

  /** One run too many: the first in the order goes, and nothing else does. */
  lemma {:induction false} EvictDropsTheFirst(order: seq<string>, runs: map<string, Run>)
    requires NoRepeats(order) && |order| == MAX_SCOPED_RUNS + 1
    requires (forall s | s in order :: s in runs) && (forall s | s in runs :: s in order)
    ensures Evict(order, runs) == (order[1..], runs - {order[0]})
    ensures order[0] !in order[1..] && forall s | s in runs && s != order[0] :: s in order[1..]
  {
    assert Evict(order[1..], runs - {order[0]}) == (order[1..], runs - {order[0]});
    assert order == [order[0]] + order[1..];
  }

  /** The registry `to` is `from` after run r was admitted. */
  predicate AdmitFits(from: Registry, to: Registry, r: string) {
    && to.order == LastN(Without(from.order, r) + [r], MAX_SCOPED_RUNS)
    && to.fallback == from.fallback
    && r in to.runs && to.runs[r] == (if r in from.runs then from.runs[r] else FRESH_RUN)
    && (forall s | s in to.runs && s != r :: s in from.runs && to.runs[s] == from.runs[s])
    && (forall s | s in from.runs && s !in to.runs ::
          r !in from.runs && |from.order| == MAX_SCOPED_RUNS && s == from.order[0])
  }

  lemma {:induction false} AdmitKnown(reg: Registry, r: string)
    requires WellFormed(reg) && r in reg.runs
    ensures WellFormed(Admitted(reg, Some(r))) && AdmitFits(reg, Admitted(reg, Some(r)), r)
  {
    hide Without, Evict;
    WithoutKeepsNoRepeats(reg.order, r);
    EvictNothing(Without(reg.order, r) + [r], reg.runs[r := reg.runs[r]]);
  }

  lemma NoRepeatsSnoc(s: seq<string>, x: string)
    requires NoRepeats(s) && x !in s
    ensures NoRepeats(s + [x]) && (s != [] ==> NoRepeats(s[1..] + [x]))
  {
  }

  lemma {:induction false} AdmitNewWithRoom(reg: Registry, r: string)
    requires WellFormed(reg) && r !in reg.runs && |reg.order| < MAX_SCOPED_RUNS
    ensures WellFormed(Admitted(reg, Some(r))) && AdmitFits(reg, Admitted(reg, Some(r)), r)
  {
    hide Without, Evict, NoRepeats;
    WithoutKeepsNoRepeats(reg.order, r);
    assert r !in reg.order;
    NoRepeatsSnoc(reg.order, r);
    EvictNothing(reg.order + [r], reg.runs[r := FRESH_RUN]);
  }

  lemma {:induction false} AdmitNewEvicting(reg: Registry, r: string)
    requires WellFormed(reg) && r !in reg.runs && |reg.order| == MAX_SCOPED_RUNS
    ensures WellFormed(Admitted(reg, Some(r))) && AdmitFits(reg, Admitted(reg, Some(r)), r)
  {
    hide Without, Evict, NoRepeats;
    WithoutKeepsNoRepeats(reg.order, r);
    assert r !in reg.order;
    NoRepeatsSnoc(reg.order, r);
    var order, runs := reg.order + [r], reg.runs[r := FRESH_RUN];
    EvictDropsTheFirst(order, runs);
    assert order[0] == reg.order[0] && order[1..] == reg.order[1..] + [r];
    assert order[1..] == LastN(order, MAX_SCOPED_RUNS);
    assert reg.order == [reg.order[0]] + reg.order[1..];
  }

  /** Admitting a run touches it last and evicts at most the least recently touched run. */
  lemma {:induction false} AdmitEvictsTheOldest(reg: Registry, r: string)
    requires WellFormed(reg)
    ensures WellFormed(Admitted(reg, Some(r))) && AdmitFits(reg, Admitted(reg, Some(r)), r)
  {
    hide Admitted, AdmitFits, NoRepeats;
    if r in reg.runs {
      AdmitKnown(reg, r);
    } else if |reg.order| == MAX_SCOPED_RUNS {
      AdmitNewEvicting(reg, r);
    } else {
      AdmitNewWithRoom(reg, r);
    }
  }

  /** Eviction keeps the last keys of the order, and of the values exactly the others' removed. */
  lemma {:induction false} EvictRestricts<T>(order: seq<string>, runs: map<string, T>)
    ensures var n := |order| - |LastN(order, MAX_SCOPED_RUNS)|;
            Evict(order, runs) == (order[n..], runs - Ids(order[..n]))
    decreases |order|
  {
    if |order| > MAX_SCOPED_RUNS {
      EvictRestricts(order[1..], runs - {order[0]});
      var n := |order| - MAX_SCOPED_RUNS;
      assert order[1..][n - 1..] == order[n..];
      assert order[..n] == [order[0]] + order[1..][..n - 1];
      assert runs - {order[0]} - Ids(order[1..][..n - 1]) == runs - Ids(order[..n]);
    } else {
      assert order[0..] == order && Ids(order[..0]) == {} && runs - {} == runs;
    }
  }

  lemma EvictNothing(order: seq<string>, runs: map<string, Run>)
    requires |order| <= MAX_SCOPED_RUNS
    ensures Evict(order, runs) == (order, runs)
  {
  }

  lemma {:induction false} TouchKeepsWellFormed(reg: Registry, runId: Option<string>)
    requires WellFormed(reg)
    ensures WellFormed(Touched(reg, runId))
  {
    if runId.Some? { WithoutKeepsNoRepeats(reg.order, runId.value); }
  }

  lemma {:induction false} StepKeepsWellFormed(reg: Registry, op: Operation)
    requires WellFormed(reg)
    ensures WellFormed(Step(reg, op))
  {
    hide Evict, Answered, Without;
    match op
    case Reset =>
    case Configure(runId, _) => if runId.Some? { AdmitEvictsTheOldest(reg, runId.value); }
    case Inspect(runId) => if runId.Some? { AdmitEvictsTheOldest(reg, runId.value); }
    case Receive(q) => TouchKeepsWellFormed(reg, q.runId);
  }

  lemma {:induction false} AfterIsWellFormed(ops: seq<Operation>)
    ensures WellFormed(After(ops))
  {
    if ops != [] {
      AfterIsWellFormed(ops[..|ops| - 1]);
      StepKeepsWellFormed(After(ops[..|ops| - 1]), ops[|ops| - 1]);
    }
  }

  // ----- which runs are held -----

  /** The touches that count, oldest first: every control request for a run, and every webhook for
      a run that was still among the most recent ones. Defined without the registry. */
  ghost function TouchLog(ops: seq<Operation>): seq<string> {
    if ops == [] then [] else LogStep(TouchLog(ops[..|ops| - 1]), ops[|ops| - 1])
  }

  ghost function LogStep(log: seq<string>, op: Operation): seq<string> {
    match op
    case Reset => []
    case Configure(runId, _) => Logged(log, runId)
    case Inspect(runId) => Logged(log, runId)
    case Receive(q) =>
      if q.runId.Some? && RecentlyTouched(log, q.runId.value) then Logged(log, q.runId) else log
  }

  function Logged(log: seq<string>, runId: Option<string>): seq<string> {
    if runId.Some? then log + [runId.value] else log
  }

  ghost function Ids(s: seq<string>): set<string> { set x | x in s }

  /** Since some touch of r, at most 100 distinct runs have been touched, r included. */
  ghost predicate RecentlyTouched(log: seq<string>, r: string) {
    exists k :: 0 <= k < |log| && log[k] == r && |Ids(log[k..])| <= 100
  }

  /** Every run ever touched, in order of its last touch. */
  function Recency(log: seq<string>): seq<string> {
    if log == [] then []
    else
      var last := log[|log| - 1];
      Without(Recency(log[..|log| - 1]), last) + [last]
  }

  lemma {:induction false} RecencyHasNoRepeats(log: seq<string>)
    ensures NoRepeats(Recency(log)) && forall x :: x in Recency(log) <==> x in log
  {
    if log != [] {
      var before, last := log[..|log| - 1], log[|log| - 1];
      RecencyHasNoRepeats(before);
      WithoutKeepsNoRepeats(Recency(before), last);
      assert log == before + [last];
    }
  }

  lemma {:induction false} NoRepeatsCounts(s: seq<string>)
    requires NoRepeats(s)
    ensures |Ids(s)| == |s|
  {
    if s != [] {
      NoRepeatsCounts(s[1..]);
      assert s[0] !in s[1..] && s == [s[0]] + s[1..];
      assert Ids(s) == {s[0]} + Ids(s[1..]);
    }
  }

  /** In the recency order, exactly the runs touched after the last touch of r follow r. */
  lemma {:induction false} RecencyTail(log: seq<string>, r: string) returns (k: nat, i: nat)
    requires r in log
    ensures k < |log| && log[k] == r && r !in log[k + 1..]
    ensures i < |Recency(log)| && Recency(log)[i] == r
    ensures Ids(Recency(log)[i + 1..]) == Ids(log[k + 1..])
  {
    var before, last := log[..|log| - 1], log[|log| - 1];
    var was, now := Recency(before), Recency(log);
    assert log == before + [last];
    if r == last {
      k, i := |before|, |now| - 1;
    } else {
      var j: nat;
      k, j := RecencyTail(before, r);
      i := ShiftedTail(was, j, last);
      assert now == Without(was, last) + [last];
      assert now[i + 1..] == Without(was, last)[i + 1..] + [last];
      assert log[k + 1..] == before[k + 1..] + [last];
      TailIds(was[j + 1..], before[k + 1..], last);
    }
  }

  /** Removing another element keeps an element, and what follows it but for that element. */
  lemma {:induction false} ShiftedTail(s: seq<string>, j: nat, x: string) returns (i: nat)
    requires j < |s| && s[j] != x
    ensures i < |Without(s, x)| && Without(s, x)[i] == s[j]
    ensures Without(s, x)[i + 1..] == Without(s[j + 1..], x)
  {
    var front, tail := s[..j], s[j + 1..];
    assert s == front + ([s[j]] + tail);
    WithoutConcat(front, [s[j]] + tail, x);
    WithoutCons(s[j], tail, x);
    hide Without;
    i := |Without(front, x)|;
    assert Without(s, x) == Without(front, x) + ([s[j]] + Without(tail, x));
  }

  lemma TailIds(tail: seq<string>, after: seq<string>, last: string)
    requires Ids(tail) == Ids(after)
    ensures Ids(Without(tail, last) + [last]) == Ids(after + [last])
  {
    forall x ensures x in Without(tail, last) + [last] <==> x in after + [last] {
      assert x in tail <==> x in Ids(tail);
      assert x in after <==> x in Ids(after);
    }
  }

  /** The last 100 runs in recency order are exactly the recently touched ones. */
  lemma {:induction false} RecentIffInWindow(log: seq<string>, r: string)
    ensures r in LastN(Recency(log), MAX_SCOPED_RUNS) <==> RecentlyTouched(log, r)
  {
    hide Recency, Without;
    var order := Recency(log);
    RecencyHasNoRepeats(log);
    if r in log {
      var k, i := RecencyTail(log, r);
      InLastN(order, i, MAX_SCOPED_RUNS);
      TailCounts(order, i);
      LastTouchIsTheBest(log, r, k);
      assert log[k..] == [r] + log[k + 1..];
      assert Ids(log[k..]) == {r} + Ids(log[k + 1..]);
      assert r !in Ids(log[k + 1..]);
    }
  }

  lemma TailCounts(order: seq<string>, i: nat)
    requires NoRepeats(order) && i < |order|
    ensures |Ids(order[i + 1..])| == |order| - i - 1
  {
    NoRepeatsCounts(order[i + 1..]);
  }

  lemma LastTouchIsTheBest(log: seq<string>, r: string, k: nat)
    requires k < |log| && log[k] == r && r !in log[k + 1..]
    ensures RecentlyTouched(log, r) <==> |Ids(log[k..])| <= 100
  {
    assert forall j | k < j < |log| :: log[j] == log[k + 1..][j - k - 1];
    forall m | 0 <= m < |log| && log[m] == r ensures |Ids(log[k..])| <= |Ids(log[m..])| {
      assert log[m..] == log[m..k] + log[k..];
      SubsetCounts(Ids(log[k..]), Ids(log[m..]));
    }
  }

  lemma InLastN(order: seq<string>, i: nat, n: nat)
    requires NoRepeats(order) && i < |order|
    ensures order[i] in LastN(order, n) <==> |order| - i <= n
  {
    if |order| > n {
      assert forall j | 0 <= j < n :: LastN(order, n)[j] == order[|order| - n + j];
      assert |order| - i <= n ==> LastN(order, n)[i - (|order| - n)] == order[i];
    }
  }

  lemma LastNOfConcat<T>(a: seq<T>, b: seq<T>, n: nat)
    requires |b| >= n || a == []
    ensures LastN(a + b, n) == LastN(b, n)
  {
    assert a == [] ==> a + b == b;
  }

  /** The window over the recency order moves with the order itself. */
  lemma {:induction false} WindowMoves(order: seq<string>, r: string, n: nat)
    requires NoRepeats(order) && n >= 1
    ensures LastN(Without(LastN(order, n), r) + [r], n) == LastN(Without(order, r) + [r], n)
  {
    hide Without;
    var window := LastN(order, n);
    var front := order[..|order| - |window|];
    assert order == front + window;
    WithoutConcat(front, window, r);
    WithoutKeepsNoRepeats(window, r);
    WithoutKeepsNoRepeats(front, r);
    hide NoRepeats, LastN;
    var moved := Without(window, r) + [r];
    assert Without(order, r) + [r] == Without(front, r) + moved;
    if front == [] {
      assert Without(front, r) == [];
    } else {
      assert |moved| >= |window| == n;
    }
    LastNOfConcat(Without(front, r), moved, n);
  }

  /** After any requests the registry holds, in that order, exactly the 100 runs touched last:
      those since whose touch at most 100 distinct runs were touched. */
  lemma {:induction false} HoldsTheMostRecent(ops: seq<Operation>)
    ensures After(ops).order == LastN(Recency(TouchLog(ops)), MAX_SCOPED_RUNS)
    ensures forall r :: r in After(ops).runs <==> RecentlyTouched(TouchLog(ops), r)
  {
    hide Without, Admitted, RecentlyTouched, Answered, NoRepeats;
    AfterIsWellFormed(ops);
    if ops != [] {
      var before, op := ops[..|ops| - 1], ops[|ops| - 1];
      HoldsTheMostRecent(before);
      AfterIsWellFormed(before);
      StepMovesTheWindow(After(before), TouchLog(before), op);
    }
    forall r ensures r in After(ops).runs <==> RecentlyTouched(TouchLog(ops), r) {
      RecentIffInWindow(TouchLog(ops), r);
    }
  }

  lemma {:induction false} StepMovesTheWindow(reg: Registry, log: seq<string>, op: Operation)
    requires WellFormed(reg) && reg.order == LastN(Recency(log), MAX_SCOPED_RUNS)
    requires forall r :: r in reg.runs <==> RecentlyTouched(log, r)
    ensures Step(reg, op).order == LastN(Recency(LogStep(log, op)), MAX_SCOPED_RUNS)
  {
    hide Without, Evict, RecentlyTouched, Answered, NoRepeats, Recency;
    match op
    case Reset => EmptyLog();
    case Configure(runId, _) => if runId.Some? { AdmitMovesTheWindow(reg, log, runId.value); }
    case Inspect(runId) => if runId.Some? { AdmitMovesTheWindow(reg, log, runId.value); }
    case Receive(q) =>
      if q.runId.Some? && q.runId.value in reg.runs {
        TouchMovesTheWindow(reg, log, q.runId.value);
      }
  }

  lemma EmptyLog()
    ensures Recency([]) == []
  {
  }

  lemma AdmitMovesTheWindow(reg: Registry, log: seq<string>, r: string)
    requires WellFormed(reg) && reg.order == LastN(Recency(log), MAX_SCOPED_RUNS)
    ensures Admitted(reg, Some(r)).order
            == LastN(Recency(Logged(log, Some(r))), MAX_SCOPED_RUNS)
  {
    hide Without, Admitted;
    AdmitEvictsTheOldest(reg, r);
    RecencyHasNoRepeats(log);
    WindowMoves(Recency(log), r, MAX_SCOPED_RUNS);
    assert Logged(log, Some(r))[..|log|] == log;
  }

  lemma TouchMovesTheWindow(reg: Registry, log: seq<string>, r: string)
    requires WellFormed(reg) && reg.order == LastN(Recency(log), MAX_SCOPED_RUNS)
    requires r in reg.runs
    ensures Without(reg.order, r) + [r] == LastN(Recency(Logged(log, Some(r))), MAX_SCOPED_RUNS)
  {
    hide Without;
    RecencyHasNoRepeats(log);
    WindowMoves(Recency(log), r, MAX_SCOPED_RUNS);
    WithoutKeepsNoRepeats(reg.order, r);
    assert Logged(log, Some(r))[..|log|] == log;
  }

  // ----- one request, one run -----

  function RunIdOf(op: Operation): Option<string> {
    match op
    case Reset => None
    case Configure(runId, _) => runId
    case Inspect(runId) => runId
    case Receive(q) => q.runId
  }

  /** A request about one run changes no other run; it can only evict one, when it registers a new
      run in a full registry, and then it evicts the least recently touched. The unscoped state
      changes only for requests that name no registered run. */
  lemma {:induction false} OtherRunsAreUntouched(reg: Registry, op: Operation, s: string)
    requires WellFormed(reg) && !op.Reset? && RunIdOf(op) != Some(s)
    ensures s in Step(reg, op).runs ==> s in reg.runs && Step(reg, op).runs[s] == reg.runs[s]
    ensures s in reg.runs && s !in Step(reg, op).runs ==>
              && !op.Receive? && RunIdOf(op).Some? && RunIdOf(op).value !in reg.runs
              && |reg.order| == MAX_SCOPED_RUNS && s == reg.order[0]
  {
    hide Evict, Without, Answered;
    if !op.Receive? && RunIdOf(op).Some? {
      AdmitEvictsTheOldest(reg, RunIdOf(op).value);
      hide Admitted;
    }
  }

  lemma {:induction false} FallbackIsUntouched(reg: Registry, op: Operation)
    requires WellFormed(reg) && !op.Reset?
    requires op.Inspect? || (op.Configure? && op.runId.Some?)
             || (op.Receive? && Target(reg, op.request.runId).Some?)
    ensures Step(reg, op).fallback == reg.fallback
  {
    hide Evict, Without, Answered;
    if !op.Receive? && RunIdOf(op).Some? {
      AdmitEvictsTheOldest(reg, RunIdOf(op).value);
      hide Admitted;
    }
  }

  // ----- evidence -----

  /** Every request one state has received since it was created. */
  ghost function History(ops: seq<Operation>, key: Option<string>): seq<Evidence> {
    if ops == [] then []
    else
      HistoryStep(After(ops[..|ops| - 1]), History(ops[..|ops| - 1], key), ops[|ops| - 1], key)
  }

  function HistoryStep(reg: Registry, h: seq<Evidence>, op: Operation, key: Option<string>)
    : seq<Evidence>
  {
    match op
    case Reset => []
    case Receive(q) =>
      if Target(reg, q.runId) == key then h + [EvidenceOf(StateOf(reg, key), q)] else h
    case _ => if Held(reg, key) then h else []
  }

  /** A run's evidence is the last 100 entries of its history, numbered without a gap. */
  predicate Recorded(run: Run, h: seq<Evidence>) {
    && run.requests == LastN(h, MAX_REQUESTS_PER_RUN)
    && run.sequence == |h|
    && forall i | 0 <= i < |h| :: h[i].sequence == i + 1
  }

  lemma {:induction false} AnswerIsRecorded(run: Run, h: seq<Evidence>, q: Request)
    requires Recorded(run, h)
    ensures Recorded(Answered(run, q), h + [EvidenceOf(run, q)])
  {
    hide StatusFor, ErrorOf;
  }

  lemma {:induction false} StepIsRecorded(
    reg: Registry, op: Operation, h: seq<Evidence>, key: Option<string>)
    requires WellFormed(reg) && Held(Step(reg, op), key)
    requires Held(reg, key) ==> Recorded(StateOf(reg, key), h)
    ensures Recorded(StateOf(Step(reg, op), key), HistoryStep(reg, h, op, key))
  {
    hide Evict, Without, Answered, EvidenceOf, WellFormed, LastN;
    FreshIsRecorded();
    match op
    case Reset =>
    case Receive(q) =>
      if Target(reg, q.runId) == key { AnswerIsRecorded(StateOf(reg, key), h, q); }
    case Configure(runId, _) => if runId.Some? { AdmitEvictsTheOldest(reg, runId.value); }
    case Inspect(runId) => if runId.Some? { AdmitEvictsTheOldest(reg, runId.value); }
  }

  lemma FreshIsRecorded()
    ensures Recorded(FRESH_RUN, [])
  {
  }

  /** After any requests, across reconfigurations and evictions of other runs, each state shows
      exactly its most recent min(sequence, 100) requests, consecutively numbered. */
  lemma {:induction false} EvidenceIsTheRecentHistory(ops: seq<Operation>, key: Option<string>)
    requires Held(After(ops), key)
    ensures Recorded(StateOf(After(ops), key), History(ops, key))
    ensures var run := StateOf(After(ops), key);
            && |run.requests| == (if run.sequence <= 100 then run.sequence else 100)
            && forall i | 0 <= i < |run.requests| ::
                 run.requests[i].sequence == run.sequence - |run.requests| + 1 + i
  {
    hide Step, HistoryStep, LastN;
    if ops == [] {
      FreshIsRecorded();
    } else {
      var before := ops[..|ops| - 1];
      AfterIsWellFormed(before);
      if Held(After(before), key) { EvidenceIsTheRecentHistory(before, key); }
      StepIsRecorded(After(before), ops[|ops| - 1], History(before, key), key);
    }
    var run, h := StateOf(After(ops), key), History(ops, key);
    EvidenceNumbers(run, h);
  }

  lemma EvidenceNumbers(run: Run, h: seq<Evidence>)
    requires Recorded(run, h)
    ensures |run.requests| == (if run.sequence <= 100 then run.sequence else 100)
    ensures forall i | 0 <= i < |run.requests| ::
              run.requests[i].sequence == run.sequence - |run.requests| + 1 + i
  {
  }
}
