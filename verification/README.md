# EventHarbor, modelled and proved in Dafny

EventHarbor accepts webhook events over HTTP, stores each with an initial delivery in PostgreSQL,
and lets any number of workers deliver them at least once. A worker claims a delivery under a fenced
lease, reserves an attempt row, sends the request outside the transaction, and finalizes only if the
lease is still its own. Leases expire, workers die, late results arrive, endpoints are disabled, dead
letters are replayed as new generations, and old events are purged.

This project models that system and proves what its reliability contract promises, over every
interleaving of its transactions.

## How the model is laid out

- `Schema`, `Retry`, `Transport`: rows and constraints, retry rules, what one exchange returns.
- `Transactions`: each database transaction as a function from the database it starts in to the one it
  commits and the value it returns, error paths included.
- `Tables`, `Worker`, `Services`: the database, the worker and the services as objects that update the
  tables step by step, flush and roll back; each method is proved equal to its transaction.
- `Invariants`, `WorkerProofs`, `Effects`, `ServiceProofs`: the constraints, the attempt ledger and the
  generation lineage as one inductive invariant, and every transaction keeping it.
- `Claims`, `Answers`, `Envelopes`, `Replays`, `Listings`, `ReceiverContracts`: what the operations do,
  said on the columns, with numbers and texts, and without the functions the operations are made of.
- `Protocol`, `Contract`, `Settling`, `Idempotency`, `Schedule`: the state machine with in-flight
  snapshots (stale ones are kept for ever), a log of every request and answer, and the theorems about
  whole runs: ledger, at-least-once, fencing, progress, idempotency, retry times.
- `Paging`, `ControlRoom`, `Retention`: the read models and the batched purge (`Sets`: set sizes).
- `LatePurge`: what a purge can take that others committed after it chose its events.
- `ReceiverLab`, `ReceiverRegistry`, `Receiver`: payload contracts, the bounded registry as values,
  and the same registry as shared objects.
- `EndToEnd`: the protocol composed with a receiver run.
- `CanonicalJson`, `Migration`, `Tour`: the canonical printer, revision 20260823_0003, and the
  resumable client tour.

## Assumptions

- All workers and API processes share one setting of `max_attempts` (M below) and of the other
  worker settings. UUIDs are fresh. SHA-256 digests and canonical encodings are injective, so a
  fingerprint is the request itself and a payload is its envelope.
- A transaction is one atomic step that rolls back when it raises. Constraints are evaluated at each
  flush, also in the middle of a claim.
- A claim reads the clock twice. The reading inside its query is only assumed not to be earlier than
  the first. No other relation between clock readings is assumed.
- A result has `finished_at >= started_at` and a non-negative request timestamp.
- Retention selects events without a lock and deletes them at any later moment; the two deletions of a
  batch are one step. A run holds its advisory lock, so no other purge comes between.
- The statements of the control room's overview share one snapshot.
- The event source column is the constant the publish service writes.
- The replay service reads the source twice in one session. The second read locks the row but keeps
  the object that was loaded first, so the decision is modelled with the status seen at the first read.
- Real arithmetic stands for floating point in the backoff.
- In the composition with the Receiver Lab, the run stays registered and is used by one delivery only,
  the delivery's lease does not expire, its endpoint is not disabled and its event is not purged.
  Requests may time out or fail in transport, or lose their worker, and then may have reached the
  receiver or not; such requests are counted. A receiver that sleeps longer than the worker waits is
  a request that arrives and times out.
- In the tour, `wait` advances the clock by at least the requested milliseconds.

## Where code and documentation disagree

The model follows the code.

- The state graph in docs/reliability-contract.md and the transition map both lack the step from
  in_progress to in_progress that reclaiming an expired lease takes. A step changes a status only along
  the map, and a claim keeps an in-progress row in progress exactly when it reserved another attempt
  (`Contract.StatusFollowsTheMap`).
- The docstrings of maintenance.py (lines 40 and 75) say that only events with terminal deliveries are
  deleted and active work is left untouched. A replay that commits after the select and before the
  deletion is deleted while it is pending (`LatePurge.LosingRun`; exactly when:
  `LatePurge.LatePurgeKeepsActiveIff`).
- docs/reliability-contract.md says that evidence of a violated route contract blocks an unchanged
  replay. Two codes the Receiver Lab emits do not: `wrong_receiver_route` and `invalid_amount_cents`
  (`ReceiverLab.ZeroAmountIsNotBlocked`, `ReceiverLab.WrongRouteIsNotBlocked`; exactly which bodies:
  `ReceiverLab.RejectionBlocksReplay`).
- The contract fences a late result by owner, token and attempt number. Expiry time is no part of it:
  a late result is accepted until the lease is reclaimed (`Contract.AcceptedIffStillReserved`).
- Revision 20260823_0003 covers leases live during deployment, but attempt numbers lost earlier stay
  missing (`Migration.GapMayRemain`; exactly when: `Migration.LedgerIsCompleteIff`).

## Model

| member | source | states |
|---|---|---|
| `Protocol.StepKeepsSysInv` | backend/src/eventharbor/deliveries/worker.py:68-373 | every step of the protocol (publish, replay read, replay decision, claim, reclaim, send, finalize, crash, endpoint change, retention select, purge) keeps the whole invariant: constraints, ledger, lineage, in-flight snapshots, send log; and undoes nothing that is final |
| `Protocol.DatabaseStep` | backend/src/eventharbor/deliveries/worker.py:68-373 | the database part of that: the schema's constraints, the ledger and the lineage hold again after any enabled step |
| `Protocol.SnapshotsStep` | backend/src/eventharbor/deliveries/worker.py:139-182 | every snapshot a claim ever issued still names its own attempt, stale ones included, and no two snapshots share an attempt, a lease token or an attempt number |
| `Protocol.RecordsStep` | backend/src/eventharbor/deliveries/worker.py:344-373 | every completed attempt is a faithful record of one logged answer to its own request |
| `Contract.RunKeepsSysInv` | docs/reliability-contract.md:164-178 | along any run the invariant holds, terminal deliveries and resolved attempts are frozen, identities never change, and rows go only with their event |
| `Contract.ReachableFits` | docs/reliability-contract.md:164-178 | the invariant holds in every state reachable from the empty database |
| `Contract.NothingRaises` | backend/src/eventharbor/deliveries/worker.py:107-182 | in every reachable state no transaction raises: missing-evidence errors, missing initial delivery, forbidden transitions and constraint violations are unreachable; a replay raises exactly when its event was purged between its read and its decision |
| `Contract.LedgerIsExact` | docs/reliability-contract.md:61-100 | attempts are numbered exactly 1..attempt_count, once each, within the budget; one is reserved iff the delivery is in progress, it is the last and carries the row's lease token; the delivery is delivered iff its last attempt succeeded and nothing follows a success |
| `Contract.SchemaHolds` | backend/src/eventharbor/models.py:111-240 | in every reachable state, on the columns: unique keys, one active delivery per event and endpoint, attempt numbers and lease tokens once per delivery, one outstanding attempt, no dangling reference |
| `Contract.ChecksHold` | backend/src/eventharbor/models.py:111-284 | in every reachable state, on the columns: lease columns exactly with in_progress, delivered_at exactly with delivered, next_attempt_at exactly while waiting, replay columns exactly above generation 0, and each attempt exactly the columns of its status |
| `Contract.EverySendIsReserved` | docs/reliability-contract.md:61-66 | every request ever sent was reserved before, carries the immutable event body, has an attempt number of its own; a 2xx answer leaves its attempt succeeded, indeterminate or still reserved, and a recorded success was answered 2xx |
| `Contract.AtMostOneRecordedSuccess` | README.md:59-64 | of two requests of one delivery that were both answered 2xx at least one is indeterminate; once delivered, each is the success or indeterminate |
| `Contract.DeliveredMeansAccepted` | docs/reliability-contract.md:51-56 | a delivered delivery has a logged request, with its last attempt number, that was answered 2xx |
| `Contract.ResolvedForever` | docs/reliability-contract.md:58-59 | in every continuation a resolved attempt keeps its evidence and a terminal delivery its whole row |
| `Contract.StaleResultsAreIgnored` | backend/src/eventharbor/deliveries/worker.py:295-313 | once an attempt is resolved, a result for it is answered False and changes nothing at all, whatever the clock, the jitter, the result and the worker id |
| `Contract.AcceptedIffStillReserved` | backend/src/eventharbor/deliveries/worker.py:299-343 | a result is accepted exactly when its attempt is still reserved and the lease is held under this worker id; expiry time plays no part |
| `Contract.SendIsFirst` | docs/reliability-contract.md:61-66 | a snapshot that may be sent was never sent before and its attempt has no recorded outcome |
| `Contract.StatusFollowsTheMap` | backend/src/eventharbor/deliveries/state_machine.py:26-48 | in every reachable state every step leaves a delivery's status alone or moves it along the transition map, and a new delivery is pending; a claim leaves it in progress iff it reserved an attempt, also when it was in progress before, and otherwise dead-letters it; an accepted result takes it out of in_progress; nothing else writes it |
| `Settling.StepSpends` | backend/src/eventharbor/deliveries/worker.py:73-142 | every accepted worker step on a delivery lowers its remaining budget by at least one, and no other step raises it; the budget is 0 for a terminal row, 2(M - attempt_count) for a waiting one and one more for a leased one |
| `Settling.DeliverySettles` | backend/src/eventharbor/deliveries/worker.py:184-199 | in any run from the empty database a delivery sees at most 2M accepted worker steps |
| `Settling.SendsAreBounded` | backend/src/eventharbor/deliveries/retry.py:91-94 | at most M requests of one delivery are ever sent, also after a purge |
| `Settling.ActiveIsNeverStranded` | backend/src/eventharbor/deliveries/worker.py:73-104 | a delivery is inside the claim filter at time t iff it is active and its own due time is at most t |
| `Settling.Pigeonhole` | backend/src/eventharbor/deliveries/retry.py:91-94 | distinctly numbered items numbered within 1..m are at most m (carries the send bound) |
| `Settling.TotalDrops` | backend/src/eventharbor/deliveries/worker.py:386-404 | lowering one row lowers the budget of the whole table (the termination measure of the polling loop) |
| `Idempotency.PublishIsIdempotent` | backend/src/eventharbor/services.py:124-228 | after an accepted publish, in any continuation that retains the event, publishing under the key changes nothing: the same request gets the same event and initial delivery, any other valid request is refused as key reuse |
| `Idempotency.PublishedRows` | backend/src/eventharbor/services.py:124-206 | a successful publish names an event that holds the key with the request's fingerprint, and that event's initial delivery |
| `Idempotency.RefusedPublishLeavesNoTrace` | backend/src/eventharbor/services.py:180-206 | the database changes exactly when the publish is newly accepted; a disabled endpoint rolls the inserted event back |
| `Idempotency.ReplayIsIdempotent` | backend/src/eventharbor/services.py:244-353 | after one successful replay of a source, every later decision about it changes nothing: the same key gets the same delivery, any other is superseded, however reads and decisions overlap |
| `Idempotency.StaleReadIsSafe` | backend/src/eventharbor/services.py:245-293 | deciding with the status seen at the first, unlocked read never accepts what the current row would refuse, and agrees with it whenever that status was dead_lettered |
| `Invariants.OneEndpointPerEvent` | backend/src/eventharbor/services.py:124-206 | all deliveries of one event go to one endpoint |
| `Invariants.EarlierGenerationIsDead` | backend/src/eventharbor/services.py:244-353 | every generation below another of its event is dead-lettered |
| `Invariants.GenerationsAreContiguous` | backend/src/eventharbor/models.py:116-117 | below any generation of a chain every smaller generation number exists |
| `Invariants.SuccessorIsUnique` | backend/src/eventharbor/models.py:116-117 | a delivery has at most one direct successor |
| `Invariants.EvidenceExists` | backend/src/eventharbor/deliveries/worker.py:222-273 | an in-progress delivery has exactly one reserved attempt that proves its current lease |
| `WorkerProofs.ClaimKeepsInv` | backend/src/eventharbor/deliveries/worker.py:68-182 | a claim keeps the invariant and either resolves the delivery or issues a snapshot; it never raises |
| `WorkerProofs.MidClaimFlushIsClean` | backend/src/eventharbor/deliveries/worker.py:119-129 | the flush between resolving the expired attempt and reserving the next one violates no constraint |
| `WorkerProofs.ReservingBeforeResolvingClashes` | backend/src/eventharbor/deliveries/worker.py:127-129 | reserving the next attempt without that resolution always violates a unique index |
| `WorkerProofs.FinalizeKeepsInv` | backend/src/eventharbor/deliveries/worker.py:275-373 | finalize keeps the invariant, never raises, changes nothing when stale, and is accepted exactly when the snapshot's attempt is reserved and leased to this worker |
| `WorkerProofs.DelayBounds` | backend/src/eventharbor/deliveries/worker.py:280-293 | a retry delay exists iff the result may be retried within the budget; it lies between zero and the larger of backoff ceiling and Retry-After cap, and never below the clamped Retry-After |
| `WorkerProofs.ClaimEffect` | backend/src/eventharbor/deliveries/worker.py:68-182 | what a claim changes: one active delivery in place, only its own attempts, one fresh attempt numbered one above the old count, and a snapshot that agrees with it |
| `WorkerProofs.FinalizeEffect` | backend/src/eventharbor/deliveries/worker.py:344-373 | what an accepted result changes: exactly its own attempt, now completed with the result's evidence, and its own delivery, which keeps its attempt count and stops being in progress |
| `Effects.ClaimDecidesExactly` | backend/src/eventharbor/deliveries/worker.py:107-142 | a claim issues a snapshot iff the endpoint is enabled and an attempt remains, otherwise it dead-letters with a reason; the evidence of an expired lease becomes indeterminate and resolved attempts are untouched |
| `Effects.LeaseIsExclusive` | backend/src/eventharbor/deliveries/worker.py:144-182 | the snapshot carries the endpoint's address and secret and the event's body and run id as stored; no claim can select the delivery before the lease expires |
| `Effects.FinalizeRecordsTheResult` | backend/src/eventharbor/deliveries/worker.py:344-384 | an accepted result delivers, now, iff it is 2xx, shows an error iff it is not, releases the lease, and records the whole exchange in its attempt |
| `Worker.DeliveryWorker.FindEvidence` | backend/src/eventharbor/deliveries/worker.py:236-249 | finds the one reserved attempt of the current number and lease, or none exactly when none exists |
| `Worker.DeliveryWorker.ResolveExpiredAttempt` | backend/src/eventharbor/deliveries/worker.py:222-273 | resolving an expired lease in place equals its specification: missing evidence, redelivery with the attempt staged as indeterminate, or a dead letter for a disabled endpoint or an exhausted budget |
| `Worker.DeliveryWorker.DeadLetterWithoutAttempt` | backend/src/eventharbor/deliveries/worker.py:202-220 | due work that cannot be claimed is dead-lettered with its reason and without an attempt |
| `Worker.DeliveryWorker.ReserveAttempt` | backend/src/eventharbor/deliveries/worker.py:144-182 | the tail of a claim leases the row, reserves the next attempt and returns the snapshot, or rolls back |
| `Worker.DeliveryWorker.SelectDue` | backend/src/eventharbor/deliveries/worker.py:73-106 | the claim query finds nothing exactly when no unlocked row may be taken, and otherwise the one that has been due longest: since its lease expired if it is in progress, since its scheduled attempt otherwise, ties by smaller id |
| `Worker.DeliveryWorker.ClaimOne` | backend/src/eventharbor/deliveries/worker.py:68-182 | claim_one takes that row and does exactly what the claim transaction specifies; it changes nothing when nothing may be taken |
| `Worker.DeliveryWorker.Finalize` | backend/src/eventharbor/deliveries/worker.py:275-373 | finalize, assignment by assignment, does exactly what its transaction specifies; an accepted retryable result below the budget leaves the row waiting until now + max(jitter x window, Retry-After), any other accepted result ends it |
| `Worker.DeliveryWorker.RunOnce` | backend/src/eventharbor/deliveries/worker.py:386-404 | run_once claims, sends and finalizes at most one delivery; it is idle exactly when nothing is claimable |
| `Worker.DeliveryWorker.RunUntilIdle` | backend/src/eventharbor/deliveries/worker.py:406-418 | polling with a frozen clock stops, stops with nothing due, keeps the invariant, loses no delivery and takes no more turns than the table's budget |
| `Worker.SelectionIsUnique` | backend/src/eventharbor/deliveries/worker.py:97-105 | the order of the claim query selects at most one row |
| `Worker.FirstRowExists` | backend/src/eventharbor/deliveries/worker.py:97-105 | the order of the claim query selects a row of every non-empty set |
| `Claims.SelectedIsDueLongest` | backend/src/eventharbor/deliveries/worker.py:73-105 | on the columns, without the query's own functions: a row is selected iff it may be taken and no other row that may be taken has been due longer, or as long with a smaller id; none is iff none may be taken |
| `Claims.ClaimWritesTheRow` | backend/src/eventharbor/deliveries/worker.py:107-182 | every column a claim writes: the lease from its own clock reading for exactly the lease time, owner, token, count, updated_at, the reason texts, the expired attempt, the reserved attempt; the claimed row may be taken again exactly from the lease's end; every other row stays |
| `Schedule.ClaimsTakeTheLongestDue` | backend/src/eventharbor/deliveries/worker.py:97-105 | in every reachable state the claimed delivery is the one due longest, and its row becomes as those columns say |
| `Answers.ResultOfExchange` | backend/src/eventharbor/deliveries/transport.py:57-175 | the whole result of an exchange: disposition by status, error kind, message cut at 1,024 characters, excerpt, times; the Retry-After asks for exactly its clamped value, and for nothing when it is absent, malformed, negative or not finite |
| `Answers.ExchangeDecidesTheRow` | backend/src/eventharbor/deliveries/worker.py:275-384 | from the exchange to the rows: 2xx delivers now; a failure, 408, 425, 429 or 5xx below the budget waits until now + max(jitter x window, asked); everything else is dead-lettered at once; with every column of the row (error text, updated_at, lease) and of the attempt, and all other rows unchanged |
| `Answers.ResultSchedulesNext` | backend/src/eventharbor/deliveries/worker.py:280-293 | what any accepted result schedules: the next attempt at exactly now + max(jitter x window, Retry-After), or none |
| `Contract.AttemptsAreJudgedByStatus` | backend/src/eventharbor/deliveries/retry.py:63-72 | in every reachable state a completed attempt is a success iff 2xx, retryable iff unanswered or 408, 425, 429 or 500..599, and final otherwise |
| `Worker.TurnSpends` | backend/src/eventharbor/deliveries/worker.py:386-404 | one turn keeps the invariant, lowers the table's budget and fails only for an impossible HTTP status |
| `ServiceProofs.PublishKeepsInv` | backend/src/eventharbor/services.py:124-228 | publish keeps the invariant, never raises, and changes the database exactly when the key is new, the data valid and the endpoint enabled |
| `ServiceProofs.PublishAgain` | backend/src/eventharbor/services.py:208-228 | publishing under a key already held changes nothing and returns the held event iff the fingerprint is the same |
| `ServiceProofs.EventInsertIsClean` | backend/src/eventharbor/repositories.py:54-74 | the event alone, before its delivery, already satisfies every constraint |
| `ServiceProofs.InitialExists` | backend/src/eventharbor/repositories.py:104-110 | an event has exactly one initial delivery to the endpoint its fingerprint fixes |
| `ServiceProofs.ReplayKeepsInv` | backend/src/eventharbor/services.py:244-353 | a replay decision keeps the invariant; it raises iff the event was purged; an existing successor is returned or supersedes; it inserts exactly when the latest dead letter is unblocked and its endpoint enabled; active_delivery_exists is never answered and no unique index is tripped |
| `ServiceProofs.LatestIffNotReplayed` | backend/src/eventharbor/repositories.py:138-148 | a delivery is the latest of its chain iff nothing replays it |
| `ServiceProofs.LatestExists` | backend/src/eventharbor/repositories.py:138-148 | every chain has a latest generation |
| `ServiceProofs.NoActiveInDeadChain` | backend/src/eventharbor/repositories.py:150-162 | when the latest generation is dead-lettered, so is the whole chain |
| `ServiceProofs.RemovalKeepsInv` | backend/src/eventharbor/maintenance.py:34-65 | removing events with their deliveries and attempts keeps constraints, ledger and lineage |
| `Services.EventService.GetByIdempotencyKey` | backend/src/eventharbor/repositories.py:76-81 | finds the one event that holds a key, or none exactly when none does |
| `Services.EventService.GetInitial` | backend/src/eventharbor/repositories.py:104-110 | finds the one generation-0 delivery of an event and endpoint, or none exactly when none exists |
| `Services.EventService.Publish` | backend/src/eventharbor/services.py:124-206 | publish, check by check and insert by insert, does exactly what its transaction specifies; a new event holds the request's type and data in its columns and in its body, and its delivery is due from the database's clock on |
| `Envelopes.PublishStoresTheRequest` | backend/src/eventharbor/services.py:134-178 | a publish names an event that holds the requested type and data in its columns, in its body under its own id and creation time, and in its fingerprint; also when the key was taken before |
| `Envelopes.EnvelopesAgree` | backend/src/eventharbor/models.py:95-104 | in every reachable state each event's body and fingerprint agree with its own columns, and every snapshot ever issued with the body it carries |
| `Envelopes.SentAsPublished` | backend/src/eventharbor/deliveries/worker.py:169-182 | in every continuation of an accepted publish, also after a purge, every request ever sent of its event carries the requested type, data and run under the event's id |
| `Envelopes.SnapshotOfClaim` | backend/src/eventharbor/deliveries/worker.py:169-182 | the snapshot a claim hands out names its delivery, attempt, token and number, and carries the event's body, type and run and the endpoint's address and secret as stored |
| `Envelopes.PublishIsDecided` | backend/src/eventharbor/services.py:124-206 | the answer to a publish, decided in order on the columns: key of white space only, unknown endpoint, data that is no JSON, taken key, disabled endpoint; only a new acceptance adds rows, the event and one pending delivery due from the database's clock on |
| `Replays.ReplayIsDecided` | backend/src/eventharbor/services.py:244-353 | the answer to a replay, decided in order on the columns: an existing successor, a source not read as dead-lettered, a last answer 400 with a correction code, a disabled endpoint; only an acceptance adds a row, the next generation of the same event and endpoint, due from the database's clock on |
| `Replays.BlockOfOnColumns` | backend/src/eventharbor/deliveries/retry.py:24-60 | a replay is blocked iff the last attempt was answered 400 with a code that begins with missing_ or is one of seven |
| `Services.EventService.ResolveReplay` | backend/src/eventharbor/services.py:208-228 | resolving a taken key answers exactly as specified |
| `Idempotency.BegunReplayStaysSound` | backend/src/eventharbor/services.py:244-262 | a replay that began with the stored row may rely on it until it decides, in any continuation that retains the event: the source is still there with the identity that was read, and if it was read as a dead letter it is that row still, column by column |
| `Services.ReplayService.GetExisting` | backend/src/eventharbor/repositories.py:127-136 | finds the replay of a source under a key |
| `Services.ReplayService.GetLatest` | backend/src/eventharbor/repositories.py:138-148 | finds the highest generation of a chain, or none exactly when the chain is empty |
| `Services.ReplayService.BlockOfLastAttempt` | backend/src/eventharbor/services.py:296-312 | the block code of the attempt with the highest number |
| `Services.ReplayService.Decide` | backend/src/eventharbor/services.py:264-353 | replay from its lock on does exactly what its transaction specifies |
| `Paging.DescendingIsTheList` | backend/src/eventharbor/control_room.py:180-199 | the listing holds each row once, in strictly descending key order |
| `Paging.RestOfTheList` | backend/src/eventharbor/control_room.py:180-199 | what is below the i-th row of a listing is the rest of the listing |
| `Paging.WalkIsTheList` | backend/src/eventharbor/control_room.py:158-225 | for any page size following next_cursor visits exactly the unbounded listing, in order, nothing skipped or repeated |
| `ControlRoom.LatestAgrees` | backend/src/eventharbor/control_room.py:104-114 | the not-exists condition selects exactly the highest generation |
| `ControlRoom.OneLatestPerEvent` | backend/src/eventharbor/control_room.py:104-114 | an event has at most one latest delivery |
| `ControlRoom.EventWalkIsComplete` | backend/src/eventharbor/control_room.py:158-200 | for any filter and page size the event list visits the latest delivery of every matching event exactly once, newest first |
| `ControlRoom.DeadLetterWalkIsComplete` | backend/src/eventharbor/control_room.py:230-296 | for any page size the dead-letter list visits exactly the dead-lettered latest deliveries |
| `ControlRoom.EndpointWalkIsComplete` | backend/src/eventharbor/control_room.py:202-225 | for any page size the endpoint list is complete and in order |
| `Listings.EventListOnColumns` | backend/src/eventharbor/control_room.py:158-200 | for any filter and page size, the pages hold exactly the events whose last generation passes the filter, each once, by created_at and then id, both descending |
| `Listings.DeadLetterListOnColumns` | backend/src/eventharbor/control_room.py:230-290 | the pages hold exactly the dead-lettered last generations of the endpoint asked for, each once, by updated_at and then id, both descending |
| `Listings.EndpointListOnColumns` | backend/src/eventharbor/control_room.py:202-225 | the pages hold every endpoint once, by created_at and then id, both descending |
| `Listings.CountsOnColumns` | backend/src/eventharbor/control_room.py:134-156 | each status count of the overview is the number of events whose last generation has that status |
| `Listings.EvidenceOnColumns` | backend/src/eventharbor/control_room.py:245-262 | the status and the excerpt shown with a dead letter are those of its last attempt, and none without an attempt |
| `ControlRoom.GenerationCountIsTrue` | backend/src/eventharbor/routers/v1.py:339 | latest generation plus one is the true number of the event's deliveries |
| `ControlRoom.OverviewAddsUp` | backend/src/eventharbor/control_room.py:123-156 | the five status counts sum to the number of events, and the dead-lettered count is the length of the dead-letter list |
| `ControlRoom.LatestAsManyAsEvents` | backend/src/eventharbor/control_room.py:123-156 | there are as many latest deliveries as events |
| `ControlRoom.EvidenceAgrees` | backend/src/eventharbor/control_room.py:230-296 | the evidence subqueries of the list give the same block code as the replay service's last attempt |
| `ControlRoom.DeadLetterListAgreesWithReplay` | backend/src/eventharbor/routers/v1.py:78-101 | a listed row is replayable iff replaying it with any key would be accepted now, and otherwise its blocked_code is the conflict replay would raise |
| `Retention.OldestIsUnique` | backend/src/eventharbor/maintenance.py:40-55 | the oldest k expired events are one definite set |
| `Retention.OldestCompose` | backend/src/eventharbor/maintenance.py:84-112 | the oldest j, then the oldest k of the rest, are the oldest j + k |
| `Retention.RemovalsCompose` | backend/src/eventharbor/maintenance.py:34-65 | two removals are one removal of the union |
| `Retention.ExpiredAfterRemoval` | backend/src/eventharbor/maintenance.py:34-65 | after a removal exactly the other eligible events remain eligible |
| `Retention.OldestOnColumns` | backend/src/eventharbor/maintenance.py:40-55 | a batch's specification on the columns: it takes events created before the cutoff whose deliveries are all delivered or dead-lettered, and leaves one only if it is full and that one is later in (created_at, id) than all it took; and conversely |
| `Retention.RemovalOnColumns` | backend/src/eventharbor/maintenance.py:58-65 | a removal leaves exactly the rows that do not hang on a removed event, unchanged |
| `LatePurge.LatePurgeKeepsActiveIff` | backend/src/eventharbor/maintenance.py:40-65 | from the select to the deletion anything may commit; the deletion then keeps every active delivery exactly when no selected event has an active delivery that a replay created since; every such delivery was created by a replay decision in between, all rows of other events stay, and the invariant holds again |
| `LatePurge.OnlyReplaysAreLate` | backend/src/eventharbor/maintenance.py:42-53 | an active delivery of an event that had only terminal ones when it was selected was created since then, and by a replay |
| `LatePurge.LosingRun` | backend/src/eventharbor/maintenance.py:54-65 | a run from the empty database in which retention selects an event, a replay of its dead letter commits, and the deletion removes that pending replay |
| `LatePurge.RunIsPolite` | backend/src/eventharbor/maintenance.py:68-112 | what the retention job assumes of the transactions between its statements (events stay unchanged, attempts keep their deliveries) holds of every run of the protocol without another purge |
| `Retention.RetentionJob.SelectOldest` | backend/src/eventharbor/maintenance.py:40-55 | selects exactly the oldest `limit` candidates in (created_at, id) order |
| `Retention.RetentionJob.DeleteTerminalEventBatch` | backend/src/eventharbor/maintenance.py:34-65 | one batch takes, on the columns, exactly the oldest `limit` events that may go at its select, and then removes exactly those, with what depends on them, from whatever others have committed since; it changes nothing when none may go |
| `Retention.RetentionJob.PurgeExpiredDemoEvents` | backend/src/eventharbor/maintenance.py:68-112 | with other transactions committing between all its statements: each batch takes, on the columns, exactly the oldest events that may go at its own select, at most max_events in all, the tables are those batches removed from what others left, and a run that stops short of max_events leaves no event that may go; undisturbed, the run is one removal of the oldest min(max_events, eligible) events for every batch size, in ceil(N/batch_size) batches; nothing changes without the lock or with bad arguments |
| `Retry.DelayWithinCeiling` | backend/src/eventharbor/deliveries/retry.py:96-111 | the delay is exactly the jitter's share of the window; full jitter stays within [0, ceiling], the ceiling within the maximum, and the ceiling never shrinks |
| `Retry.CeilingIsWindow` | backend/src/eventharbor/deliveries/retry.py:96-111 | the window is the base delay after the first failure and then the smaller of the maximum and twice the one before |
| `Transport.SendWebhookWellFormed` | backend/src/eventharbor/deliveries/transport.py:57-175 | an answer, a timeout or a request error gives a well-formed result: success iff 2xx, to be retried iff unanswered or 408, 425, 429 or 500..599, Retry-After clamped and only on retryable results; of these exchanges only an answer with an impossible status escapes |
| `Schedule.RetriesAreScheduledInTheWindow` | backend/src/eventharbor/deliveries/worker.py:282-293 | a retry is scheduled exactly for retryable completed attempts below the budget, inside the window after resolution; a waiting row is due when its last attempt says |
| `Schedule.RetryAfterIsHonoured` | backend/src/eventharbor/deliveries/transport.py:57-80 | the scheduled time is neither before now + the clamped Retry-After nor after now + max(ceiling, cap) |
| `Schedule.ClaimsAreNeverEarly` | backend/src/eventharbor/deliveries/worker.py:73-104 | a claim is never selected before the time its delivery's last attempt scheduled, nor before its lease expired |
| `Schedule.TotalWaitIsBounded` | backend/src/eventharbor/deliveries/retry.py:96-111 | all waiting that retries of one delivery are ever scheduled to do is at most the sum of the windows after failures 1..M-1 |
| `ReceiverLab.AcceptedExactlyWhenContractMet` | backend/src/eventharbor/receiver_lab/api.py:177-227 | no validation error iff the body meets its event type's contract on the right route, or its type is unknown and none is asked for |
| `ReceiverLab.FirstFailing` | backend/src/eventharbor/receiver_lab/api.py:206-220 | the first field that fails, in order; none iff all pass |
| `ReceiverContracts.RejectedFieldByField` | backend/src/eventharbor/receiver_lab/api.py:177-227 | the code that rejects a body, for each of the four event types: route, then each required text, then each positive integer, then the three characters of the currency, in that order and by name |
| `ReceiverContracts.AnswerInNumbers` | backend/src/eventharbor/receiver_lab/api.py:269-343 | the next request is answered 400 with the body's code, 429 or 503 while the mode turns requests away, 200 otherwise, with the response code and all evidence |
| `ReceiverLab.RejectionBlocksReplay` | backend/src/eventharbor/deliveries/retry.py:24-60 | a rejection asks for a corrected payload iff the body is not one of two kinds: a known event that came by another route, or a paid order complete but for a positive amount; those two carry the codes the worker's list lacks |
| `ReceiverLab.ReplayableIsRejected` | backend/src/eventharbor/receiver_lab/api.py:196-220 | both kinds are rejected whatever the mode |
| `ReceiverLab.ZeroAmountIsNotBlocked` | backend/src/eventharbor/receiver_lab/api.py:214-220 | a paid order of zero cents is rejected with invalid_amount_cents, which does not block its replay |
| `ReceiverLab.WrongRouteIsNotBlocked` | backend/src/eventharbor/receiver_lab/api.py:197-203 | a valid paid order on the shipping route is rejected with wrong_receiver_route, which does not block its replay |
| `ReceiverRegistry.AdmitEvictsTheOldest` | backend/src/eventharbor/receiver_lab/api.py:94-105 | a control request touches its run last, keeps all others' states and evicts at most the least recently touched run, only for a new run in a full registry |
| `ReceiverRegistry.StepKeepsWellFormed` | backend/src/eventharbor/receiver_lab/api.py:79-116 | keys and order agree, without repeats, at most 100 |
| `ReceiverRegistry.HoldsTheMostRecent` | backend/src/eventharbor/receiver_lab/api.py:79-116 | after any requests the registry holds, in touch order, exactly the runs since whose touch at most 100 distinct runs were touched |
| `ReceiverRegistry.RecentIffInWindow` | backend/src/eventharbor/receiver_lab/api.py:79-116 | the last 100 runs in recency order are exactly the recently touched ones |
| `ReceiverRegistry.OtherRunsAreUntouched` | backend/src/eventharbor/receiver_lab/api.py:94-116 | a request about one run changes another only by evicting it as the oldest |
| `ReceiverRegistry.FallbackIsUntouched` | backend/src/eventharbor/receiver_lab/api.py:94-116 | the unscoped state changes only for requests that name no registered run |
| `ReceiverRegistry.EvidenceIsTheRecentHistory` | backend/src/eventharbor/receiver_lab/api.py:269-330 | each state's evidence is the last min(sequence, 100) requests of its full history, consecutively numbered, across reconfigurations |
| `ReceiverRegistry.EvictRestricts` | backend/src/eventharbor/receiver_lab/api.py:103-104 | the eviction loop keeps the last 100 keys and removes exactly the others' values |
| `Receiver.ReceiverState.ConfiguredState` | backend/src/eventharbor/receiver_lab/api.py:94-105 | pop, create or reinsert, and evict, on shared objects: equal to the registry's specification, returning the object the key now denotes |
| `Receiver.ReceiverState.WebhookState` | backend/src/eventharbor/receiver_lab/api.py:107-116 | moves a known run to the end and returns its object, otherwise the unscoped one |
| `Receiver.ReceiverState.Configure` | backend/src/eventharbor/receiver_lab/api.py:132-144 | sets the configuration and resets only the scenario counter of that one run |
| `Receiver.ReceiverState.ControlState` | backend/src/eventharbor/receiver_lab/api.py:147-162 | touches the run and returns its configuration, its counter and its newest twenty entries of evidence |
| `Receiver.ReceiverState.ListRequests` | backend/src/eventharbor/receiver_lab/api.py:165-174 | touches the run and returns all its evidence and its size |
| `Receiver.ReceiverState.Reset` | backend/src/eventharbor/receiver_lab/api.py:87-92 | restores the empty registry |
| `Receiver.ReceiverRunState.Answer` | backend/src/eventharbor/receiver_lab/api.py:269-330 | counts, answers and appends evidence for one request exactly as specified |
| `Receiver.ReceiverState.ReceiveWebhook` | backend/src/eventharbor/receiver_lab/api.py:249-343 | the locked part of a webhook equals the registry's step; the answer is the recorded status and its code |
| `EndToEnd.OutcomeIsExact` | backend/src/eventharbor/receiver_lab/api.py:286-305 | in any interleaving with other deliveries, without lease expiry: if every request is answered, delivered at attempt k + 1 when the receiver turns away k < M accepted bodies first, dead-lettered after exactly M retryable failures otherwise, dead-lettered after one attempt for a rejected body, and active until then; with f transport failures a delivered row took between k + 1 and k + 1 + f attempts, a dead letter of an accepted body exactly M <= k + f, one of a rejected body at most f + 1; every completed attempt is a retryable transport failure or carries the receiver's evidence, and without failures attempt n carries exactly the status, code and verdict of the receiver's n-th answer |
| `EndToEnd.FittingIsOnCourse` | backend/src/eventharbor/receiver_lab/api.py:286-305 | the same bounds, in every state that fits, from the counts of requests sent, received and failed |
| `EndToEnd.OutcomeIsReached` | backend/src/eventharbor/deliveries/worker.py:386-404 | from every such state in which the delivery is not in progress, undisturbed worker turns reach its end, and the exact outcome if no request failed in transport before |
| `EndToEnd.StepKeepsLabInv` | backend/src/eventharbor/deliveries/worker.py:68-404 | every step of the composition keeps the counts: the receiver counted every request sent but failed ones, it answered no more of them than the outcome takes, and a final answer belongs to the last attempt |
| `EndToEnd.AnswerIsExpected` | backend/src/eventharbor/receiver_lab/api.py:286-311 | the transport's result for the receiver's n-th answer has the expected disposition, status and code |
| `EndToEnd.RateLimitAsksForFiveSeconds` | backend/src/eventharbor/receiver_lab/api.py:334-343 | the receiver's Retry-After reaches the worker as five seconds, or its cap, on 429 only |
| `EndToEnd.RejectedBodyBlocksReplay` | backend/src/eventharbor/services.py:296-312 | the dead letter of a rejected body asks for a corrected payload iff its last attempt was answered and the body is neither misrouted nor a paid order lacking only its amount; without transport failures it was answered |
| `EndToEnd.RejectedBodyReplays` | backend/src/eventharbor/services.py:244-353 | replaying that dead letter under a new key succeeds in exactly the other cases, unless it was replayed before |
| `CanonicalJson.CanonicalDecidesEquality` | frontend/src/components/LiveNetworkTrace.tsx:82-105 | receiverBodyMatches holds iff the preview parses and the two values are equal up to object key order |
| `CanonicalJson.CanonicalIsInjective` | frontend/src/components/LiveNetworkTrace.tsx:82-97 | two printed values that begin the same text are equal up to key order and end at the same place |
| `CanonicalJson.EscapeIsInjective` | frontend/src/components/LiveNetworkTrace.tsx:96 | a quoted string can be read back from any text it begins |
| `CanonicalJson.SamePrintsAlike` | frontend/src/components/LiveNetworkTrace.tsx:82-97 | equal values print the same text, whatever their key order |
| `CanonicalJson.SortIsSorted` | frontend/src/components/LiveNetworkTrace.tsx:88-92 | sorting entries with distinct keys by code unit yields a strictly sorted sequence |
| `Migration.AttemptTables.Upgrade` | backend/alembic/versions/20260823_0003_durable_attempt_ledger.py:27-120 | the upgrade succeeds iff every row's lease matches its status and the inserted keys and numbers are admissible; then the revised schema holds and the rows are as specified, otherwise nothing changes |
| `Migration.AttemptTables.Downgrade` | backend/alembic/versions/20260823_0003_durable_attempt_ledger.py:123-153 | the downgrade always succeeds on the revised schema and yields the earlier one |
| `Migration.UpgradeFits` | backend/alembic/versions/20260823_0003_durable_attempt_ledger.py:76-120 | the upgraded rows satisfy the lifecycle check, both unique constraints and the partial unique index |
| `Migration.UpgradedColumns` | backend/alembic/versions/20260823_0003_durable_attempt_ledger.py:50-74 | column by column: a historical row keeps everything, is completed, resolved at its creation and has its own id for a token; each further row is the reserved attempt of one live lease whose number had none |
| `Migration.LiveLeaseIsCovered` | backend/alembic/versions/20260823_0003_durable_attempt_ledger.py:60-74 | a lease live during deployment gets exactly one matching reserved attempt iff its current number had no row |
| `Migration.LedgerNumbersAfterUpgrade` | backend/alembic/versions/20260823_0003_durable_attempt_ledger.py:60-74 | the ledger then has the old numbers and the current numbers of live leases, no others |
| `Migration.LedgerIsCompleteIff` | backend/alembic/versions/20260823_0003_durable_attempt_ledger.py:60-74 | after the upgrade a delivery's attempts are numbered exactly 1..attempt_count iff every number missing before was the current number of a live lease and no row was numbered beyond the count |
| `Migration.GapMayRemain` | backend/alembic/versions/20260823_0003_durable_attempt_ledger.py:60-74 | a database that satisfies every constraint, foreign keys included, whose upgraded ledger still lacks a number |
| `Migration.DowngradeRestores` | backend/alembic/versions/20260823_0003_durable_attempt_ledger.py:123-153 | downgrade after upgrade restores the attempt rows exactly |
| `Tour.RunReliabilityTour` | frontend/src/reliabilityTour.ts:121-454 | a tour always ends, every poll but the last before the deadline; a reported success was true of the server when read: in a replay tour generation 0 dead-lettered and its linked replay delivered; an event it published holds the story key |
| `Tour.AwaitSource` | frontend/src/reliabilityTour.ts:290-373 | polling generation 0 ends with a terminal status, in a replay tour a dead letter, or stops the tour without success |
| `Tour.AwaitReplay` | frontend/src/reliabilityTour.ts:420-448 | polling the replay reports success only for a delivered replay still linked to a dead-lettered generation 0 |
| `Tour.FollowReplay` | frontend/src/reliabilityTour.ts:345-448 | authorizing, recovering or resuming a replay leads to the same verified facts |
| `Tour.VerifiedStays` | frontend/src/reliabilityTour.ts:430-440 | what a verified replay tour saw stays true in every later state that retains it |
| `Tour.RequestReplay` | frontend/src/reliabilityTour.ts:392-395 | the id of an accepted replay is kept even when the event cannot be loaded again |
| `Tour.RunsShareOneStory` | frontend/src/reliabilityTour.ts:139-141 | for any number of runs with one run id, started, paused and resumed from each other at any moments of one server: the retained events they report are one event, and the retained replays they report are one delivery, the successor of its generation 0 |

## Left out

- Contract.NothingRaises: database text errors are not modelled, such as a NUL character in a stored
  response excerpt or a value longer than its varchar column; strings in the rows are unbounded.
- HTTP wiring, response headers, request schemas, sessions and engines: plumbing around the
  transactions that are modelled.
- The exchange itself, HMAC signatures and SHA-256: a send is a step that returns any well-formed
  result, and digests are injective.
- Cursor text (`encode_cursor`, `decode_cursor`): a cursor is its timestamp and row id; the base64url
  and JSON layers are thin library wrappers.
- A second clock reading per row inside the claim query: the query uses one instant.
- LatePurge.LatePurgeKeepsActiveIff: a replay that commits while a deletion waits for its row locks
  escapes that statement's snapshot and makes a foreign key fail; the purge then rolls back, which is a
  run without this purge step. A batch's deletions take effect at once, although they are committed
  with the whole run.
- Transport.SendWebhookWellFormed: client exceptions outside RequestError, such as an invalid URL, are
  not modelled; in the protocol each is a send whose answer is never seen.
- Endpoint creation checks, settings validation and demo presets: single-branch facts.
- The Receiver Lab's delay in seconds and its body preview: a late answer is a failed request, and the
  evidence keeps the body itself.
- Decoding of a stored response excerpt: reading it yields a code or nothing, as a value.
- Alembic revisions 0001, 0002, 0004 and 0005: declarations or one-column changes.
- The tour's progress messages and the user interface: only the result and its evidence are modelled;
  the clock and durations are whole milliseconds, and a tour's calls are answered in order.
- Liveness under an unfair scheduler: progress is proved as bounded work, selectability and
  reachability of the outcome, not as a temporal statement.
- `Services`, `Worker`, `Retention`: rows are values in the tables' maps, so aliasing between session
  objects is not captured; the one effect of it that matters, the kept first read of a replay, is.
- `infra/`, `scripts/` and deployment: outside the protocol.
