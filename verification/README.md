# Verified model of the integration hub's delivery protocol

The hub accepts events from producers, routes each one to the destinations that subscribe to it, and calls
partners "at least once, recorded exactly once". It has no locks. What keeps it consistent is optimistic
conditional transactions on one table, leases on deliveries, an outbox, and queue messages that may be
handed out twice. This project models that protocol and the smaller cores around it, and proves what they
are for.

`dafny verify dfyconfig.toml` checks everything.

## How the model is laid out

**The protocol.** `Domain` holds the state machine of a delivery, event outcomes, result classification and
backoff. `Cells` is one delivery with all that is stored under its key: record, attempts, index rows; each
`Commit…` function is the delivery's share of one conditional transaction. `System` is the whole system: its
state (clock, events, cells, outbox rows, scheduled work, messages, circuit and rate items, rollups, guards
of idempotent requests) and its atomic steps. A step is one conditional transaction, one read, one queue
operation or one clock reading. The task of a worker is kept with the message it holds and remembers the
snapshots it has read, so any number of other steps can come between two steps of one task. `Run` is any
sequence of enabled steps; theorems about it hold for all interleavings, crashes, duplicates and lost races.

- `Invariants`, `Steps`: what holds in every reachable state and why each step keeps it.
- `Fencing`, `Sends`, `Accounting`, `Wakeup`, `Routing`, `Conservation`, `Permits`, `Idempotency`: what
  follows for deliveries, partner calls, events, carriers, rollups, permits and repeated requests.
- `Answers`: for every transaction and every decision of a worker exactly when it goes which way, and what is
  written. `Finishing`, `Routable`: that deliveries can always be finished and events always be routed.
- `Overtaking`, `StaleRun`: that a lease holder can be overtaken at any point before its attempt, and a run in
  which it is.
- `Repository`: `finalizeAttempt`, `createDelivery` and `completeRouting` as programs with their eight-round
  retry loops. What they do, with other workers acting between any two of their requests, is a run of the
  system; their contracts say what their answers mean.
- `RateLimiter`, `Spacing`, `CircuitBreaker`: the pure decisions, the chain of committed writes, and the
  compare-and-swap loops around them. `Rollups`: hourly counters. `Search`: queries over the delivery indexes.

**Self-contained cores.** `Encoder` (base-32 identifiers), `Cycles` (dependency cycle check), `Canonical` and
`Serialization` (the sorting JSON serializer), `Transformation` (dotted-path transformations on values) and
`OutputTree` (the same with mutable objects and references, as the runtime has it), `Portability`, `Import`,
`Decisions`, `PlanListing`, `Applicability`, `ControlPlane` and `Settling` (configuration plan, apply, when it
succeeds, and repeated applies).

## Facts of the code that decide what is true

- `rate_limited` can only move to `scheduled` (packages/domain/src/index.ts:712). `acquireLease` admits the
  state (packages/persistence/src/index.ts:2371), but its transition then throws, so no lease is ever taken
  from it. The model has no such step; `RateLimitedIsNeverLeased` says so. Nothing else
  touches the delivery either (`RateLimitedIsStuck`), so it is the one state from which a delivery can not be
  finished any more (`FinishableIff`).
- `startAttempt` changes `updatedAt` and leaves the index rows alone. A delivery with an active attempt need
  not be listed at its current time, and old rows stay behind. `IndexAgreement` therefore speaks of
  deliveries without an active attempt; `StartedListed` says exactly when the others are listed.
- `searchDeliveries` by delivery identifier ignores the other filters (packages/persistence/src/index.ts:684).
- A transaction that would delete and put the same index key is rejected. `IndexClash` is the condition.
- A stale finalizer may make the derivation of the event status throw instead of failing a condition. Neither
  changes anything; `NextEvent` is then `None`.
- `finalizeAttempt` retries under one fixed circuit version. Of several attempts permitted at one version at
  most one can commit its real result (`OneResultPerVersion`); the others end in lease recovery, which passes
  no circuit.
- `deliver` writes `nextEligibleAt` and an outbox row also when it dead-letters; recovery does not.
- The answers of `recoverExpired` and `defer` are ignored before the message is acknowledged. `Wakeup` shows
  why that loses nothing: the condition can only have failed because someone else has moved the delivery on.
- An import that is planned again after it was applied is expected to be UNCHANGED throughout
  (tests/integration/m02.integration.test.ts:311). The code does not guarantee that in general. An update
  cannot take a partner's description away, so its partner is planned for UPDATE after every apply. New
  transformation versions are numbered consecutively whatever the bundle calls them, so a gap takes as many
  applies as `GapCloses` says. A destination is not compared with a transformation that does not exist yet,
  so it may take a second apply. `ConvergesExactly` is the exact condition for one apply, `SettlesExactly`
  for any number; `DroppedDescription`, `SkippedVersion` and `UnknownTransformation` are inputs for the causes.

## Assumptions

- There is one non-decreasing clock. The rate limiter's bound does not use it: permits carry the clock
  readings of their callers, in any order.
- Reads are consistent; nothing expires by TTL; no message is redriven from a dead-letter queue.
- A conditional failure comes from a failed condition.
- A held message comes back only after its holder has stopped and the lease it held has run out.
- The eight rounds of a recovery do not run out on the event alone.
- The policies of destinations do not change during a run.
- Hashes are injective and generated identifiers unique, so the identifier of an original delivery is the
  pair of event and destination.
- Destinations are reached through the local deployment, in which late work is materialized in the table.
- A transition in JavaScript that throws ends the task: the only step left to it is the crash.

## Model

| member | source | states |
|---|---|---|
| Domain.DelayBounds | packages/domain/src/index.ts:650-667 | whatever the random source and the partner answer, a retry delay lies between half the capped exponential and the maximum, and an acceptable Retry-After is honoured |
| Domain.BackoffGrows | packages/domain/src/index.ts:656-660 | the base of the delay is the initial one for the first attempt, is multiplied from attempt to attempt, and stays at the maximum |
| Domain.JitterIsExact | packages/domain/src/index.ts:661-667 | the draw yields between half and all of the base, in proportion; a longer Retry-After takes its place, up to the maximum |
| Domain.TransitionIsExact | packages/domain/src/index.ts:707-801 | a transition is refused exactly for a stale version, a pair of states that is not listed, a missing lease, a foreign token or a missing eligibility time; otherwise the record is determined field by field |
| Domain.StatusIsExact | packages/domain/src/index.ts:517-541 | a status is derived exactly from consistent counters, and every status is characterized by the counters it stands for |
| Domain.ClassificationMeans | packages/domain/src/index.ts:550-637 | success is exactly a 2xx answer; exactly which answers are worth a retry, which of them count toward the circuit, and which category each failure is recorded with |
| Domain.ReplayIsExact | packages/domain/src/index.ts:478-499 | a dead-lettered delivery can be replayed, one that failed for good exactly with corrected input and a correctable cause |
| RateLimiter.GcraBound | packages/domain/src/index.ts:669-693 | of two committed permits i < j in version order, now_j >= now_i + (j-i+1-burst) increments, whatever the callers' clocks do |
| RateLimiter.WindowBound | packages/domain/src/index.ts:669-693 | a window of any length holds at most burst + length/increment permits |
| RateLimiter.PolicyBound | packages/domain/src/index.ts:669-693 | in terms of a policy, a window holds at most the burst and the requests per interval that fall into it, reduced by the safety factor and never more than agreed |
| RateLimiter.DenialIsExact | packages/domain/src/index.ts:678-692 | a denial names the least instant at which the same state permits: it permits if and only if asked then or later |
| Spacing.GrantedIsSpaced | packages/domain/src/index.ts:678-692 | exact: a sequence of requests is granted if and only if every two of them are spaced by their distance in rounded increments less the burst, in any order of clock readings |
| Spacing.StoredIsLatest | packages/domain/src/index.ts:687-692 | the stored arrival time is the latest one due to any permit, counted with all that followed it |
| RateLimiter.FreshCapacity | packages/domain/src/index.ts:678-692 | a fresh limiter grants n simultaneous permits if and only if n <= floor((burst-1)*I/ceil(I))+1 |
| RateLimiter.WholeIncrementCapacity | packages/domain/src/index.ts:678-692 | that capacity is the burst when the increment is a whole number of milliseconds |
| RateLimiter.RateLimitItem.PutIfVersion | packages/persistence/src/index.ts:3014-3040 | the conditional put keeps the item the result of its committed permits and appends exactly one on success |
| RateLimiter.RateLimitItem.AcquireRatePermit | packages/persistence/src/index.ts:2996-3048 | with other callers between any two requests, "permitted" means that this call has committed one permit; otherwise it has committed none and was denied by the item, or others have committed a permit in each of eight rounds; to callers between two requests the call itself is interference |
| CircuitBreaker.CircuitFold | packages/persistence/src/index.ts:3138-3154 | the item is the fold of the committed outcomes: version = number of writes, failures = counted failures since the last success, CLOSED if and only if below the threshold |
| CircuitBreaker.AskFromHistory | packages/persistence/src/index.ts:3064-3137 | what a caller is told, from the history alone: allowed below the threshold, else refused until the cooldown of the last counted failure or the lease of the last probe has passed, and a probe from then on |
| CircuitBreaker.CooldownExclusion | packages/persistence/src/index.ts:3138-3154 | after the failure that opens the circuit nothing but a probe is written, no earlier than the cooldown later, and callers are refused until just then |
| CircuitBreaker.RefusalIsExact | packages/persistence/src/index.ts:3064-3090 | a refusal names the least instant at which the same item would not refuse |
| CircuitBreaker.ProbeExclusion | packages/persistence/src/index.ts:3049-3137 | after a granted probe comes its own result, or another probe no earlier than its lease ran out |
| CircuitBreaker.UncountedKeepsProbe | packages/persistence/src/index.ts:3138-3154 | a result that does not count leaves the probe lease in force |
| CircuitBreaker.CommitResult | packages/persistence/src/index.ts:2849-2870 | a result committed under the version of its permit extends the chain, and the stored state is the one computed from that permit |
| CircuitBreaker.CircuitItem.AcquireCircuitPermit | packages/persistence/src/index.ts:3049-3137 | an allowed caller holds a permit a result can later be committed under, and the call has written nothing but its own probe; a caller is turned away by a refusal of the item, or when others have written in each of eight rounds; to callers between two requests the call is interference |
| CircuitBreaker.CircuitItem.PutResult | packages/persistence/src/index.ts:2849-2870 | a result is committed exactly when nothing was written since its permit; to callers between two requests it is interference |
| Cells.LeaseKeeps | packages/persistence/src/index.ts:2357-2445 | committing a lease keeps ledger, index and backoff of the delivery and raises its version by one |
| Cells.StartKeeps | packages/persistence/src/index.ts:2605-2667 | committing a started attempt appends attempt n+1 and keeps the same, although index rows are not moved |
| Cells.DeferKeeps | packages/persistence/src/index.ts:2882-2995 | giving a lease back, by the worker or by recovery, keeps the same; the retry of the last attempt is still due |
| Cells.FinalKeeps | packages/persistence/src/index.ts:2668-2793 | finishing an attempt closes exactly the active one and keeps the same |
| Cells.ResumeKeeps | packages/persistence/src/index.ts:3311-3420 | resuming a destination keeps the same, including the backoff |
| Cells.PlanResultOk | packages/application/src/index.ts:1978-2084 | what a worker plans after a partner answer never throws: a 2xx answer succeeds, one not worth a retry fails for good, a retryable one is due after the drawn delay or, on the last attempt, dead-lettered; category, eligibility time and outbox row are those of the answer |
| Cells.PlanTimeoutOk | packages/persistence/src/index.ts:3183-3231 | what recovery plans for an expired attempt is a failed attempt with category timeout, retried after the drawn delay or, when exhausted, dead-lettered without an outbox row |
| Cells.MoveIsExact | packages/persistence/src/index.ts:166-206 | moving the index takes away exactly the rows of the old record at its time and puts those of the new one |
| Answers.BranchIsExact | packages/application/src/index.ts:1714-1760 | what a worker does with the record it has read: acknowledge, recover, defer the message or go for the lease |
| Answers.AcquireReadIsExact | packages/persistence/src/index.ts:2357-2404 | a scheduled delivery and one waiting for its retry are leased if the caller knows the current record and it is due, with this record; a rate-limited one makes the call throw; otherwise there is no lease |
| Answers.AcquireCommitIsExact | packages/persistence/src/index.ts:2405-2445 | the lease is committed exactly when nobody has written in between and the instant is another |
| Answers.GiveBackIsExact | packages/application/src/index.ts:1777-1850 | a lease can always be given back, scheduled or rate-limited, with this record |
| Answers.DeferCommitIsExact | packages/persistence/src/index.ts:2882-2995 | it is given back exactly when nobody has written in between, the instant is another and the row to be written along is not there |
| Answers.StartIsExact | packages/persistence/src/index.ts:2605-2667 | an attempt is started exactly while the lease is the current one |
| Answers.CircuitAskIsExact | packages/application/src/index.ts:1853-1868 | the circuit's answer, from its history, leads to the rate limiter, back until it may be asked again, or to a probe |
| Answers.RateAskIsExact | packages/application/src/index.ts:1869-1885 | the rate limiter's answer leads to a permit or to rate_limited until the instant it names |
| Answers.RecoverInspectIsExact | packages/persistence/src/index.ts:3155-3310 | recovery gives a lease without attempt back at once, finishes the active attempt as a timeout, and leaves anything else alone |
| Answers.FinalIsExact | packages/persistence/src/index.ts:2725-2870 | a finalization is committed exactly when the snapshot is the current record, the instant is another, the circuit has the permit's version, the event that counts is unchanged and the row is not there |
| Answers.FinalWrites | packages/persistence/src/index.ts:2694-2848 | what it then writes: record, attempt, index, row, event counters, and every rollup counter of the hour of completion |
| Answers.CreateIsExact | packages/persistence/src/index.ts:2000-2197 | a delivery is created exactly when it is not there and the event is unchanged; what is written then, the event's counters and the rollup of a delivery that failed at once included |
| Answers.CompleteIsExact | packages/persistence/src/index.ts:2212-2281 | routing is completed exactly when the event is unchanged |
| Answers.AcceptIsExact | packages/persistence/src/index.ts:1763-1998 | an event is accepted exactly when neither it nor its producer key is there, and what is written then |
| Answers.ResumeIsExact | packages/persistence/src/index.ts:3311-3420 | a delivery is resumed exactly when it waits for its disabled destination and the instant is another |
| Answers.ReplayCreatedIsExact | packages/persistence/src/index.ts:977-1177 | a replay is created exactly when the original may be replayed and the key and identifiers are free |
| Answers.PublishingIsExact | apps/outbox-reconciler/src/index.ts:1-219 | what is sent, marked and materialized when |
| Answers.LostIsExact | packages/persistence/src/index.ts:2405-2445 | a lost race is reported exactly when somebody else has written; the worker is then done with its message, or reads again |
| Answers.CrashIsExact | packages/application/src/index.ts:1714-1760 | a worker may stop at any time; its message comes back when its lease, if it had one, has run out |
| Cells.RateLimitedIsNeverLeased | packages/domain/src/index.ts:707-728 | a rate-limited delivery passes the state check of acquireLease and is refused by the transition table |
| Steps.RecoverInspectOk | packages/persistence/src/index.ts:3155-3310 | what recovery decides on its snapshot is consistent with every later state of the delivery |
| Steps.FinalCommitOk | packages/persistence/src/index.ts:2668-2881 | the whole finalization transaction keeps the invariant of deliveries, events, circuits, rows and tasks |
| Steps.StepKeepsInv | packages/application/src/index.ts:1714-2161 | every step of every task keeps the invariant: all snapshots are earlier versions of what is stored, equal versions are equal records |
| Steps.RunKeepsInv | packages/application/src/index.ts:1714-2161 | the invariant holds in every reachable state |
| Fencing.StepAdvances | packages/domain/src/index.ts:730-801 | a step leaves a delivery alone or is one committed write that raises its version by exactly one from a non-terminal state |
| Fencing.RunFences | packages/domain/src/index.ts:730-801 | over any run equal versions mean equal records, terminal deliveries are frozen and finished attempts never change |
| Fencing.StaleIsFenced | packages/persistence/src/index.ts:2405-2418 | a worker whose snapshot is stale changes no delivery, attempt, event, outbox row or rollup and reports nothing to the circuit; only a permit it is about to take it may still commit |
| Overtaking.StalePermitIsReachable | packages/persistence/src/index.ts:3155-3310 | wherever a lease holder stands before its attempt, recovery can overtake it, and a rate permit or probe it was about to commit can still be committed then |
| StaleRun.StaleWorkerHasPermit | packages/persistence/src/index.ts:3014-3040 | a run from an empty system to a state in which a stale worker is about to commit a rate permit |
| Fencing.StaleForever | packages/persistence/src/index.ts:2725-2732 | a stale snapshot never becomes current again |
| Fencing.RateLimitedIsStuck | packages/domain/src/index.ts:712 | no step ever touches a rate-limited delivery again |
| Finishing.CanFinish | packages/application/src/index.ts:1714-2161 | whatever has happened, a run leads from every reachable state to the success of any delivery that is neither finished nor rate-limited, or to its dead-lettering if its last attempt has to be recovered |
| Finishing.FinishableIff | packages/application/src/index.ts:1714-2161 | exact: a delivery to a known destination that is not finished can still be finished if and only if it is not rate-limited |
| Routable.CanRoute | packages/application/src/index.ts:1190-1383 | from every reachable state an accepted event can be routed to any destinations, and completely |
| Fencing.AttemptLedger | packages/persistence/src/index.ts:2605-2754 | stored attempts are exactly 1..attemptCount <= maxAttempts, only the last can be unfinished and then it is the active one of an in-progress delivery |
| Fencing.BackoffRespected | packages/application/src/index.ts:1993-2028 | attempt k+1 starts no earlier than the completion of attempt k plus ceil(1000*delay) ms for an admissible delay, through recovery, deferral and resume |
| Sends.SendsAreBounded | packages/application/src/index.ts:1889-1985 | over a whole run no attempt is sent twice, only stored attempts are sent, and a delivery is sent at most maxAttempts times |
| Accounting.EventAccounting | packages/persistence/src/index.ts:2668-2720 | in every reachable state the counters of an event are the actual counts of its original deliveries, and each status stands for just the counts it should |
| Accounting.ReplayLeavesOriginals | packages/persistence/src/index.ts:977-1177 | a step on a replay delivery changes no event and no original delivery |
| Wakeup.StepHandsOver | apps/outbox-worker/src/index.ts:133-199 | a step that writes a delivery leaves it terminal or carried, and a step that touches a carrier leaves another one |
| Wakeup.NoLostWakeup | packages/application/src/index.ts:1714-2161 | in every reachable state each non-terminal delivery has an unpublished outbox row, unpublished scheduled work, or a visible, held or in-flight message that will not be dropped before it has moved the delivery on |
| Routing.NoLostRouting | packages/application/src/index.ts:1190-1383 | until an event is completely routed its outbox row is unsent or a message for it is on the queue and will not be acknowledged |
| Rollups.RecordBalanced | packages/persistence/src/index.ts:210-273 | an update adds the same to the shard view and the destination view of an hour |
| Rollups.AttemptDeltaConsistent | packages/persistence/src/index.ts:210-273 | the increments of an attempt hit one latency bucket per counted attempt and one outcome |
| Rollups.AttemptDeltaMeans | packages/persistence/src/index.ts:210-273 | what an attempt adds to each counter, latency buckets included |
| Rollups.RecordIsExact | packages/persistence/src/index.ts:1127-1150 | an update adds its increments to one shard row and one destination row of its hour and to nothing else |
| Conservation.RollupConservation | packages/persistence/src/index.ts:2838-2848 | in every reachable state: equal sums over shards and destinations, buckets = latency count = attempts, successes + failures = attempts + routing-time failures per hour, all-time dead letters and successes = those of the events, attempts = finished attempts of original deliveries, replay counters = the replays and their outcomes, accepted events = events |
| Permits.RunExtendsLogs | packages/persistence/src/index.ts:2996-3137 | committed permits and outcomes are never undone or reordered |
| Permits.RateBoundOverRuns | packages/persistence/src/index.ts:2996-3048 | the permits that interleaved workers commit to one destination obey the pairwise bound and the window bound |
| Permits.CircuitOverRuns | packages/persistence/src/index.ts:3049-3154 | the circuit versions that interleaved workers commit form one chain with the fold, probe and cooldown properties |
| Permits.CircuitAnswers | packages/persistence/src/index.ts:3064-3090 | what a worker is told in a reachable state is determined by the writes committed so far |
| Permits.OneResultPerVersion | packages/persistence/src/index.ts:2849-2870 | once anything is committed on top of a permit's circuit version, no finalization under that permit can commit any more |
| Idempotency.GuardedStore.Create | packages/persistence/src/index.ts:1763-1998 | among concurrent repetitions the caller is told "created" if and only if its own record exists, the same identifier for the same request hash, a conflict for another hash; the call creates nothing under an identifier of another caller |
| Idempotency.GuardedStore.Look | packages/persistence/src/index.ts:977-1009 | a request that finds its guard creates nothing and is answered as the guard demands |
| Idempotency.ExactlyOnce | packages/application/src/index.ts:1080-1162 | in every reachable state events correspond one to one to producer keys and replays to replay keys, and a key names the same record for the same request for ever |
| Idempotency.OneOriginal | packages/application/src/index.ts:1190-1324 | an event has at most one original delivery per destination |
| Search.SearchIndex | packages/persistence/src/index.ts:717-755 | of a page of rows, stale or not, each delivery is returned once, if and only if it passes the filter and its current row is on the page |
| Search.SearchDeliveries | packages/persistence/src/index.ts:677-756 | no duplicates, only wanted deliveries, and all of them that are listed at their current time |
| Search.CountDeliveriesByState | packages/persistence/src/index.ts:931-966 | the page loop counts each listed delivery once, never too many, and exactly all of them for every state but in_progress |
| Search.IndexesAgree | packages/persistence/src/index.ts:2420-2436 | in every reachable state a delivery without an active attempt is listed in all its categories at its current time |
| Search.StartedListed | packages/persistence/src/index.ts:2608-2661 | a started delivery is listed in a category at its current time if and only if its attempt started in the instant of the last write or an older row of that instant was left behind |
| Search.StartedIsNotListed | packages/persistence/src/index.ts:2608-2661 | it has no current row at all if and only if neither is the case for any category |
| Footprints.OthersLeaveMessage | packages/queue/src/index.ts:68-110 | only the task of a message, or a step on that message, moves it |
| Repository.Store.FinalizeAttempt | packages/persistence/src/index.ts:2668-2881 | true exactly when the last step was this call's own commit and the delivery is what was planned; otherwise the call has only read and has lost eight transactions |
| Repository.FinalLostTo | packages/persistence/src/index.ts:2849-2881 | a finalization is lost only to another writer, or in the instant of the last write |
| Repository.Store.CreateDelivery | packages/persistence/src/index.ts:2000-2211 | "created" means this call has stored the delivery as given, "duplicate" that it was there, a conflict that eight transactions were lost; otherwise nothing was written |
| Repository.Store.CompleteRouting | packages/persistence/src/index.ts:2212-2281 | true means the event is completely routed, false that eight transactions were lost and nothing written |
| Encoder.DeterministicIdentifier | packages/application/src/index.ts:1046-1065 | in spite of the wrapping buffer exactly 26 digits come out, their value is the leading 130 bits of the digest, and padding adds nothing |
| Encoder.IdentifiersDiffer | packages/application/src/index.ts:1046-1065 | two identifiers are equal if and only if the digests agree in their leading 130 bits |
| Encoder.DigitSurvives | packages/application/src/index.ts:1056-1061 | the digit taken from the wrapped 32-bit buffer is the one of the unbounded number |
| Cycles.GreyIsTrail | scripts/check-architecture.mjs:169-183 | the grey set is the trail, a walk without repetition |
| Cycles.Detector.Visit | scripts/check-architecture.mjs:171-183 | terminates, keeps the grey set, only adds real violations, and leaves the unit visited unless there is a violation |
| Cycles.Detector.Inspect | scripts/check-architecture.mjs:184-203 | a violation is reported if and only if the graph has a cycle, and each one is a real walk that ends in a repeated node |
| Canonical.StableIsPrint | packages/transformation/src/index.ts:82-92 | sorting while printing is the same as sorting all keys first and printing then |
| Serialization.QuoteUnambiguous | packages/application/src/index.ts:1032-1041 | string literals are self-delimiting, escapes included |
| Serialization.StableReadsBack | packages/transformation/src/index.ts:82-92 | the serialization is JSON text: read back it is the same value, with the keys of every object ascending |
| Serialization.LessIsLexicographic | packages/transformation/src/index.ts:85-87 | ascending means the smaller character at the first difference, or else the shorter key |
| Serialization.StableIsInjective | packages/application/src/index.ts:1032-1044 | two JSON values serialize equally if and only if they are equal up to the order of object keys |
| Serialization.StableIsDelimited | packages/config-portability/src/index.ts:201-215 | a serialized value does not run into what follows it |
| Transformation.ClashIsRelated | packages/contracts/src/index.ts:241-260 | the string test on two targets holds exactly when one path leads through the other |
| Transformation.CheckTargets | packages/contracts/src/index.ts:238-262 | the loop accepts a definition if and only if no target leads through another |
| Transformation.ReadPath | packages/transformation/src/index.ts:25-36 | the loop returns what the path leads to, or absent |
| Transformation.ReadAfterWrite | packages/transformation/src/index.ts:37-56 | after a write a path reads what was written, an object on the way to it, or what was there before |
| Transformation.WriteFails | packages/transformation/src/index.ts:37-56 | a write conflicts if and only if something other than an object is in its way |
| Transformation.WritesCommute | packages/transformation/src/index.ts:37-56 | writes to unrelated paths commute, conflicts included |
| Transformation.NoConflict | packages/transformation/src/index.ts:104-150 | a target that leads through no earlier one never conflicts and was absent before |
| Transformation.EvaluateMeans | packages/transformation/src/index.ts:93-150 | what a mapping yields and when it raises an error: source before literal, parts glued from the left, missing and null skipped unless required, strings only |
| Transformation.GlueConcat | packages/transformation/src/index.ts:118-120 | gluing two lists of texts is gluing each with the separator between |
| Transformation.ExecutionIsExact | packages/transformation/src/index.ts:104-150 | an accepted definition fails exactly when a mapping raises its own error; otherwise every target reads back as the value its mapping yields, absent if none, and nothing else is written |
| Transformation.OrderIndependence | packages/transformation/src/index.ts:104-150 | acceptance, success and output do not depend on the order of the mappings |
| OutputTree.WalkWrites | packages/transformation/src/index.ts:37-56 | on mutable objects the walk leaves a tree that is the old one with the write, changes no other object, and fails exactly when the write does |
| OutputTree.NeverEnters | packages/transformation/src/index.ts:37-56 | with prefix-free targets a walk never enters a mapped value, which may be shared with the input |
| OutputTree.Output.WritePath | packages/transformation/src/index.ts:37-56 | the loop over one moving reference does in place what the write does; a conflict leaves the output as it was |
| OutputTree.Output.ExecuteTransformation | packages/transformation/src/index.ts:104-150 | in-place execution succeeds if and only if the definition is accepted and no mapping raises an error; the output shows what the mappings yield and nothing else, and mapped values sit at their targets only |
| PlanListing.PlanIsExact | packages/config-portability/src/index.ts:715-938 | a plan holds no CREATE and no UPDATE exactly when no resource of the bundle needs one |
| Decisions.DestinationDecided | packages/config-portability/src/index.ts:798-850 | every action of a destination in terms of the stored fields: UNCHANGED if and only if each of them equals the bundle's |
| Decisions.SubscriptionDecided | packages/config-portability/src/index.ts:875-905 | every action of a subscription likewise |
| Decisions.ItemsTell | packages/config-portability/src/index.ts:715-938 | every resource of the bundle has the item it must have |
| Import.Converges | packages/config-portability/src/index.ts:960-1182 | sufficient conditions for a second plan without CREATE and UPDATE |
| Import.ConvergesExactly | packages/config-portability/src/index.ts:960-1182 | those conditions are exact, for every bundle that parses |
| Import.ConvergesWhenListedOnce | packages/config-portability/src/index.ts:960-1182 | for a bundle that lists each version once they are: no description dropped, missing versions follow, unchanged destinations of known partners name known transformations |
| Import.ContiguousFollow | packages/application/src/index.ts:664-735 | versions that run contiguously from 1 in bundle and target meet the version condition |
| Import.PartnerReached | packages/config-portability/src/index.ts:984-1022 | after an apply every partner is as the bundle says, but for a description it drops |
| Import.VersionReached | packages/config-portability/src/index.ts:1023-1063 | stored versions stay, missing ones are created under their own number with the bundle's definition if they follow the latest |
| Import.DestinationReached | packages/config-portability/src/index.ts:1064-1134 | a destination ends up with every field as the bundle says unless a parent version is in conflict, its alias unbound or its identity different, and then it is untouched |
| Import.SubscriptionReached | packages/config-portability/src/index.ts:1135-1168 | a subscription ends up as the bundle says unless its destination is refused or its identity is different |
| Settling.SettlesExactly | packages/config-portability/src/index.ts:960-1182 | after n applies of one bundle the next plan is without CREATE and UPDATE if and only if no description is dropped, no listed version is behind the latest one and free, and the gaps in the numbers take at most n applies (for n = 1 also: unchanged destinations name known transformations) |
| Settling.GapCloses | packages/application/src/index.ts:661-735 | missing versions are numbered consecutively, so a gap is closed after exactly as many applies as are needed |
| Settling.DroppedDescriptionNeverSettles | packages/application/src/index.ts:625-660 | a partner whose description the bundle drops keeps it and is planned for UPDATE after any number of applies |
| Settling.BuriedVersionNeverSettles | packages/application/src/index.ts:699-735 | a listed version behind the latest one whose number is free is planned for CREATE after any number of applies |
| Settling.GapFreeStays | packages/application/src/index.ts:661-735 | in a target numbered by applies alone there is no such version |
| Settling.DroppedDescription | packages/config-portability/src/index.ts:727-750 | an input for the first cause: UPDATE before and after |
| Settling.SkippedVersion | packages/config-portability/src/index.ts:1023-1063 | an input for the second: version 2 is first stored as number 1 and planned again, and settles with the second apply |
| Settling.UnknownTransformation | packages/config-portability/src/index.ts:806-876 | an input for the third: an unchanged destination is planned for UPDATE once its transformation exists, and settles with the second apply |
| Settling.TwiceListed | packages/config-portability/src/index.ts:820-834 | the same destination settles at once, blocked, if the bundle lists its version twice with different definitions |
| Import.Untouched | packages/config-portability/src/index.ts:960-1182 | resources the bundle does not name are untouched and stored versions immutable |
| ControlPlane.Service.Plan | packages/config-portability/src/index.ts:715-938 | the loops push exactly the items that the stored fields demand, blocking included |
| ControlPlane.Service.Apply | packages/config-portability/src/index.ts:938-1182 | exact: an apply succeeds if and only if, in the target before it, references resolve, partners and destinations stay within their limits, no address to be written is refused, and no subscription to be created has its event type and destination taken; success makes the target what the plan says, phase by phase, and a failure half-way touches only what the bundle names |
| Applicability.OccupiedWasTaken | packages/persistence/src/index.ts:1407-1465 | what occupies the place of a new subscription when its turn comes was there before the apply, or is created by it for the same destination |
| ControlPlane.SecondPlan | packages/config-portability/src/index.ts:715-1182 | the items of a second plan hold no CREATE and no UPDATE if and only if the exact condition held before |

## Left out

- `finalizeSuccess` (packages/persistence/src/index.ts:2446) and `replaceIfVersion` (:2282): nothing in the repository calls them, and they skip the guards the invariants rest on.
- Steps.StepKeepsInv: some steps are merged (the lookup and the event read of `createDelivery`; a clock reading and the branches taken on it), and some are more permissive than the code (a publisher may act on a row it read long ago, a lost race may be reported without one). The theorems hold for more behaviours than the code has.
- Wakeup.NoLostWakeup: says that a carrier exists, and `Finishing.CanFinish` that it can be served, not that it is; there is no fairness.
- Wakeup.StepHandsOver: delays of queue messages and the limits of one reconciler tick are not modelled; a message may be received at once.
- Transformation.ExecutionIsExact: the size limit is left out and the string transforms are uninterpreted functions.
- Transformation.ReadPath: inherited JavaScript property names are not modelled; objects are finite maps.
- Serialization.StableIsInjective: strings are sequences of Unicode scalar values, so lone surrogates and the UTF-16 order of astral characters are not covered; any total order on keys gives the same theorem. Numbers stand for the text JavaScript prints.
- Idempotency.GuardedStore.Create: the seven-day expiry of guards is not modelled.
- Search.SearchDeliveries: one consistent state is queried; paging cursors and expired rows are left out.
- ControlPlane.Service.Apply: the receipt, its signature, the fingerprints and the drift check are left out, as are secret-like material checks, audit records and concurrent edits of the target; fewer than 100 versions per transformation are assumed.
- Event search by status: rows of the event's status index are moved by routing but not by finalization; that index is not modelled.
- The cloud scheduler, SQS and DynamoDB clients, HTTP, OAuth, secrets, URL validation and redaction: only their outcomes appear, as parameters.
- Delivery history rows, audit events, expiry times, correlation identifiers and trace context: written along, never read by the protocol.
- Fastify routes, the console, infrastructure stacks, command-line tools, mock partners and packages/recovery: they would add only easy members.
