/** Hourly operational counters. Every update adds the same increments to one shard row and to one
    destination row of an hour; accepted events are counted on the shard row only. */
module Rollups {
  import opened Domain

  datatype Counter =
    | AcceptedEvents | DeliveryAttempts | DeliverySuccesses | DeliveryFailures | RetriesScheduled
    | DeadLetters | ReplaysRequested | ReplaySuccesses | ReplayFailures | LatencyTotalMs | LatencyCount
    | LatencyLe100 | LatencyLe250 | LatencyLe500 | LatencyLe1000 | LatencyLe2500 | LatencyGt2500

  /** A stored row, or the increments of one ADD expression. A missing attribute reads as zero. */
  type Counters = map<Counter, int>

  datatype Slot = Shard(n: nat) | PerDestination(x: DestinationId)
  datatype RowKey = RowKey(hour: int, slot: Slot)
  type Table = map<RowKey, Counters>

  function Get(c: Counters, f: Counter): int {
    if f in c then c[f] else 0
  }

  function Row(t: Table, k: RowKey): Counters {
    if k in t then t[k] else map[]
  }

  function Plus(a: Counters, b: Counters): Counters {
    map f | f in a.Keys + b.Keys :: Get(a, f) + Get(b, f)
  }

  function AddTo(t: Table, k: RowKey, delta: Counters): Table {
    t[k := Plus(Row(t, k), delta)]
  }

  /** `hourOf`: the hour an instant belongs to. */
  function HourOf(t: Time): int {
    t / 3_600_000
  }

  /** One pair of updates: the increments, the hour, and the two rows they go to. */
  datatype Update = Update(hour: int, shard: nat, destination: DestinationId, delta: Counters)

  function Record(t: Table, u: Update): Table {
    AddTo(AddTo(t, RowKey(u.hour, Shard(u.shard)), u.delta), RowKey(u.hour, PerDestination(u.destination)), u.delta)
  }

  function RecordAccepted(t: Table, hour: int, shard: nat): Table {
    AddTo(t, RowKey(hour, Shard(shard)), map[AcceptedEvents := 1])
  }

  // ---------------------------------------------------------------- increments

  function Bit(b: bool): int { if b then 1 else 0 }

  function LatencyBucket(duration: int): Counter {
    if duration <= 100 then LatencyLe100
    else if duration <= 250 then LatencyLe250
    else if duration <= 500 then LatencyLe500
    else if duration <= 1000 then LatencyLe1000
    else if duration <= 2500 then LatencyLe2500
    else LatencyGt2500
  }

  /** The increments of `rollupUpdates`. */
  function AttemptDelta(kind: ExecutionKind, state: DeliveryState, succeeded: bool, failed: bool, duration: int): Counters {
    var original := kind == Original;
    var counters := map[
      DeliveryAttempts := Bit(original),
      DeliverySuccesses := Bit(original && succeeded),
      DeliveryFailures := Bit(original && failed),
      RetriesScheduled := Bit(original && state == RetryScheduled),
      DeadLetters := Bit(original && state == DeadLettered),
      ReplaySuccesses := Bit(!original && state == Succeeded),
      ReplayFailures := Bit(!original && state in {DeadLettered, FailedTerminal}),
      LatencyTotalMs := if original then duration else 0,
      LatencyCount := Bit(original)];
    counters[LatencyBucket(duration) := Bit(original)]
  }

  /** The increments of a delivery that routing creates in a terminal state. */
  function RoutingDelta(state: DeliveryState): Counters {
    map[DeliveryFailures := Bit(state == FailedTerminal), DeadLetters := Bit(state == DeadLettered)]
  }

  function ReplayDelta(): Counters {
    map[ReplaysRequested := 1]
  }

  /** An instant belongs to the hour it falls into. */
  lemma HourContains(t: Time, h: int)
    ensures HourOf(t) == h <==> 3_600_000 * h <= t < 3_600_000 * (h + 1)
  {
  }

  /** The durations a bucket counts. */
  predicate Falls(duration: int, f: Counter) {
    match f
    case LatencyLe100 => duration <= 100
    case LatencyLe250 => 100 < duration <= 250
    case LatencyLe500 => 250 < duration <= 500
    case LatencyLe1000 => 500 < duration <= 1000
    case LatencyLe2500 => 1000 < duration <= 2500
    case LatencyGt2500 => duration > 2500
    case _ => false
  }

  /** What an attempt adds to each counter. */
  function Contribution(
    f: Counter, kind: ExecutionKind, state: DeliveryState, succeeded: bool, failed: bool, duration: int): int
  {
    if kind == ExecutionKind.Replay then
      if (f == ReplaySuccesses && state == Succeeded)
         || (f == ReplayFailures && (state == DeadLettered || state == FailedTerminal)) then 1 else 0
    else
      match f
      case DeliveryAttempts => 1
      case LatencyCount => 1
      case DeliverySuccesses => if succeeded then 1 else 0
      case DeliveryFailures => if failed then 1 else 0
      case RetriesScheduled => if state == RetryScheduled then 1 else 0
      case DeadLetters => if state == DeadLettered then 1 else 0
      case LatencyTotalMs => duration
      case _ => if Falls(duration, f) then 1 else 0
  }

  /** An attempt of an original delivery counts as an attempt, with its outcome and its latency; an attempt of a
      replay only if it ends the replay. */
  lemma AttemptDeltaMeans(
    f: Counter, kind: ExecutionKind, state: DeliveryState, succeeded: bool, failed: bool, duration: int)
    ensures Get(AttemptDelta(kind, state, succeeded, failed, duration), f)
            == Contribution(f, kind, state, succeeded, failed, duration)
  {
  }

  lemma OtherDeltasMean(state: DeliveryState, f: Counter)
    ensures Get(RoutingDelta(state), f)
            == if (f == DeliveryFailures && state == FailedTerminal) || (f == DeadLetters && state == DeadLettered) then 1 else 0
    ensures Get(ReplayDelta(), f) == if f == ReplaysRequested then 1 else 0
  {
  }

  /** An update adds its increments to one shard row and one destination row, and to nothing else. */
  lemma RecordIsExact(t: Table, u: Update, k: RowKey, f: Counter)
    ensures Get(Row(Record(t, u), k), f)
            == Get(Row(t, k), f)
               + if k.hour == u.hour && (k.slot == Shard(u.shard) || k.slot == PerDestination(u.destination))
                 then Get(u.delta, f) else 0
    ensures Get(Row(RecordAccepted(t, u.hour, u.shard), k), f)
            == Get(Row(t, k), f) + if k == RowKey(u.hour, Shard(u.shard)) && f == AcceptedEvents then 1 else 0
  {
  }

  // ---------------------------------------------------------------- sums

  /** A set of rows to add up: the shard or destination rows of one hour, or of all hours. */
  datatype Scope = ShardsOf(hour: int) | DestinationsOf(hour: int) | AllShards | AllDestinations

  predicate InScope(k: RowKey, scope: Scope) {
    match scope
    case ShardsOf(h) => k.hour == h && k.slot.Shard?
    case DestinationsOf(h) => k.hour == h && k.slot.PerDestination?
    case AllShards => k.slot.Shard?
    case AllDestinations => k.slot.PerDestination?
  }

  ghost function ScopeKeys(t: Table, scope: Scope): set<RowKey> {
    set k | k in t && InScope(k, scope)
  }

  ghost function SumOver(t: Table, keys: set<RowKey>, f: Counter): int
    decreases |keys|
  {
    if keys == {} then 0
    else
      var k :| k in keys;
      Get(Row(t, k), f) + SumOver(t, keys - {k}, f)
  }

  ghost function Sum(t: Table, scope: Scope, f: Counter): int {
    SumOver(t, ScopeKeys(t, scope), f)
  }

  lemma {:induction false} SumSplit(t: Table, keys: set<RowKey>, k: RowKey, f: Counter)
    requires k in keys
    ensures SumOver(t, keys, f) == Get(Row(t, k), f) + SumOver(t, keys - {k}, f)
    decreases |keys|
  {
    var j :| j in keys && SumOver(t, keys, f) == Get(Row(t, j), f) + SumOver(t, keys - {j}, f);
    if j != k {
      SumSplit(t, keys - {j}, k, f);
      SumSplit(t, keys - {k}, j, f);
      assert keys - {j} - {k} == keys - {k} - {j};
    }
  }

  lemma {:induction false} SumFrame(t: Table, t': Table, keys: set<RowKey>, f: Counter)
    requires forall k :: k in keys ==> Row(t, k) == Row(t', k)
    ensures SumOver(t, keys, f) == SumOver(t', keys, f)
    decreases |keys|
  {
    if keys != {} {
      var k :| k in keys;
      SumSplit(t, keys, k, f);
      SumSplit(t', keys, k, f);
      SumFrame(t, t', keys - {k}, f);
    }
  }

  /** Adding to one row adds to exactly the sums that row is in scope of. */
  lemma SumAfterAdd(t: Table, k: RowKey, delta: Counters, scope: Scope, f: Counter)
    ensures Sum(AddTo(t, k, delta), scope, f)
            == Sum(t, scope, f) + (if InScope(k, scope) then Get(delta, f) else 0)
  {
    var t' := AddTo(t, k, delta);
    var keys, keys' := ScopeKeys(t, scope), ScopeKeys(t', scope);
    if InScope(k, scope) {
      assert keys' - {k} == keys - {k};
      SumSplit(t', keys', k, f);
      SumFrame(t, t', keys - {k}, f);
      if k in t {
        SumSplit(t, keys, k, f);
      } else {
        assert keys - {k} == keys;
      }
    } else {
      assert keys' == keys;
      SumFrame(t, t', keys, f);
    }
  }

  /** Both rows of an update gain the same, so the two views of every hour stay equal. */
  ghost predicate Balanced(t: Table) {
    forall h, f: Counter :: f != AcceptedEvents ==> Sum(t, ShardsOf(h), f) == Sum(t, DestinationsOf(h), f)
  }

  lemma RecordSums(t: Table, u: Update, scope: Scope, f: Counter)
    ensures Sum(Record(t, u), scope, f)
            == Sum(t, scope, f)
               + (if InScope(RowKey(u.hour, Shard(u.shard)), scope) then Get(u.delta, f) else 0)
               + (if InScope(RowKey(u.hour, PerDestination(u.destination)), scope) then Get(u.delta, f) else 0)
  {
    var first := AddTo(t, RowKey(u.hour, Shard(u.shard)), u.delta);
    SumAfterAdd(t, RowKey(u.hour, Shard(u.shard)), u.delta, scope, f);
    SumAfterAdd(first, RowKey(u.hour, PerDestination(u.destination)), u.delta, scope, f);
  }

  lemma RecordBalanced(t: Table, u: Update)
    requires Balanced(t)
    ensures Balanced(Record(t, u))
  {
    forall h, f: Counter | f != AcceptedEvents
      ensures Sum(Record(t, u), ShardsOf(h), f) == Sum(Record(t, u), DestinationsOf(h), f)
    {
      RecordSums(t, u, ShardsOf(h), f);
      RecordSums(t, u, DestinationsOf(h), f);
    }
  }

  lemma AcceptedBalanced(t: Table, hour: int, shard: nat)
    requires Balanced(t)
    ensures Balanced(RecordAccepted(t, hour, shard))
  {
    forall h, f: Counter | f != AcceptedEvents
      ensures Sum(RecordAccepted(t, hour, shard), ShardsOf(h), f)
              == Sum(RecordAccepted(t, hour, shard), DestinationsOf(h), f)
    {
      SumAfterAdd(t, RowKey(hour, Shard(shard)), map[AcceptedEvents := 1], ShardsOf(h), f);
      SumAfterAdd(t, RowKey(hour, Shard(shard)), map[AcceptedEvents := 1], DestinationsOf(h), f);
    }
  }

  // ---------------------------------------------------------------- rows

  function BucketTotal(c: Counters): int {
    Get(c, LatencyLe100) + Get(c, LatencyLe250) + Get(c, LatencyLe500)
    + Get(c, LatencyLe1000) + Get(c, LatencyLe2500) + Get(c, LatencyGt2500)
  }

  /** In every row the buckets add up to the latency count, which is the attempt count, and no
      attempt goes without an outcome. */
  predicate RowConsistent(c: Counters) {
    && BucketTotal(c) == Get(c, LatencyCount) == Get(c, DeliveryAttempts)
    && Get(c, DeliverySuccesses) + Get(c, DeliveryFailures) >= Get(c, DeliveryAttempts)
  }

  ghost predicate RowsConsistent(t: Table) {
    forall k :: k in t ==> RowConsistent(t[k])
  }

  lemma AddConsistent(t: Table, k: RowKey, delta: Counters)
    requires RowsConsistent(t) && RowConsistent(delta)
    ensures RowsConsistent(AddTo(t, k, delta))
  {
    PlusConsistent(Row(t, k), delta);
  }

  lemma PlusConsistent(a: Counters, b: Counters)
    requires RowConsistent(a) && RowConsistent(b)
    ensures RowConsistent(Plus(a, b))
  {
    assert forall f: Counter :: Get(Plus(a, b), f) == Get(a, f) + Get(b, f);
  }

  lemma RecordConsistent(t: Table, u: Update)
    requires RowsConsistent(t) && RowConsistent(u.delta)
    ensures RowsConsistent(Record(t, u))
  {
    AddConsistent(t, RowKey(u.hour, Shard(u.shard)), u.delta);
    AddConsistent(AddTo(t, RowKey(u.hour, Shard(u.shard)), u.delta), RowKey(u.hour, PerDestination(u.destination)), u.delta);
  }

  lemma AttemptDeltaConsistent(kind: ExecutionKind, state: DeliveryState, succeeded: bool, duration: int)
    ensures RowConsistent(AttemptDelta(kind, state, succeeded, !succeeded, duration))
  {
    var c := AttemptDelta(kind, state, succeeded, !succeeded, duration);
    var one := Bit(kind == Original);
    assert Get(c, LatencyCount) == one && Get(c, DeliveryAttempts) == one;
    assert Get(c, DeliverySuccesses) + Get(c, DeliveryFailures) == one;
    OneBucket(c, LatencyBucket(duration), one);
  }

  /** A row that has one latency bucket only. */
  lemma OneBucket(c: Counters, bucket: Counter, n: int)
    requires bucket in {LatencyLe100, LatencyLe250, LatencyLe500, LatencyLe1000, LatencyLe2500, LatencyGt2500}
    requires bucket in c && c[bucket] == n
    requires forall f :: f in c && f != bucket ==>
               f !in {LatencyLe100, LatencyLe250, LatencyLe500, LatencyLe1000, LatencyLe2500, LatencyGt2500}
    ensures BucketTotal(c) == n
  {
  }
}
