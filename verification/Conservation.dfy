/** Rollup conservation over whole runs: the shard view and the destination view of every hour agree,
    and the counters add up to what the deliveries and the events say. */
module Conservation {
  import opened Domain
  import opened Cells
  import opened System
  import opened Invariants
  import opened Steps
  import opened Footprints
  import opened Accounting
  import opened Rollups

  // ---------------------------------------------------------------- event totals

  /** Outcome counters that also exist as rollup counters. */
  datatype Field = SucceededField | DeadLetteredField

  function FieldOf(o: Outcome, f: Field): int {
    match f
    case SucceededField => o.succeeded
    case DeadLetteredField => o.deadLettered
  }

  function CounterOf(f: Field): Counter {
    match f
    case SucceededField => DeliverySuccesses
    case DeadLetteredField => DeadLetters
  }

  /** The sum of all values of a map. */
  ghost function MapSum<K(!new)>(m: map<K, int>): int
    decreases |m|
  {
    if m == map[] then 0
    else
      var k :| k in m;
      m[k] + MapSum(m - {k})
  }

  lemma {:induction false} MapSumSplit<K(!new)>(m: map<K, int>, k: K)
    requires k in m
    ensures MapSum(m) == m[k] + MapSum(m - {k})
    decreases |m|
  {
    var j :| j in m && MapSum(m) == m[j] + MapSum(m - {j});
    if j != k {
      MapSumSplit(m - {j}, k);
      MapSumSplit(m - {k}, j);
      assert m - {j} - {k} == m - {k} - {j};
    }
  }

  lemma MapSumPut<K(!new)>(m: map<K, int>, k: K, v: int)
    ensures MapSum(m[k := v]) == MapSum(m) + v - (if k in m then m[k] else 0)
  {
    MapSumSplit(m[k := v], k);
    assert m[k := v] - {k} == m - {k};
    if k in m {
      MapSumSplit(m, k);
    } else {
      assert m - {k} == m;
    }
  }

  ghost function FieldValues(events: map<EventId, Event>, f: Field): map<EventId, int> {
    map e | e in events :: FieldOf(events[e].outcome, f)
  }

  /** The counter, summed over all events. */
  ghost function Total(events: map<EventId, Event>, f: Field): int {
    MapSum(FieldValues(events, f))
  }

  lemma TotalAfterPut(events: map<EventId, Event>, e: EventId, ev: Event, f: Field)
    ensures Total(events[e := ev], f)
            == Total(events, f) + FieldOf(ev.outcome, f) - (if e in events then FieldOf(events[e].outcome, f) else 0)
  {
    MapSumPut(FieldValues(events, f), e, FieldOf(ev.outcome, f));
    assert FieldValues(events[e := ev], f) == FieldValues(events, f)[e := FieldOf(ev.outcome, f)];
  }

  // ---------------------------------------------------------------- finished attempts and replays

  /** The finished attempts of an original delivery. */
  function FinishedAttempts(d: Delivery): int {
    if d.kind == Original then d.attemptCount - One(d.activeAttempt.Some?) else 0
  }

  ghost function AttemptValues(cells: map<DeliveryId, Cell>): map<DeliveryId, int> {
    map d | d in cells :: FinishedAttempts(cells[d].d)
  }

  lemma AttemptsAfterPut(cells: map<DeliveryId, Cell>, d: DeliveryId, c: Cell)
    ensures MapSum(AttemptValues(cells[d := c]))
            == MapSum(AttemptValues(cells)) + FinishedAttempts(c.d)
               - (if d in cells then FinishedAttempts(cells[d].d) else 0)
  {
    MapSumPut(AttemptValues(cells), d, FinishedAttempts(c.d));
    assert AttemptValues(cells[d := c]) == AttemptValues(cells)[d := FinishedAttempts(c.d)];
  }

  /** The replay counters, and the replay deliveries they count. */
  datatype Tally = RequestedTally | SucceededTally | FailedTally

  function TallyCounter(t: Tally): Counter {
    match t
    case RequestedTally => ReplaysRequested
    case SucceededTally => ReplaySuccesses
    case FailedTally => ReplayFailures
  }

  predicate Tallied(d: Delivery, t: Tally) {
    && d.kind == ExecutionKind.Replay
    && match t
       case RequestedTally => true
       case SucceededTally => d.state == Succeeded
       case FailedTally => d.state == FailedTerminal || d.state == DeadLettered
  }

  ghost function Replays(cells: map<DeliveryId, Cell>, t: Tally): set<DeliveryId> {
    set d | d in cells && Tallied(cells[d].d, t)
  }

  lemma ReplaysAfterPut(cells: map<DeliveryId, Cell>, d: DeliveryId, c: Cell, t: Tally)
    ensures |Replays(cells[d := c], t)|
            == |Replays(cells, t)| - One(d in cells && Tallied(cells[d].d, t)) + One(Tallied(c.d, t))
  {
    SizeAfterOneChange(Replays(cells, t), Replays(cells[d := c], t), d);
  }

  // ---------------------------------------------------------------- routing-time failures

  /** An original delivery that failed without a single attempt, in the given hour. */
  predicate RoutingFailed(d: Delivery, hour: int) {
    d.kind == Original && d.state == FailedTerminal && d.attemptCount == 0 && HourOf(d.updatedAt) == hour
  }

  ghost function RoutingFailures(cells: map<DeliveryId, Cell>, hour: int): set<DeliveryId> {
    set d | d in cells && RoutingFailed(cells[d].d, hour)
  }

  lemma FailuresAfterPut(cells: map<DeliveryId, Cell>, d: DeliveryId, c: Cell, hour: int)
    ensures |RoutingFailures(cells[d := c], hour)|
            == |RoutingFailures(cells, hour)|
               - One(d in cells && RoutingFailed(cells[d].d, hour)) + One(RoutingFailed(c.d, hour))
  {
    SizeAfterOneChange(RoutingFailures(cells, hour), RoutingFailures(cells[d := c], hour), d);
  }

  // ---------------------------------------------------------------- the invariant

  ghost predicate OutcomesAddUp(s: Sys, hour: int) {
    Sum(s.rollups, ShardsOf(hour), DeliverySuccesses) + Sum(s.rollups, ShardsOf(hour), DeliveryFailures)
    == Sum(s.rollups, ShardsOf(hour), DeliveryAttempts) + |RoutingFailures(s.cells, hour)|
  }

  ghost predicate FieldAddsUp(s: Sys, f: Field) {
    Sum(s.rollups, AllShards, CounterOf(f)) == Total(s.events, f)
  }

  ghost predicate ReplaysAddUp(s: Sys, t: Tally) {
    Sum(s.rollups, AllShards, TallyCounter(t)) == |Replays(s.cells, t)|
  }

  ghost predicate AttemptsAddUp(s: Sys) {
    Sum(s.rollups, AllShards, DeliveryAttempts) == MapSum(AttemptValues(s.cells))
  }

  ghost predicate Conserved(s: Sys) {
    && Balanced(s.rollups) && RowsConsistent(s.rollups)
    && (forall h :: OutcomesAddUp(s, h))
    && (forall f :: FieldAddsUp(s, f))
    && (forall t :: ReplaysAddUp(s, t))
    && AttemptsAddUp(s)
    && Sum(s.rollups, AllShards, AcceptedEvents) == |s.events|
  }

  // ---------------------------------------------------------------- what steps record

  /** The increments for an attempt that brought the delivery into its state. */
  function Finished(d: Delivery, ms: int): Counters {
    AttemptDelta(d.kind, d.state, d.state == Succeeded, d.state != Succeeded, ms)
  }

  lemma FinishedConsistent(d: Delivery, ms: int)
    ensures RowConsistent(Finished(d, ms))
  {
    AttemptDeltaConsistent(d.kind, d.state, d.state == Succeeded, ms);
  }

  lemma FinishedIncrements(d: Delivery, ms: int)
    ensures Get(Finished(d, ms), DeliveryAttempts) == One(d.kind == Original)
    ensures Get(Finished(d, ms), DeliverySuccesses) == One(d.kind == Original && d.state == Succeeded)
    ensures Get(Finished(d, ms), DeliveryFailures) == One(d.kind == Original && d.state != Succeeded)
    ensures Get(Finished(d, ms), DeadLetters) == One(d.kind == Original && d.state == DeadLettered)
    ensures Get(Finished(d, ms), AcceptedEvents) == 0
    ensures Get(Finished(d, ms), ReplaysRequested) == 0
    ensures Get(Finished(d, ms), ReplaySuccesses) == One(Tallied(d, SucceededTally))
    ensures Get(Finished(d, ms), ReplayFailures) == One(Tallied(d, FailedTally))
  {
  }

  /** The finished attempt, the failed routing or the requested replay that an update records. */
  ghost predicate Records(s: Sys, e: Effect, u: Update) {
    e.cell.Some?
    && var (d, c) := e.cell.value;
       if d in s.cells then
         && c.d.attemptCount >= 1
         && c.d.kind == s.cells[d].d.kind && !Terminal(s.cells[d].d.state)
         && FinishedAttempts(c.d) == FinishedAttempts(s.cells[d].d) + One(c.d.kind == Original)
         && exists ms :: u.delta == Finished(c.d, ms)
       else if c.d.kind == Original then
         && c.d.attemptCount == 0 && c.d.activeAttempt.None? && c.d.state == FailedTerminal
         && u.delta == RoutingDelta(c.d.state) && u.hour == HourOf(c.d.updatedAt)
       else c.d.state == Scheduled && u.delta == ReplayDelta()
  }

  /** A write that leaves every counter as it is: no attempt and no delivery ends with it, and a new
      delivery is an original one. */
  predicate Unrecorded(s: Sys, id: DeliveryId, d: Delivery) {
    && !Terminal(d.state)
    && (if id in s.cells then
          && d.kind == s.cells[id].d.kind && !Terminal(s.cells[id].d.state)
          && FinishedAttempts(d) == FinishedAttempts(s.cells[id].d)
        else d.kind == Original && FinishedAttempts(d) == 0)
  }

  ghost predicate RecordsOk(s: Sys, e: Effect) {
    match e.rollup
    case NoRollup =>
      && (e.cell.Some? ==> Unrecorded(s, e.cell.value.0, e.cell.value.1.d))
      && (e.event.Some? ==> e.event.value.0 in s.events)
    case Accept(_, _) => e.cell.None? && e.event.Some? && e.event.value.0 !in s.events
    case Record(u) => Records(s, e, u) && (e.event.Some? ==> e.event.value.0 in s.events)
  }

  /** The update that an effect amounts to, as increments. */
  function DeltaOf(e: Effect): Counters {
    match e.rollup
    case NoRollup => map[]
    case Accept(_, _) => map[AcceptedEvents := 1]
    case Record(u) => u.delta
  }

  predicate AtHour(e: Effect, hour: int) {
    match e.rollup
    case NoRollup => false
    case Accept(h, _) => h == hour
    case Record(u) => u.hour == hour
  }

  lemma SumsAfter(s: Sys, e: Effect, f: Counter, hour: int)
    ensures Sum(Apply(s, e).rollups, AllShards, f) == Sum(s.rollups, AllShards, f) + Get(DeltaOf(e), f)
    ensures Sum(Apply(s, e).rollups, ShardsOf(hour), f)
            == Sum(s.rollups, ShardsOf(hour), f) + (if AtHour(e, hour) then Get(DeltaOf(e), f) else 0)
  {
    match e.rollup
    case NoRollup =>
    case Accept(h, n) =>
      SumAfterAdd(s.rollups, RowKey(h, Shard(n)), map[AcceptedEvents := 1], AllShards, f);
      SumAfterAdd(s.rollups, RowKey(h, Shard(n)), map[AcceptedEvents := 1], ShardsOf(hour), f);
    case Record(u) =>
      RecordSums(s.rollups, u, AllShards, f);
      RecordSums(s.rollups, u, ShardsOf(hour), f);
  }

  /** A delivery that routing has just created in a terminal state. */
  predicate FailsRouting(s: Sys, e: Effect) {
    e.rollup.Record? && e.cell.Some? && e.cell.value.0 !in s.cells && e.cell.value.1.d.kind == Original
  }

  /** An original delivery that ends in the given state. */
  predicate Ends(e: Effect, state: DeliveryState) {
    e.rollup.Record? && e.cell.Some? && e.cell.value.1.d.kind == Original && e.cell.value.1.d.state == state
  }

  lemma DeltaConsistent(s: Sys, e: Effect)
    requires RecordsOk(s, e)
    ensures RowConsistent(DeltaOf(e))
  {
    if e.rollup.Record? && e.cell.value.0 in s.cells {
      var ms :| e.rollup.u.delta == Finished(e.cell.value.1.d, ms);
      FinishedConsistent(e.cell.value.1.d, ms);
    }
  }

  lemma Increments(s: Sys, e: Effect)
    requires RecordsOk(s, e)
    ensures Get(DeltaOf(e), DeliverySuccesses) + Get(DeltaOf(e), DeliveryFailures)
            == Get(DeltaOf(e), DeliveryAttempts) + One(FailsRouting(s, e))
    ensures Get(DeltaOf(e), DeliverySuccesses) == One(Ends(e, Succeeded))
    ensures Get(DeltaOf(e), DeadLetters) == One(Ends(e, DeadLettered))
    ensures Get(DeltaOf(e), AcceptedEvents) == One(e.rollup.Accept?)
  {
    if e.rollup.Record? && e.cell.value.0 in s.cells {
      var ms :| e.rollup.u.delta == Finished(e.cell.value.1.d, ms);
      FinishedIncrements(e.cell.value.1.d, ms);
    }
  }

  lemma KeepTable(s: Sys, e: Effect)
    requires Balanced(s.rollups) && RowsConsistent(s.rollups) && RecordsOk(s, e)
    ensures Balanced(Apply(s, e).rollups) && RowsConsistent(Apply(s, e).rollups)
  {
    DeltaConsistent(s, e);
    match e.rollup
    case NoRollup =>
    case Accept(h, n) =>
      AcceptedBalanced(s.rollups, h, n);
      AddConsistent(s.rollups, RowKey(h, Shard(n)), map[AcceptedEvents := 1]);
    case Record(u) =>
      RecordBalanced(s.rollups, u);
      RecordConsistent(s.rollups, u);
  }

  lemma KeepOutcomes(s: Sys, e: Effect, hour: int)
    requires OutcomesAddUp(s, hour) && CellChangeOk(s, e) && RecordsOk(s, e)
    ensures OutcomesAddUp(Apply(s, e), hour)
  {
    SumsAfter(s, e, DeliverySuccesses, hour);
    SumsAfter(s, e, DeliveryFailures, hour);
    SumsAfter(s, e, DeliveryAttempts, hour);
    Increments(s, e);
    if e.cell.Some? {
      FailuresAfterPut(s.cells, e.cell.value.0, e.cell.value.1, hour);
    }
  }

  function StateOf(f: Field): DeliveryState {
    match f
    case SucceededField => Succeeded
    case DeadLetteredField => DeadLettered
  }

  /** The event counter moves exactly when an original delivery ends in that state. */
  lemma FieldGain(s: Sys, e: Effect, f: Field)
    requires CarriesEvent(s, e) && CellChangeOk(s, e) && RecordsOk(s, e)
    ensures (if e.event.None? then 0
             else if e.event.value.0 in s.events
             then FieldOf(e.event.value.1.outcome, f) - FieldOf(s.events[e.event.value.0].outcome, f)
             else FieldOf(e.event.value.1.outcome, f))
            == One(Ends(e, StateOf(f)))
  {
  }

  lemma KeepField(s: Sys, e: Effect, f: Field)
    requires FieldAddsUp(s, f) && CarriesEvent(s, e) && CellChangeOk(s, e) && RecordsOk(s, e)
    ensures FieldAddsUp(Apply(s, e), f)
  {
    SumsAfter(s, e, CounterOf(f), 0);
    Increments(s, e);
    FieldGain(s, e, f);
    if e.event.Some? {
      TotalAfterPut(s.events, e.event.value.0, e.event.value.1, f);
    }
  }

  lemma KeepAccepted(s: Sys, e: Effect)
    requires Sum(s.rollups, AllShards, AcceptedEvents) == |s.events| && RecordsOk(s, e)
    ensures Sum(Apply(s, e).rollups, AllShards, AcceptedEvents) == |Apply(s, e).events|
  {
    SumsAfter(s, e, AcceptedEvents, 0);
    Increments(s, e);
    var s' := Apply(s, e);
    if e.event.Some? {
      SizeAfterOneChange(s.events.Keys, s'.events.Keys, e.event.value.0);
    }
    assert |s.events| == |s.events.Keys| && |s'.events| == |s'.events.Keys|;
  }

  lemma ReplayIncrements(s: Sys, e: Effect, t: Tally)
    requires RecordsOk(s, e)
    ensures Get(DeltaOf(e), TallyCounter(t))
            == (if e.cell.None? then 0
                else One(Tallied(e.cell.value.1.d, t))
                     - One(e.cell.value.0 in s.cells && Tallied(s.cells[e.cell.value.0].d, t)))
  {
    if e.rollup.Record? && e.cell.value.0 in s.cells {
      var ms :| e.rollup.u.delta == Finished(e.cell.value.1.d, ms);
      FinishedIncrements(e.cell.value.1.d, ms);
    }
  }

  lemma KeepReplays(s: Sys, e: Effect, t: Tally)
    requires ReplaysAddUp(s, t) && RecordsOk(s, e)
    ensures ReplaysAddUp(Apply(s, e), t)
  {
    SumsAfter(s, e, TallyCounter(t), 0);
    ReplayIncrements(s, e, t);
    if e.cell.Some? {
      ReplaysAfterPut(s.cells, e.cell.value.0, e.cell.value.1, t);
    }
  }

  lemma AttemptIncrements(s: Sys, e: Effect)
    requires RecordsOk(s, e)
    ensures Get(DeltaOf(e), DeliveryAttempts)
            == (if e.cell.None? then 0
                else FinishedAttempts(e.cell.value.1.d)
                     - (if e.cell.value.0 in s.cells then FinishedAttempts(s.cells[e.cell.value.0].d) else 0))
  {
    if e.rollup.Record? && e.cell.value.0 in s.cells {
      var ms :| e.rollup.u.delta == Finished(e.cell.value.1.d, ms);
      FinishedIncrements(e.cell.value.1.d, ms);
    }
  }

  lemma KeepAttempts(s: Sys, e: Effect)
    requires AttemptsAddUp(s) && RecordsOk(s, e)
    ensures AttemptsAddUp(Apply(s, e))
  {
    SumsAfter(s, e, DeliveryAttempts, 0);
    AttemptIncrements(s, e);
    if e.cell.Some? {
      AttemptsAfterPut(s.cells, e.cell.value.0, e.cell.value.1);
    }
  }

  lemma KeepConserved(s: Sys, e: Effect)
    requires Conserved(s) && CarriesEvent(s, e) && CellChangeOk(s, e) && RecordsOk(s, e)
    ensures Conserved(Apply(s, e))
  {
    KeepTable(s, e);
    KeepAccepted(s, e);
    forall h ensures OutcomesAddUp(Apply(s, e), h) { KeepOutcomes(s, e, h); }
    forall f ensures FieldAddsUp(Apply(s, e), f) { KeepField(s, e, f); }
    forall t ensures ReplaysAddUp(Apply(s, e), t) { KeepReplays(s, e, t); }
    KeepAttempts(s, e);
  }

  // ---------------------------------------------------------------- every step records what it did

  lemma LeaseRecords(s: Sys, step: LeaseStep)
    requires Local(s, step.m) && LeaseEffect(s, step).Some?
    ensures RecordsOk(s, LeaseEffect(s, step).value)
  {
  }

  lemma AttemptRecords(s: Sys, step: AttemptStep)
    requires Local(s, step.m) && AttemptEffect(s, step).Some?
    ensures RecordsOk(s, AttemptEffect(s, step).value)
  {
  }

  lemma FinalRecords(s: Sys, m: nat, n: nat, shard: nat)
    requires Local(s, m) && FinalCommit(s, m, n, shard).Some?
    ensures RecordsOk(s, FinalCommit(s, m, n, shard).value)
  {
    FinalCurrent(s, m);
    var plan := TaskOf(s, m).plan;
    assert FinalUpdate(plan, shard).delta == Finished(plan.final, plan.finished.durationMs);
  }

  lemma FinishRecords(s: Sys, step: FinishStep)
    requires Local(s, step.m) && FinishEffect(s, step).Some?
    ensures RecordsOk(s, FinishEffect(s, step).value)
  {
    match step
    case DoFinalCommit(m, n, shard) => FinalRecords(s, m, n, shard);
    case _ =>
  }

  lemma RouteRecords(s: Sys, step: RouteStep)
    requires LocalEvent(s, step.m) && RouteEffect(s, step).Some?
    ensures RecordsOk(s, RouteEffect(s, step).value)
  {
  }

  lemma IntakeRecords(s: Sys, step: IntakeStep)
    requires IntakeEffect(s, step).Some?
    ensures RecordsOk(s, IntakeEffect(s, step).value)
  {
  }

  lemma StepRecords(s: Sys, step: Step)
    requires Inv(s) && Enabled(s, step)
    ensures RecordsOk(s, StepEffect(s, step).value)
  {
    match step
    case Queue(q) => QueueFootprint(s, q);
    case Read(r) => ReadFootprint(s, r);
    case Permit(p) => PermitFootprint(s, p);
    case Publish(p) => PublishFootprint(s, p);
    case Acquire(l) => InvLocal(s, l.m); LeaseRecords(s, l);
    case Attempted(a) => InvLocal(s, a.m); AttemptRecords(s, a);
    case Finish(f) => InvLocal(s, f.m); FinishRecords(s, f);
    case Route(r) => InvLocalEvent(s, r.m); RouteRecords(s, r);
    case Intake(i) => IntakeRecords(s, i);
  }

  lemma {:induction false} RunKeepsConserved(s: Sys, steps: seq<Step>, t: Sys)
    requires Inv(s) && Conserved(s) && Run(s, steps, t)
    ensures Conserved(t)
    decreases |steps|
  {
    if steps != [] {
      FirstStep(s, steps, t);
      StepOk(s, steps[0]);
      StepCarries(s, steps[0]);
      StepRecords(s, steps[0]);
      KeepConserved(s, StepEffect(s, steps[0]).value);
      StepKeepsInv(s, steps[0]);
      RunKeepsConserved(Next(s, steps[0]), steps[1..], t);
    }
  }

  lemma EmptyConserved(s: Sys)
    requires Initial(s)
    ensures Conserved(s)
  {
    forall scope, f: Counter ensures Sum(s.rollups, scope, f) == 0 {
      assert ScopeKeys(s.rollups, scope) == {};
    }
    forall h ensures OutcomesAddUp(s, h) {
      assert RoutingFailures(s.cells, h) == {};
    }
    forall t ensures ReplaysAddUp(s, t) {
      assert Replays(s.cells, t) == {};
    }
    assert AttemptValues(s.cells) == map[];
    forall f ensures FieldAddsUp(s, f) {
      assert FieldValues(s.events, f) == map[];
    }
  }

  /** Rollup conservation in every reachable state: both views of an hour agree on every counter but
      accepted events; successes and failures are attempts and routing-time failures; the dead
      letters and successes of all time are those of the events; attempts are the finished attempts of
      original deliveries; accepted events are the events and the replay counters the replays. */
  lemma RollupConservation(s: Sys, steps: seq<Step>, t: Sys, hour: int)
    requires Initial(s) && Run(s, steps, t)
    ensures forall f: Counter :: f != AcceptedEvents ==>
              Sum(t.rollups, ShardsOf(hour), f) == Sum(t.rollups, DestinationsOf(hour), f)
    ensures OutcomesAddUp(t, hour)
    ensures Sum(t.rollups, AllShards, DeadLetters) == Total(t.events, DeadLetteredField)
    ensures Sum(t.rollups, AllShards, DeliverySuccesses) == Total(t.events, SucceededField)
    ensures Sum(t.rollups, AllShards, AcceptedEvents) == |t.events|
    ensures Sum(t.rollups, AllShards, DeliveryAttempts) == MapSum(AttemptValues(t.cells))
    ensures forall r :: ReplaysAddUp(t, r)
    ensures forall k :: k in t.rollups ==>
              BucketTotal(t.rollups[k]) == Get(t.rollups[k], LatencyCount) == Get(t.rollups[k], DeliveryAttempts)
  {
    InitialInv(s);
    EmptyConserved(s);
    RunKeepsConserved(s, steps, t);
    assert FieldAddsUp(t, DeadLetteredField) && FieldAddsUp(t, SucceededField);
  }
}
