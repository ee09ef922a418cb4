/** The delivery protocol as a transition system over the shared store and the queues.

    Atomic steps are the repository's conditional transactions, single reads, single queue
    operations, and clock readings. A worker task is kept with the message it holds: the task
    remembers the snapshots it has read, and any number of other steps may happen between two
    steps of one task. */
module System {
  import opened Domain
  import opened Cells
  import RL = RateLimiter
  import CB = CircuitBreaker
  import RO = Rollups

  // ---------------------------------------------------------------- state

  datatype DestinationPolicy = DestinationPolicy(rate: RL.Limits, circuit: CB.CircuitPolicy)

  datatype Event = Event(outcome: Outcome, status: EventStatus, version: nat)

  /** Outbox identifiers: some are derived from what they announce, the rest are generated. */
  datatype RowId =
    | RouteRow(e: EventId) | InitialRow(d: DeliveryId)
    | RecoveryRow(r: DeliveryId, version: nat) | ResumeRow(s: DeliveryId, at: nat)
    | Generated(n: nat)

  datatype Target = ToDelivery(d: DeliveryId) | ToEvent(e: EventId)

  /** `schedule` is the notBefore of a SCHEDULE_DELIVERY record. `sent` is a history variable:
      some publisher has put the record's message on the queue. */
  datatype OutboxRow = OutboxRow(target: Target, schedule: Option<Time>, sent: bool, published: bool)

  /** Scheduled work; `sent` as above. */
  datatype Work = Work(d: DeliveryId, notBefore: Time, sent: bool, published: bool)

  datatype CircuitRecord = CircuitRecord(item: CB.Circuit, log: seq<CB.Entry>)
  datatype RateRecord = RateRecord(item: Option<RL.RateState>, log: seq<RL.Permit>)

  /** The circuit write that finalization carries along: the permit it was allowed under. */
  datatype CircuitWrite = CircuitWrite(permit: CB.CircuitPermit, success: bool, counts: bool, now: Time)

  /** How far a lease holder has come on its way to an attempt. */
  datatype Phase =
    | Holding
    | CircuitTry(seen: CB.Circuit, probe: CB.Circuit)
    | Permitted
    | RateTry(rate: Option<RL.RateState>, tat: Time)
    | Ready
    | Starting(attempt: Attempt)

  /** What the current round of `finalizeAttempt` has read. */
  datatype Reads = NoReads | ReadDelivery(current: Delivery) | ReadBoth(current: Delivery, ev: Event)

  /** Where one worker is in `deliver`, `recoverExpired` or `route`, with what it has read.
      `snap` is always the delivery record the task goes by. */
  datatype Task =
    | Received
    | Fetched(found: Option<Delivery>)
    | Recovering(snap: Delivery, now: Time, inside: bool)
    | Acquiring(snap: Delivery, now: Time, leased: Option<Delivery>)
    | Leased(snap: Delivery, now: Time, permit: Option<CB.CircuitPermit>, phase: Phase)
    | Attempting(snap: Delivery, granted: CB.CircuitPermit, attempt: Attempt, sent: bool)
    | Finalizing(plan: FinalPlan, write: Option<CircuitWrite>, known: Reads)
    | Deferring(defer: DeferPlan, read: Option<Delivery>)
    | Routing
    | RouteTry(created: Delivery, ev: Event)
    | RouteDone(ev: Event)
    | Acking

  /** A message is visible, held by a worker task, or in flight after its holder stopped. */
  datatype Place = Visible | Held(task: Task) | Stranded(returnAt: Time)
  datatype Msg = Msg(target: Target, place: Place)

  datatype AcceptKey = AcceptKey(producer: nat, key: nat)
  datatype AcceptEntry = AcceptEntry(hash: nat, event: EventId)
  datatype ReplayEntry = ReplayEntry(hash: nat, replay: DeliveryId)

  /** `sends` is a history variable: every call made to a partner, as (delivery, attempt number). */
  datatype Sys = Sys(
    clock: Time,
    policies: map<DestinationId, DestinationPolicy>,
    events: map<EventId, Event>,
    cells: map<DeliveryId, Cell>,
    rows: map<RowId, OutboxRow>,
    work: map<RowId, Work>,
    msgs: map<nat, Msg>,
    circuits: map<DestinationId, CircuitRecord>,
    rates: map<DestinationId, RateRecord>,
    rollups: RO.Table,
    accepted: map<AcceptKey, AcceptEntry>,
    replays: map<nat, ReplayEntry>,
    sends: seq<(DeliveryId, nat)>)

  function CircuitOf(s: Sys, x: DestinationId): CircuitRecord {
    if x in s.circuits then s.circuits[x] else CircuitRecord(CB.INITIAL_CIRCUIT, [])
  }

  function RateOf(s: Sys, x: DestinationId): RateRecord {
    if x in s.rates then s.rates[x] else RateRecord(None, [])
  }

  /** A system that has accepted nothing yet. */
  predicate Initial(s: Sys) {
    && s.events == map[] && s.cells == map[] && s.rows == map[] && s.work == map[] && s.msgs == map[]
    && s.circuits == map[] && s.rates == map[] && s.rollups == map[]
    && s.accepted == map[] && s.replays == map[] && s.sends == []
    && (forall x :: x in s.policies ==>
          RL.ValidLimits(s.policies[x].rate) && CB.ValidCircuitPolicy(s.policies[x].circuit))
  }

  // ---------------------------------------------------------------- effects

  datatype RollupChange = NoRollup | Accept(hour: int, shard: nat) | Record(u: RO.Update)

  /** What one step changes. Everything that is not named stays as it is. */
  datatype Effect = Effect(
    clock: Time,
    msg: Option<(nat, Option<Msg>)>,
    cell: Option<(DeliveryId, Cell)>,
    event: Option<(EventId, Event)>,
    row: Option<(RowId, OutboxRow)>,
    work: Option<(RowId, Work)>,
    circuit: Option<(DestinationId, CircuitRecord)>,
    rate: Option<(DestinationId, RateRecord)>,
    rollup: RollupChange,
    accepted: Option<(AcceptKey, AcceptEntry)>,
    replay: Option<(nat, ReplayEntry)>,
    send: Option<(DeliveryId, nat)>)

  function Put<K, V>(m: map<K, V>, change: Option<(K, V)>): map<K, V> {
    if change.Some? then m[change.value.0 := change.value.1] else m
  }

  function PutMsg(m: map<nat, Msg>, change: Option<(nat, Option<Msg>)>): map<nat, Msg> {
    if change.None? then m
    else if change.value.1.Some? then m[change.value.0 := change.value.1.value]
    else m - {change.value.0}
  }

  function Apply(s: Sys, e: Effect): Sys {
    Sys(e.clock, s.policies, Put(s.events, e.event), Put(s.cells, e.cell), Put(s.rows, e.row),
        Put(s.work, e.work), PutMsg(s.msgs, e.msg), Put(s.circuits, e.circuit), Put(s.rates, e.rate),
        match e.rollup
          case NoRollup => s.rollups
          case Accept(h, n) => RO.RecordAccepted(s.rollups, h, n)
          case Record(u) => RO.Record(s.rollups, u),
        Put(s.accepted, e.accepted), Put(s.replays, e.replay),
        if e.send.Some? then s.sends + [e.send.value] else s.sends)
  }

  function Quiet(s: Sys): Effect {
    Effect(s.clock, None, None, None, None, None, None, None, NoRollup, None, None, None)
  }

  /** The task holding message `m` moves on; nothing else happens. */
  function Move(s: Sys, m: nat, t: Task): Effect
    requires m in s.msgs
  {
    Quiet(s).(msg := Some((m, Some(s.msgs[m].(place := Held(t))))))
  }

  predicate AtDelivery(s: Sys, m: nat) {
    m in s.msgs && s.msgs[m].place.Held? && s.msgs[m].target.ToDelivery?
  }

  /** The task holds a message of a stored delivery. */
  predicate AtCell(s: Sys, m: nat) {
    AtDelivery(s, m) && s.msgs[m].target.d in s.cells
  }

  predicate AtEvent(s: Sys, m: nat) {
    m in s.msgs && s.msgs[m].place.Held? && s.msgs[m].target.ToEvent?
  }

  function Id(s: Sys, m: nat): DeliveryId
    requires AtDelivery(s, m)
  {
    s.msgs[m].target.d
  }

  function CellOf(s: Sys, m: nat): Cell
    requires AtCell(s, m)
  {
    s.cells[s.msgs[m].target.d]
  }

  function TaskOf(s: Sys, m: nat): Task
    requires m in s.msgs && s.msgs[m].place.Held?
  {
    s.msgs[m].place.task
  }

  // ---------------------------------------------------------------- queue steps

  function Receive(s: Sys, m: nat): Option<Effect> {
    if m in s.msgs && s.msgs[m].place.Visible? then Some(Move(s, m, Received)) else None
  }

  /** Deleting the message. */
  function Ack(s: Sys, m: nat): Option<Effect> {
    if m in s.msgs && s.msgs[m].place == Held(Acking) then Some(Quiet(s).(msg := Some((m, None)))) else None
  }

  /** The lease, if any, that the task believes to hold. */
  function LeaseSnapshot(t: Task): Option<Delivery> {
    match t
    case Leased(x, _, _, _) => Some(x)
    case Attempting(x, _, _, _) => Some(x)
    case Finalizing(p, _, _) => Some(p.snap)
    case Deferring(p, _) => Some(p.snap)
    case _ => None
  }

  function LeaseEnd(t: Task, otherwise: Time): Time {
    var x := LeaseSnapshot(t);
    if x.Some? && x.value.lease.Some? then x.value.lease.value.expiresAt else otherwise
  }

  /** The worker stops or its call throws: the message stays in flight, and comes back no earlier
      than the lease the worker held runs out. */
  function Crash(s: Sys, m: nat): Option<Effect> {
    if m in s.msgs && s.msgs[m].place.Held? then
      Some(Quiet(s).(msg := Some((m, Some(s.msgs[m].(place := Stranded(LeaseEnd(TaskOf(s, m), s.clock))))))))
    else None
  }

  function Return(s: Sys, m: nat): Option<Effect> {
    if m in s.msgs && s.msgs[m].place.Stranded? && s.clock >= s.msgs[m].place.returnAt then
      Some(Quiet(s).(msg := Some((m, Some(s.msgs[m].(place := Visible))))))
    else None
  }

  /** At-least-once queues may hand out a second copy of anything. */
  function Duplicate(s: Sys, m: nat, copy: nat): Option<Effect> {
    if m in s.msgs && copy !in s.msgs then
      Some(Quiet(s).(msg := Some((copy, Some(Msg(s.msgs[m].target, Visible))))))
    else None
  }

  function Tick(s: Sys, now: Time): Option<Effect> {
    if now >= s.clock then Some(Quiet(s).(clock := now)) else None
  }

  // ---------------------------------------------------------------- deliver: first read and branches

  predicate LeaseExpired(x: Delivery, now: Time) {
    x.state == InProgress && x.lease.Some? && x.lease.value.expiresAt <= now
  }

  function Fetch(s: Sys, m: nat): Option<Effect> {
    if AtDelivery(s, m) && TaskOf(s, m).Received? then
      Some(Move(s, m, Fetched(if Id(s, m) in s.cells then Some(s.cells[Id(s, m)].d) else None)))
    else None
  }

  /** The worker reads its clock and decides on what it fetched. A delivery that is not yet
      eligible is deferred by changing the visibility of the message. */
  function Branch(s: Sys, m: nat): Option<Effect> {
    if !AtDelivery(s, m) || !TaskOf(s, m).Fetched? then None
    else
      var found := TaskOf(s, m).found;
      if found.None? || Terminal(found.value.state) then Some(Move(s, m, Acking))
      else if LeaseExpired(found.value, s.clock) then Some(Move(s, m, Recovering(found.value, s.clock, false)))
      else if !EligibleAt(found.value, s.clock) then
        Some(Quiet(s).(msg := Some((m, Some(s.msgs[m].(place := Visible))))))
      else Some(Move(s, m, Acquiring(found.value, s.clock, None)))
  }

  // ---------------------------------------------------------------- recoverExpired

  /** A `false` result of recoverExpired is ignored by the caller: the message is acknowledged. */
  function RecoverFetch(s: Sys, m: nat): Option<Effect> {
    if !AtCell(s, m) || !TaskOf(s, m).Recovering? || TaskOf(s, m).inside then None
    else if !LeaseExpired(CellOf(s, m).d, TaskOf(s, m).now) then Some(Move(s, m, Acking))
    else Some(Move(s, m, Recovering(CellOf(s, m).d, TaskOf(s, m).now, true)))
  }

  function RecoverInspect(s: Sys, m: nat, random: real): Option<Effect> {
    if !AtCell(s, m) || !TaskOf(s, m).Recovering? || !TaskOf(s, m).inside then None
    else
      var snap, now := TaskOf(s, m).snap, TaskOf(s, m).now;
      if snap.activeAttempt.Some? then
        var n := snap.attemptCount;
        if n == 0 || n !in CellOf(s, m).attempts || CellOf(s, m).attempts[n].id != snap.activeAttempt.value then
          Some(Move(s, m, Acking))
        else
          var plan := PlanTimeout(snap, CellOf(s, m).attempts[n], now, random);
          if plan.None? then None else Some(Move(s, m, Finalizing(plan.value, None, NoReads)))
      else
        var plan := PlanDefer(snap, Scheduled, now, now, None, true);
        if plan.None? then None else Some(Move(s, m, Deferring(plan.value, None)))
  }

  // ---------------------------------------------------------------- acquireLease

  /** The read of acquireLease and its checks. There is no step when the transition throws: the
      task can then only crash. */
  function AcquireFetch(s: Sys, m: nat, token: LeaseToken, owner: nat): Option<Effect> {
    if !AtCell(s, m) || !TaskOf(s, m).Acquiring? || TaskOf(s, m).leased.Some? then None
    else
      var t, d := TaskOf(s, m), CellOf(s, m).d;
      if d.version != t.snap.version || !Leasable(d.state) || !EligibleAt(d, s.clock) then
        Some(Move(s, m, Acking))
      else
        var leased := LeaseTransition(d, Lease(owner, token, s.clock, t.now + t.snap.timeoutMs + 5000));
        if leased.None? then None else Some(Move(s, m, Acquiring(d, t.now, leased)))
  }

  function AcquireCommit(s: Sys, m: nat): Option<Effect> {
    if !AtCell(s, m) || !TaskOf(s, m).Acquiring? || TaskOf(s, m).leased.None? then None
    else
      var t := TaskOf(s, m);
      var c := CommitLease(CellOf(s, m), t.snap, t.leased.value);
      if c.None? then None
      else Some(Move(s, m, Leased(t.leased.value, t.now, None, Holding)).(cell := Some((Id(s, m), c.value))))
  }

  function AcquireLost(s: Sys, m: nat): Option<Effect> {
    if AtCell(s, m) && TaskOf(s, m).Acquiring? && TaskOf(s, m).leased.Some?
       && !LeaseCondition(CellOf(s, m), TaskOf(s, m).snap.version, TaskOf(s, m).leased.value.updatedAt) then
      Some(Move(s, m, Acking))
    else None
  }

  // ---------------------------------------------------------------- permits

  predicate InPhase(s: Sys, m: nat, phase: Phase) {
    AtCell(s, m) && TaskOf(s, m).Leased? && TaskOf(s, m).phase == phase
  }

  function GiveBack(
    s: Sys, m: nat, to: DeliveryState, at: Time, reason: FailureCategory): Option<Effect>
    requires AtCell(s, m) && TaskOf(s, m).Leased?
  {
    var plan := PlanDefer(TaskOf(s, m).snap, to, TaskOf(s, m).now, at, Some(reason), false);
    if plan.None? then None else Some(Move(s, m, Deferring(plan.value, None)))
  }

  /** The destination is gone or disabled. */
  function DestinationOff(s: Sys, m: nat): Option<Effect> {
    if InPhase(s, m, Holding) then GiveBack(s, m, Scheduled, TaskOf(s, m).now + 300_000, DestinationDisabled)
    else None
  }

  function HolderOf(d: DeliveryId, leased: Delivery): CB.Holder {
    CB.Holder(d, leased.version)
  }

  function CircuitAsk(s: Sys, m: nat): Option<Effect> {
    if !InPhase(s, m, Holding) || TaskOf(s, m).snap.destination !in s.policies then None
    else
      var t := TaskOf(s, m);
      var item := CircuitOf(s, t.snap.destination).item;
      match CB.AskCircuit(item, s.policies[t.snap.destination].circuit, HolderOf(Id(s, m), t.snap), t.now)
      case Allowed => Some(Move(s, m, t.(permit := Some(CB.CircuitPermit(item, false)), phase := Permitted)))
      case Refused(at) => GiveBack(s, m, Scheduled, at, FailureCategory.CircuitOpen)
      case MayProbe(probe) => Some(Move(s, m, t.(phase := CircuitTry(item, probe))))
  }

  function CircuitCommit(s: Sys, m: nat): Option<Effect> {
    if !AtCell(s, m) || !TaskOf(s, m).Leased? || !TaskOf(s, m).phase.CircuitTry? then None
    else
      var t := TaskOf(s, m);
      var x := t.snap.destination;
      if CircuitOf(s, x).item.version != t.phase.seen.version then None
      else Some(Move(s, m, t.(permit := Some(CB.CircuitPermit(t.phase.probe, true)), phase := Permitted)).(
        circuit := Some((x, CircuitRecord(
          t.phase.probe, CircuitOf(s, x).log + [CB.Probe(HolderOf(Id(s, m), t.snap), t.now)])))))
  }

  /** A lost swap: the loop starts over. */
  function CircuitLost(s: Sys, m: nat): Option<Effect> {
    if AtCell(s, m) && TaskOf(s, m).Leased? && TaskOf(s, m).phase.CircuitTry? then
      Some(Move(s, m, TaskOf(s, m).(phase := Holding)))
    else None
  }

  /** Eight lost rounds. */
  function CircuitExhausted(s: Sys, m: nat): Option<Effect> {
    if InPhase(s, m, Holding) then GiveBack(s, m, Scheduled, TaskOf(s, m).now + 5000, FailureCategory.CircuitOpen)
    else None
  }

  function RateAsk(s: Sys, m: nat): Option<Effect> {
    if !InPhase(s, m, Permitted) || TaskOf(s, m).snap.destination !in s.policies then None
    else
      var t := TaskOf(s, m);
      var item := RateOf(s, t.snap.destination).item;
      match RL.RateLimitDecision(item, s.policies[t.snap.destination].rate, t.now)
      case Denied(at) => GiveBack(s, m, RateLimited, at, RateLimitFailure)
      case Granted(tat) => Some(Move(s, m, t.(phase := RateTry(item, tat))))
  }

  function RateVersion(r: Option<RL.RateState>): nat {
    if r.Some? then r.value.version else 0
  }

  function RateCommit(s: Sys, m: nat): Option<Effect> {
    if !AtCell(s, m) || !TaskOf(s, m).Leased? || !TaskOf(s, m).phase.RateTry? then None
    else
      var t := TaskOf(s, m);
      var x := t.snap.destination;
      if RateOf(s, x).item.Some? && RateVersion(RateOf(s, x).item) != RateVersion(t.phase.rate) then None
      else Some(Move(s, m, t.(phase := Ready)).(
        rate := Some((x, RateRecord(
          Some(RL.RateState(t.phase.tat, RateVersion(t.phase.rate) + 1)),
          RateOf(s, x).log + [RL.Permit(m, t.now)])))))
  }

  function RateLost(s: Sys, m: nat): Option<Effect> {
    if AtCell(s, m) && TaskOf(s, m).Leased? && TaskOf(s, m).phase.RateTry? then
      Some(Move(s, m, TaskOf(s, m).(phase := Permitted)))
    else None
  }

  function RateExhausted(s: Sys, m: nat): Option<Effect> {
    if InPhase(s, m, Permitted) then GiveBack(s, m, RateLimited, TaskOf(s, m).now + 5000, RateLimitFailure)
    else None
  }

  // ---------------------------------------------------------------- the attempt

  function Prepare(s: Sys, m: nat, id: AttemptId): Option<Effect> {
    if InPhase(s, m, Ready) then
      Some(Move(s, m, TaskOf(s, m).(phase := Starting(Attempt(id, s.clock, None, 0, AttemptStarted, None)))))
    else None
  }

  predicate InStarting(s: Sys, m: nat) {
    AtCell(s, m) && TaskOf(s, m).Leased? && TaskOf(s, m).phase.Starting? && TaskOf(s, m).permit.Some?
  }

  function StartCommit(s: Sys, m: nat): Option<Effect> {
    if !InStarting(s, m) then None
    else
      var t := TaskOf(s, m);
      var c := CommitStart(CellOf(s, m), t.snap, t.phase.attempt);
      if c.None? then None
      else Some(Move(s, m, Attempting(StartedDelivery(t.snap, t.phase.attempt), t.permit.value, t.phase.attempt, false)).(
        cell := Some((Id(s, m), c.value))))
  }

  function StartLost(s: Sys, m: nat): Option<Effect> {
    if InStarting(s, m) && !StartCondition(CellOf(s, m), TaskOf(s, m).snap) then Some(Move(s, m, Acking))
    else None
  }

  /** The partner is called. */
  function Send(s: Sys, m: nat): Option<Effect> {
    if AtCell(s, m) && TaskOf(s, m).Attempting? && !TaskOf(s, m).sent then
      Some(Move(s, m, TaskOf(s, m).(sent := true)).(send := Some((Id(s, m), TaskOf(s, m).snap.attemptCount))))
    else None
  }

  /** The outcome is known: an answer after the call, or an error before it was made. */
  function Respond(s: Sys, m: nat, response: Response, random: real, retryAfter: Option<real>): Option<Effect> {
    if !AtCell(s, m) || !TaskOf(s, m).Attempting? || TaskOf(s, m).snap.attemptCount == 0
       || (!TaskOf(s, m).sent && !response.Failed?) then None
    else
      var t := TaskOf(s, m);
      var r := ClassifyDeliveryResult(response);
      var plan := PlanResult(t.snap, t.attempt, s.clock, r, random, retryAfter);
      if plan.None? then None
      else Some(Move(s, m, Finalizing(
        plan.value, Some(CircuitWrite(t.granted, r.success, r.countsTowardCircuit, s.clock)), NoReads)))
  }

  // ---------------------------------------------------------------- finalizeAttempt

  function FinalFetch(s: Sys, m: nat): Option<Effect> {
    if AtCell(s, m) && TaskOf(s, m).Finalizing? && TaskOf(s, m).known.NoReads? then
      Some(Move(s, m, TaskOf(s, m).(known := ReadDelivery(CellOf(s, m).d))))
    else None
  }

  function FinalFetchEvent(s: Sys, m: nat): Option<Effect> {
    if AtCell(s, m) && TaskOf(s, m).Finalizing? && TaskOf(s, m).known.ReadDelivery?
       && TaskOf(s, m).plan.snap.event in s.events then
      Some(Move(s, m, TaskOf(s, m).(
        known := ReadBoth(TaskOf(s, m).known.current, s.events[TaskOf(s, m).plan.snap.event]))))
    else None
  }

  predicate UpdatesEvent(d: Delivery) {
    Terminal(d.state) && d.kind == Original
  }

  function CountTerminal(o: Outcome, s: DeliveryState): Outcome {
    o.(terminal := o.terminal + 1,
       succeeded := o.succeeded + (if s == Succeeded then 1 else 0),
       failed := o.failed + (if s == FailedTerminal then 1 else 0),
       deadLettered := o.deadLettered + (if s == DeadLettered then 1 else 0))
  }

  /** The event as the transaction will store it; None when the derivation throws. */
  function NextEvent(ev: Event, o: Outcome): Option<Event> {
    var status := DeriveEventStatus(o);
    if status.None? then None else Some(Event(o, status.value, ev.version + 1))
  }

  function PlanRow(d: DeliveryId, recovery: bool, version: nat, n: nat): RowId {
    if recovery then RecoveryRow(d, version) else Generated(n)
  }

  /** The version conditions on the items a finalization writes besides the delivery. */
  predicate FinalGuards(s: Sys, d: DeliveryId, plan: FinalPlan, write: Option<CircuitWrite>, ev: Event, n: nat) {
    && (UpdatesEvent(plan.final) ==>
          && plan.snap.event in s.events && s.events[plan.snap.event].version == ev.version
          && NextEvent(ev, CountTerminal(ev.outcome, plan.final.state)).Some?)
    && (write.Some? ==>
          && plan.snap.destination in s.policies
          && CircuitOf(s, plan.snap.destination).item.version == write.value.permit.state.version)
    && (plan.notBefore.Some? ==> PlanRow(d, plan.recovery, plan.snap.version, n) !in s.rows)
  }

  function FinalUpdate(plan: FinalPlan, shard: nat): RO.Update {
    RO.Update(
      RO.HourOf(if plan.finished.completedAt.Some? then plan.finished.completedAt.value else plan.final.updatedAt),
      shard, plan.final.destination,
      RO.AttemptDelta(plan.final.kind, plan.final.state, plan.finished.outcome == AttemptSucceeded,
                      plan.finished.outcome == AttemptFailed, plan.finished.durationMs))
  }

  function FinalCircuit(s: Sys, d: DeliveryId, plan: FinalPlan, w: CircuitWrite): CircuitRecord
    requires plan.snap.destination in s.policies && plan.snap.version >= 1
  {
    var p := s.policies[plan.snap.destination].circuit;
    CircuitRecord(
      CB.CircuitAfterAttempt(w.permit.state, p, w.now, w.success, w.counts, w.permit.probe),
      CircuitOf(s, plan.snap.destination).log
      + [CB.Result(CB.Holder(d, plan.snap.version - 1), w.permit.probe, w.success, w.counts, w.now)])
  }

  predicate InFinal(s: Sys, m: nat) {
    AtCell(s, m) && TaskOf(s, m).Finalizing? && TaskOf(s, m).known.ReadBoth?
  }

  function FinalCommit(s: Sys, m: nat, n: nat, shard: nat): Option<Effect> {
    if !InFinal(s, m) then None
    else
      var t, d := TaskOf(s, m), Id(s, m);
      var plan, ev := t.plan, t.known.ev;
      var c := CommitFinal(CellOf(s, m), plan, t.known.current);
      if c.None? || plan.snap.version == 0 || !FinalGuards(s, d, plan, t.write, ev, n) then None
      else Some(Move(s, m, Acking).(
        cell := Some((d, c.value)),
        event := if UpdatesEvent(plan.final)
                 then Some((plan.snap.event, NextEvent(ev, CountTerminal(ev.outcome, plan.final.state)).value))
                 else None,
        row := if plan.notBefore.Some?
               then Some((PlanRow(d, plan.recovery, plan.snap.version, n),
                          OutboxRow(ToDelivery(d), plan.notBefore, false, false)))
               else None,
        circuit := if t.write.Some?
                   then Some((plan.snap.destination, FinalCircuit(s, d, plan, t.write.value)))
                   else None,
        rollup := Record(FinalUpdate(plan, shard))))
  }

  /** A failed condition: the loop reads again. */
  function FinalRetry(s: Sys, m: nat): Option<Effect> {
    if InFinal(s, m) then Some(Move(s, m, TaskOf(s, m).(known := NoReads))) else None
  }

  /** Recovery gives up and its message is acknowledged. Its eight rounds are assumed not to run out
      on the event alone, so the conditions on the delivery or its attempt have failed. */
  function FinalGiveUp(s: Sys, m: nat): Option<Effect> {
    if InFinal(s, m) && TaskOf(s, m).plan.recovery && !FinalCondition(CellOf(s, m), TaskOf(s, m).plan) then
      Some(Move(s, m, Acking))
    else None
  }

  // ---------------------------------------------------------------- defer

  function DeferFetch(s: Sys, m: nat): Option<Effect> {
    if AtCell(s, m) && TaskOf(s, m).Deferring? && TaskOf(s, m).read.None? then
      Some(Move(s, m, TaskOf(s, m).(read := Some(CellOf(s, m).d))))
    else None
  }

  predicate InDefer(s: Sys, m: nat) {
    AtCell(s, m) && TaskOf(s, m).Deferring? && TaskOf(s, m).read.Some?
  }

  function DeferCommit(s: Sys, m: nat, n: nat): Option<Effect> {
    if !InDefer(s, m) then None
    else
      var plan, d := TaskOf(s, m).defer, Id(s, m);
      var c := CommitDefer(CellOf(s, m), plan, TaskOf(s, m).read.value);
      var r := PlanRow(d, plan.recovery, plan.snap.version, n);
      if c.None? || r in s.rows then None
      else Some(Move(s, m, Acking).(
        cell := Some((d, c.value)),
        row := Some((r, OutboxRow(ToDelivery(d), Some(plan.notBefore), false, false)))))
  }

  /** A failed condition is ignored and the message acknowledged. Generated identifiers are unique,
      so only a derived one can already be taken. */
  function DeferLost(s: Sys, m: nat): Option<Effect> {
    if InDefer(s, m)
       && (!DeferCondition(CellOf(s, m), TaskOf(s, m).defer)
           || (TaskOf(s, m).defer.recovery
               && RecoveryRow(Id(s, m), TaskOf(s, m).defer.snap.version) in s.rows)) then
      Some(Move(s, m, Acking))
    else None
  }

  // ---------------------------------------------------------------- outbox and scheduled work

  /** A publisher puts the message of a record on the queue, unless it is due so late that it is
      materialized instead. The publisher may have read the record long ago. */
  function SendRow(s: Sys, r: RowId, m: nat): Option<Effect> {
    if r in s.rows && m !in s.msgs
       && (s.rows[r].schedule.Some? ==> s.rows[r].schedule.value - s.clock <= 900_000) then
      Some(Quiet(s).(msg := Some((m, Some(Msg(s.rows[r].target, Visible)))),
                     row := Some((r, s.rows[r].(sent := true)))))
    else None
  }

  /** Marking happens only after sending; a crash in between leaves the record to be sent again. */
  function MarkRow(s: Sys, r: RowId): Option<Effect> {
    if r in s.rows && s.rows[r].sent then Some(Quiet(s).(row := Some((r, s.rows[r].(published := true)))))
    else None
  }

  function Materialize(s: Sys, r: RowId): Option<Effect> {
    if r in s.rows && s.rows[r].schedule.Some? && s.rows[r].target.ToDelivery?
       && s.rows[r].schedule.value - s.clock > 900_000 && r !in s.work then
      Some(Quiet(s).(row := Some((r, s.rows[r].(published := true))),
                     work := Some((r, Work(s.rows[r].target.d, s.rows[r].schedule.value, false, false)))))
    else None
  }

  function SendWork(s: Sys, r: RowId, m: nat): Option<Effect> {
    if r in s.work && m !in s.msgs && s.work[r].notBefore <= s.clock then
      Some(Quiet(s).(msg := Some((m, Some(Msg(ToDelivery(s.work[r].d), Visible)))),
                     work := Some((r, s.work[r].(sent := true)))))
    else None
  }

  function MarkWork(s: Sys, r: RowId): Option<Effect> {
    if r in s.work && s.work[r].sent then Some(Quiet(s).(work := Some((r, s.work[r].(published := true)))))
    else None
  }

  // ---------------------------------------------------------------- resumeDestination

  /** One conditional write of the loop. A stale read cannot commit, so the read is the current record;
      `now` was read when the message was received. */
  function Resume(s: Sys, d: DeliveryId, now: Time): Option<Effect> {
    if d !in s.cells || now > s.clock || !Resumable(s.cells[d].d, s.cells[d].d.destination)
       || ResumeRow(d, s.cells[d].d.version) in s.rows then None
    else
      var c := CommitResume(s.cells[d], s.cells[d].d, now);
      if c.None? then None
      else Some(Quiet(s).(
        cell := Some((d, c.value)),
        row := Some((ResumeRow(d, s.cells[d].d.version), OutboxRow(ToDelivery(d), None, false, false)))))
  }

  // ---------------------------------------------------------------- accept and route

  const NO_DELIVERIES := Outcome(false, 0, 0, 0, 0, 0)

  function AcceptEvent(s: Sys, e: EventId, k: AcceptKey, hash: nat, shard: nat): Option<Effect> {
    if e in s.events || k in s.accepted || RouteRow(e) in s.rows then None
    else Some(Quiet(s).(
      event := Some((e, Event(NO_DELIVERIES, Accepted, 1))),
      row := Some((RouteRow(e), OutboxRow(ToEvent(e), None, false, false))),
      rollup := Accept(RO.HourOf(s.clock), shard),
      accepted := Some((k, AcceptEntry(hash, e)))))
  }

  function RouteFetch(s: Sys, m: nat): Option<Effect> {
    if AtEvent(s, m) && TaskOf(s, m).Received? then
      Some(Move(s, m, if s.msgs[m].target.e in s.events then Routing else Acking))
    else None
  }

  /** A delivery as the router builds it: scheduled, or failed because its transformation failed. */
  predicate NewOriginal(x: Delivery, e: EventId) {
    && x.event == e && x.kind == Original && x.version == 1
    && x.attemptCount == 0 && x.activeAttempt.None? && x.lease.None?
    && x.maxAttempts >= 1 && ValidRetryPolicy(x.policy)
    && (if x.state == Scheduled then x.nextEligibleAt.Some? && x.blockedReason.None?
        else x.state == FailedTerminal && x.blockedReason == Some(TransformationError))
  }

  function RouteRead(s: Sys, m: nat, x: Delivery): Option<Effect> {
    if AtEvent(s, m) && TaskOf(s, m).Routing? && s.msgs[m].target.e in s.events
       && NewOriginal(x, s.msgs[m].target.e) && OriginalId(x.event, x.destination) !in s.cells then
      Some(Move(s, m, RouteTry(x, s.events[x.event])))
    else None
  }

  function CountCreated(o: Outcome, s: DeliveryState): Outcome {
    if Terminal(s) then CountTerminal(o.(total := o.total + 1), s) else o.(total := o.total + 1)
  }

  function RouteCommit(s: Sys, m: nat, shard: nat): Option<Effect> {
    if !AtEvent(s, m) || !TaskOf(s, m).RouteTry? then None
    else
      var x, ev := TaskOf(s, m).created, TaskOf(s, m).ev;
      var d := OriginalId(x.event, x.destination);
      var next := NextEvent(ev, CountCreated(ev.outcome, x.state));
      if d in s.cells || x.event !in s.events || s.events[x.event].version != ev.version || next.None?
         || (x.state == Scheduled && InitialRow(d) in s.rows) then None
      else Some(Move(s, m, Routing).(
        cell := Some((d, NewCell(x))),
        event := Some((x.event, next.value)),
        row := if x.state == Scheduled
               then Some((InitialRow(d), OutboxRow(ToDelivery(d), None, false, false))) else None,
        rollup := if Terminal(x.state)
                  then Record(RO.Update(RO.HourOf(x.updatedAt), shard, x.destination, RO.RoutingDelta(x.state)))
                  else NoRollup))
  }

  /** A lost race or an existing delivery: the router goes on with its loop. */
  function RouteRetry(s: Sys, m: nat): Option<Effect> {
    if AtEvent(s, m) && (TaskOf(s, m).RouteTry? || TaskOf(s, m).RouteDone?) then Some(Move(s, m, Routing)) else None
  }

  function CompleteRead(s: Sys, m: nat): Option<Effect> {
    if !AtEvent(s, m) || !TaskOf(s, m).Routing? || s.msgs[m].target.e !in s.events then None
    else
      var ev := s.events[s.msgs[m].target.e];
      Some(Move(s, m, if ev.outcome.routingComplete then Acking else RouteDone(ev)))
  }

  function CompleteCommit(s: Sys, m: nat): Option<Effect> {
    if !AtEvent(s, m) || !TaskOf(s, m).RouteDone? || s.msgs[m].target.e !in s.events then None
    else
      var ev, e := TaskOf(s, m).ev, s.msgs[m].target.e;
      var next := NextEvent(ev, ev.outcome.(routingComplete := true));
      if s.events[e].version != ev.version || next.None? then None
      else Some(Move(s, m, Acking).(event := Some((e, next.value))))
  }

  // ---------------------------------------------------------------- createReplay

  predicate NewReplay(x: Delivery, original: Delivery) {
    && x.event == original.event && x.destination == original.destination
    && x.kind == ExecutionKind.Replay && x.version == 1
    && x.attemptCount == 0 && x.activeAttempt.None? && x.lease.None?
    && x.maxAttempts >= 1 && ValidRetryPolicy(x.policy)
    && x.state == Scheduled && x.nextEligibleAt.Some? && x.blockedReason.None?
  }

  /** The original was read before and is terminal, hence unchanged since. */
  function CreateReplay(
    s: Sys, original: DeliveryId, corrected: bool, id: nat, x: Delivery, key: nat, hash: nat, n: nat, shard: nat): Option<Effect>
  {
    var d := ReplayId(id);
    if original !in s.cells || d in s.cells || key in s.replays || Generated(n) in s.rows then None
    else if !ReplayEligible(s.cells[original].d.state, s.cells[original].d.lastFailure, corrected)
            || !NewReplay(x, s.cells[original].d) then None
    else Some(Quiet(s).(
      cell := Some((d, NewCell(x))),
      row := Some((Generated(n), OutboxRow(ToDelivery(d), None, false, false))),
      replay := Some((key, ReplayEntry(hash, d))),
      rollup := Record(RO.Update(RO.HourOf(s.clock), shard, x.destination, RO.ReplayDelta()))))
  }

  // ---------------------------------------------------------------- steps

  datatype QueueStep =
    | DoTick(now: Time) | DoReceive(m: nat) | DoAck(m: nat) | DoCrash(m: nat) | DoReturn(m: nat)
    | DoDuplicate(m: nat, copy: nat)

  datatype ReadStep =
    | DoFetch(m: nat) | DoBranch(m: nat) | DoRecoverFetch(m: nat) | DoRecoverInspect(m: nat, random: real)

  datatype LeaseStep =
    | DoAcquireFetch(m: nat, token: LeaseToken, owner: nat) | DoAcquireCommit(m: nat) | DoAcquireLost(m: nat)
    | DoDestinationOff(m: nat)

  datatype PermitStep =
    | DoCircuitAsk(m: nat) | DoCircuitCommit(m: nat) | DoCircuitLost(m: nat) | DoCircuitExhausted(m: nat)
    | DoRateAsk(m: nat) | DoRateCommit(m: nat) | DoRateLost(m: nat) | DoRateExhausted(m: nat)

  datatype AttemptStep =
    | DoPrepare(m: nat, id: AttemptId) | DoStartCommit(m: nat) | DoStartLost(m: nat)
    | DoSend(m: nat) | DoRespond(m: nat, response: Response, random: real, retryAfter: Option<real>)

  datatype FinishStep =
    | DoFinalFetch(m: nat) | DoFinalFetchEvent(m: nat) | DoFinalCommit(m: nat, n: nat, shard: nat)
    | DoFinalRetry(m: nat) | DoFinalGiveUp(m: nat)
    | DoDeferFetch(m: nat) | DoDeferCommit(m: nat, n: nat) | DoDeferLost(m: nat)

  datatype PublishStep =
    | DoSendRow(r: RowId, m: nat) | DoMarkRow(r: RowId) | DoMaterialize(r: RowId)
    | DoSendWork(r: RowId, m: nat) | DoMarkWork(r: RowId)

  datatype RouteStep =
    | DoRouteFetch(m: nat) | DoRouteRead(m: nat, x: Delivery) | DoRouteCommit(m: nat, shard: nat)
    | DoRouteRetry(m: nat) | DoCompleteRead(m: nat) | DoCompleteCommit(m: nat)

  datatype IntakeStep =
    | DoAccept(e: EventId, k: AcceptKey, hash: nat, shard: nat)
    | DoResume(d: DeliveryId, now: Time)
    | DoReplay(original: DeliveryId, corrected: bool, id: nat, x: Delivery, key: nat, hash: nat, n: nat, shard: nat)

  datatype Step =
    | Queue(queue: QueueStep) | Read(read: ReadStep) | Acquire(acquire: LeaseStep) | Permit(permit: PermitStep)
    | Attempted(attempt: AttemptStep) | Finish(finish: FinishStep) | Publish(publish: PublishStep)
    | Route(route: RouteStep) | Intake(intake: IntakeStep)

  function QueueEffect(s: Sys, step: QueueStep): Option<Effect> {
    match step
    case DoTick(now) => Tick(s, now)
    case DoReceive(m) => Receive(s, m)
    case DoAck(m) => Ack(s, m)
    case DoCrash(m) => Crash(s, m)
    case DoReturn(m) => Return(s, m)
    case DoDuplicate(m, copy) => Duplicate(s, m, copy)
  }

  function ReadEffect(s: Sys, step: ReadStep): Option<Effect> {
    match step
    case DoFetch(m) => Fetch(s, m)
    case DoBranch(m) => Branch(s, m)
    case DoRecoverFetch(m) => RecoverFetch(s, m)
    case DoRecoverInspect(m, random) => RecoverInspect(s, m, random)
  }

  function LeaseEffect(s: Sys, step: LeaseStep): Option<Effect> {
    match step
    case DoAcquireFetch(m, token, owner) => AcquireFetch(s, m, token, owner)
    case DoAcquireCommit(m) => AcquireCommit(s, m)
    case DoAcquireLost(m) => AcquireLost(s, m)
    case DoDestinationOff(m) => DestinationOff(s, m)
  }

  function PermitEffect(s: Sys, step: PermitStep): Option<Effect> {
    match step
    case DoCircuitAsk(m) => CircuitAsk(s, m)
    case DoCircuitCommit(m) => CircuitCommit(s, m)
    case DoCircuitLost(m) => CircuitLost(s, m)
    case DoCircuitExhausted(m) => CircuitExhausted(s, m)
    case DoRateAsk(m) => RateAsk(s, m)
    case DoRateCommit(m) => RateCommit(s, m)
    case DoRateLost(m) => RateLost(s, m)
    case DoRateExhausted(m) => RateExhausted(s, m)
  }

  function AttemptEffect(s: Sys, step: AttemptStep): Option<Effect> {
    match step
    case DoPrepare(m, id) => Prepare(s, m, id)
    case DoStartCommit(m) => StartCommit(s, m)
    case DoStartLost(m) => StartLost(s, m)
    case DoSend(m) => Send(s, m)
    case DoRespond(m, response, random, retryAfter) => Respond(s, m, response, random, retryAfter)
  }

  function FinishEffect(s: Sys, step: FinishStep): Option<Effect> {
    match step
    case DoFinalFetch(m) => FinalFetch(s, m)
    case DoFinalFetchEvent(m) => FinalFetchEvent(s, m)
    case DoFinalCommit(m, n, shard) => FinalCommit(s, m, n, shard)
    case DoFinalRetry(m) => FinalRetry(s, m)
    case DoFinalGiveUp(m) => FinalGiveUp(s, m)
    case DoDeferFetch(m) => DeferFetch(s, m)
    case DoDeferCommit(m, n) => DeferCommit(s, m, n)
    case DoDeferLost(m) => DeferLost(s, m)
  }

  function PublishEffect(s: Sys, step: PublishStep): Option<Effect> {
    match step
    case DoSendRow(r, m) => SendRow(s, r, m)
    case DoMarkRow(r) => MarkRow(s, r)
    case DoMaterialize(r) => Materialize(s, r)
    case DoSendWork(r, m) => SendWork(s, r, m)
    case DoMarkWork(r) => MarkWork(s, r)
  }

  function RouteEffect(s: Sys, step: RouteStep): Option<Effect> {
    match step
    case DoRouteFetch(m) => RouteFetch(s, m)
    case DoRouteRead(m, x) => RouteRead(s, m, x)
    case DoRouteCommit(m, shard) => RouteCommit(s, m, shard)
    case DoRouteRetry(m) => RouteRetry(s, m)
    case DoCompleteRead(m) => CompleteRead(s, m)
    case DoCompleteCommit(m) => CompleteCommit(s, m)
  }

  function IntakeEffect(s: Sys, step: IntakeStep): Option<Effect> {
    match step
    case DoAccept(e, k, hash, shard) => AcceptEvent(s, e, k, hash, shard)
    case DoResume(d, now) => Resume(s, d, now)
    case DoReplay(original, corrected, id, x, key, hash, n, shard) =>
      CreateReplay(s, original, corrected, id, x, key, hash, n, shard)
  }

  function StepEffect(s: Sys, step: Step): Option<Effect> {
    match step
    case Queue(q) => QueueEffect(s, q)
    case Read(r) => ReadEffect(s, r)
    case Acquire(l) => LeaseEffect(s, l)
    case Permit(p) => PermitEffect(s, p)
    case Attempted(a) => AttemptEffect(s, a)
    case Finish(f) => FinishEffect(s, f)
    case Publish(p) => PublishEffect(s, p)
    case Route(r) => RouteEffect(s, r)
    case Intake(i) => IntakeEffect(s, i)
  }

  predicate Enabled(s: Sys, step: Step) {
    StepEffect(s, step).Some?
  }

  function Next(s: Sys, step: Step): Sys
    requires Enabled(s, step)
  {
    Apply(s, StepEffect(s, step).value)
  }

  /** The states the system goes through when it takes the steps one by one. */
  ghost predicate Passes(states: seq<Sys>, steps: seq<Step>) {
    && |states| == |steps| + 1
    && (forall i {:trigger steps[i]} :: 0 <= i < |steps| ==>
          Enabled(states[i], steps[i]) && states[i + 1] == Next(states[i], steps[i]))
  }

  /** The steps lead from `s` to `t`. */
  ghost predicate Run(s: Sys, steps: seq<Step>, t: Sys) {
    exists states :: Passes(states, steps) && states[0] == s && states[|steps|] == t
  }

  lemma TailPasses(states: seq<Sys>, steps: seq<Step>)
    requires Passes(states, steps) && steps != []
    ensures Passes(states[1..], steps[1..])
  {
    var rest, later := states[1..], steps[1..];
    forall i | 0 <= i < |later| ensures Enabled(rest[i], later[i]) && rest[i + 1] == Next(rest[i], later[i]) {
      assert later[i] == steps[i + 1];
    }
  }

  /** A run is a first step and a shorter run. */
  lemma FirstStep(s: Sys, steps: seq<Step>, t: Sys)
    requires Run(s, steps, t) && steps != []
    ensures Enabled(s, steps[0]) && Run(Next(s, steps[0]), steps[1..], t)
  {
    var states :| Passes(states, steps) && states[0] == s && states[|steps|] == t;
    TailPasses(states, steps);
    assert Enabled(states[0], steps[0]) && states[1..][0] == Next(s, steps[0]);
    assert states[1..][|steps[1..]|] == t;
  }

  lemma LongerPasses(states: seq<Sys>, steps: seq<Step>, step: Step, next: Sys)
    requires Passes(states, steps) && Enabled(states[|steps|], step) && next == Next(states[|steps|], step)
    ensures Passes(states + [next], steps + [step])
  {
    var longer, all := states + [next], steps + [step];
    forall i | 0 <= i < |all| ensures Enabled(longer[i], all[i]) && longer[i + 1] == Next(longer[i], all[i]) {
      if i < |steps| {
        assert all[i] == steps[i];
      } else {
        assert all[i] == step && longer[i] == states[|steps|] && longer[i + 1] == next;
      }
    }
  }

  /** A run can go on with any enabled step. */
  lemma OneMoreStep(s: Sys, steps: seq<Step>, t: Sys, step: Step)
    requires Run(s, steps, t) && Enabled(t, step)
    ensures Run(s, steps + [step], Next(t, step))
  {
    var states :| Passes(states, steps) && states[0] == s && states[|steps|] == t;
    var next := Next(t, step);
    LongerPasses(states, steps, step, next);
    assert (states + [next])[0] == s && (states + [next])[|steps + [step]|] == next;
  }

  lemma NoStep(s: Sys)
    ensures Run(s, [], s)
  {
    assert Passes([s], []);
  }

  ghost predicate Reachable(s: Sys) {
    exists first, steps :: Initial(first) && Run(first, steps, s)
  }

  lemma JoinPasses(before: seq<Sys>, a: seq<Step>, after: seq<Sys>, b: seq<Step>)
    requires Passes(before, a) && Passes(after, b) && before[|a|] == after[0]
    ensures Passes(before + after[1..], a + b)
  {
    var all, steps := before + after[1..], a + b;
    forall i | 0 <= i < |steps| ensures Enabled(all[i], steps[i]) && all[i + 1] == Next(all[i], steps[i]) {
      if i < |a| {
        assert steps[i] == a[i];
      } else {
        assert steps[i] == b[i - |a|] && all[i] == after[i - |a|] && all[i + 1] == after[i - |a| + 1];
      }
    }
  }

  /** One run after another is a run. */
  lemma JoinRuns(s: Sys, a: seq<Step>, t: Sys, b: seq<Step>, u: Sys)
    requires Run(s, a, t) && Run(t, b, u)
    ensures Run(s, a + b, u)
  {
    var before :| Passes(before, a) && before[0] == s && before[|a|] == t;
    var after :| Passes(after, b) && after[0] == t && after[|b|] == u;
    JoinPasses(before, a, after, b);
    assert (before + after[1..])[0] == s && (before + after[1..])[|a + b|] == u;
  }
}
