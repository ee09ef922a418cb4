/** What holds in every reachable state, and that every step keeps it: the snapshots workers hold,
    the cells, the outbox identifiers, and the circuit and rate items. Event accounting, wake-ups,
    partner calls and rollups build on this module. */
module Invariants {
  import opened Domain
  import opened Cells
  import opened System
  import RL = RateLimiter
  import CB = CircuitBreaker

  // ---------------------------------------------------------------- snapshots

  /** `x` is an earlier or the current version of the record in `c`: equal versions mean equal records. */
  ghost predicate SnapOk(c: Cell, x: Delivery) {
    && StateOk(x) && SameIdentity(x, c.d)
    && x.version <= c.d.version && x.attemptCount <= c.d.attemptCount
    && (x.version == c.d.version ==> x == c.d)
  }

  predicate Fresh(c: Cell, x: Delivery) {
    x.version == c.d.version
  }

  predicate EvOk(current: Event, x: Event) {
    x.version <= current.version && (x.version == current.version ==> x == current)
  }

  ghost predicate PermitGood(s: Sys, x: DestinationId, p: CB.CircuitPermit, h: CB.Holder) {
    x in s.policies && CB.PermitOk(s.policies[x].circuit, CircuitOf(s, x).log, p, h)
  }

  ghost predicate ProbeSeen(s: Sys, d: DeliveryId, leased: Delivery, now: Time, seen: CB.Circuit, probe: CB.Circuit) {
    var x := leased.destination;
    && x in s.policies
    && seen.version <= |CircuitOf(s, x).log|
    && seen == CB.CircuitAfter(s.policies[x].circuit, CircuitOf(s, x).log[..seen.version])
    && CB.AskCircuit(seen, s.policies[x].circuit, HolderOf(d, leased), now) == CB.MayProbe(probe)
  }

  ghost predicate RateSeen(s: Sys, x: DestinationId, now: Time, seen: Option<RL.RateState>, tat: Time) {
    && x in s.policies
    && RateVersion(seen) <= |RateOf(s, x).log|
    && RL.ValidLimits(s.policies[x].rate)
    && seen == RL.RateAfter(s.policies[x].rate, RateOf(s, x).log[..RateVersion(seen)])
    && RL.RateLimitDecision(seen, s.policies[x].rate, now) == RL.Granted(tat)
  }

  /** The attempt about to start is not early, provided the lease is still in force. */
  ghost predicate StartDue(c: Cell, a: Attempt) {
    c.d.attemptCount >= 1 && RetryDrawn(c, c.d.attemptCount) ==> a.startedAt >= DueTime(c, c.d.attemptCount)
  }

  ghost predicate PhaseOk(s: Sys, c: Cell, d: DeliveryId, x: Delivery, now: Time, phase: Phase) {
    match phase
    case CircuitTry(seen, probe) => ProbeSeen(s, d, x, now, seen, probe)
    case RateTry(seen, tat) => RateSeen(s, x.destination, now, seen, tat)
    case Starting(a) => a.outcome == AttemptStarted && a.completedAt.None? && (Fresh(c, x) ==> StartDue(c, a))
    case _ => true
  }

  /** The lease a task holds, or has held, before it starts an attempt. */
  ghost predicate LeasedOk(
    s: Sys, c: Cell, d: DeliveryId, x: Delivery, now: Time, permit: Option<CB.CircuitPermit>, phase: Phase)
  {
    && x.state == InProgress && x.activeAttempt.None?
    && (phase.Permitted? || phase.RateTry? || phase.Ready? || phase.Starting? ==> permit.Some?)
    && (permit.Some? ==> PermitGood(s, x.destination, permit.value, HolderOf(d, x)))
    && PhaseOk(s, c, d, x, now, phase)
  }

  ghost predicate AttemptOk(s: Sys, c: Cell, d: DeliveryId, x: Delivery, p: CB.CircuitPermit, a: Attempt) {
    && x.state == InProgress && x.activeAttempt == Some(a.id) && x.version >= 1
    && PermitGood(s, x.destination, p, CB.Holder(d, x.version - 1))
    && (Fresh(c, x) ==> x.attemptCount in c.attempts && c.attempts[x.attemptCount] == a)
  }

  ghost predicate FinalOk(s: Sys, c: Cell, d: DeliveryId, plan: FinalPlan, w: Option<CircuitWrite>, known: Reads) {
    && FinalPlanOk(plan)
    && (Fresh(c, plan.snap) ==>
          plan.snap.attemptCount in c.attempts
          && plan.finished.startedAt == c.attempts[plan.snap.attemptCount].startedAt)
    && (w.Some? ==> PermitGood(s, plan.snap.destination, w.value.permit, CB.Holder(d, plan.snap.version - 1)))
    && (!known.NoReads? ==> SnapOk(c, known.current) && known.current.version >= plan.snap.version)
    && (known.ReadBoth? ==> plan.snap.event in s.events && EvOk(s.events[plan.snap.event], known.ev))
  }

  ghost predicate DeferPlanOk(plan: DeferPlan) {
    && plan.snap.state == InProgress && plan.snap.activeAttempt.None?
    && plan.next.state in {Scheduled, RateLimited}
    && exists at, reason: Option<FailureCategory> ::
         && (reason == Some(DestinationDisabled) ==> plan.next.state == Scheduled)
         && PlanDefer(plan.snap, plan.next.state, at, plan.notBefore, reason, plan.recovery) == Some(plan)
  }

  ghost predicate AcquireOk(s: Sys, x: Delivery, now: Time, leased: Option<Delivery>) {
    if leased.None? then EligibleAt(x, now) && now <= s.clock
    else
      && Leasable(x.state)
      && leased.value.updatedAt <= s.clock && EligibleAt(x, leased.value.updatedAt)
      && leased.value.lease.Some? && leased.value.lease.value.acquiredAt == leased.value.updatedAt
      && LeaseTransition(x, leased.value.lease.value) == leased
  }

  /** The delivery record a task goes by. */
  function Snapshot(t: Task): Option<Delivery> {
    match t
    case Fetched(found) => found
    case Recovering(x, _, _) => Some(x)
    case Acquiring(x, _, _) => Some(x)
    case _ => LeaseSnapshot(t)
  }

  ghost predicate DeliveryTaskOk(s: Sys, d: DeliveryId, t: Task)
    requires d in s.cells
  {
    && !(t.Routing? || t.RouteTry? || t.RouteDone?)
    && (Snapshot(t).Some? ==> SnapOk(s.cells[d], Snapshot(t).value))
    && match t
       case Recovering(x, now, _) => LeaseExpired(x, now) && now <= s.clock
       case Acquiring(x, now, leased) => !Terminal(x.state) && AcquireOk(s, x, now, leased)
       case Leased(x, now, permit, phase) => LeasedOk(s, s.cells[d], d, x, now, permit, phase)
       case Attempting(x, p, a, _) => AttemptOk(s, s.cells[d], d, x, p, a)
       case Finalizing(plan, w, known) => FinalOk(s, s.cells[d], d, plan, w, known)
       case Deferring(plan, read) =>
         && DeferPlanOk(plan)
         && (read.Some? ==> SnapOk(s.cells[d], read.value) && read.value.version >= plan.snap.version)
       case _ => true
  }

  ghost predicate EventTaskOk(s: Sys, e: EventId, t: Task)
    requires e in s.events
  {
    match t
    case Received => true
    case Acking => s.events[e].outcome.routingComplete
    case Routing => true
    case RouteTry(x, ev) => NewOriginal(x, e) && EvOk(s.events[e], ev)
    case RouteDone(ev) => EvOk(s.events[e], ev)
    case _ => false
  }

  /** Carriers only ever point to what exists. */
  predicate TargetOk(s: Sys, target: Target) {
    match target
    case ToDelivery(d) => d in s.cells
    case ToEvent(e) => e in s.events
  }

  ghost predicate TaskOk(s: Sys, target: Target, t: Task)
    requires TargetOk(s, target)
  {
    match target
    case ToDelivery(d) => DeliveryTaskOk(s, d, t)
    case ToEvent(e) => EventTaskOk(s, e, t)
  }

  ghost predicate MsgOk(s: Sys, msg: Msg) {
    TargetOk(s, msg.target) && (msg.place.Held? ==> TaskOk(s, msg.target, msg.place.task))
  }

  // ---------------------------------------------------------------- the invariant

  predicate IdentityOk(id: DeliveryId, d: Delivery) {
    match id
    case OriginalId(e, x) => d.event == e && d.destination == x && d.kind == Original
    case ReplayId(_) => d.kind == ExecutionKind.Replay
  }

  ghost predicate CellsInv(s: Sys) {
    forall d :: d in s.cells ==>
      CellInv(s.cells[d], s.clock) && IdentityOk(d, s.cells[d].d) && s.cells[d].d.event in s.events
  }

  ghost predicate TasksInv(s: Sys) {
    forall m :: m in s.msgs ==> MsgOk(s, s.msgs[m])
  }

  /** A derived outbox identifier names a version that has passed. */
  predicate RowIdOk(s: Sys, r: RowId) {
    match r
    case RouteRow(e) => e in s.events
    case InitialRow(d) => d in s.cells
    case RecoveryRow(d, v) => d in s.cells && v < s.cells[d].d.version
    case ResumeRow(d, v) => d in s.cells && v < s.cells[d].d.version
    case Generated(_) => true
  }

  ghost predicate RowsInv(s: Sys) {
    && (forall r :: r in s.rows ==> RowIdOk(s, r) && TargetOk(s, s.rows[r].target))
    && (forall r :: r in s.work ==> s.work[r].d in s.cells)
  }

  ghost predicate CircuitsInv(s: Sys) {
    forall x :: x in s.circuits ==>
      && x in s.policies
      && CB.CircuitChain(s.policies[x].circuit, s.circuits[x].log)
      && s.circuits[x].item == CB.CircuitAfter(s.policies[x].circuit, s.circuits[x].log)
  }

  ghost predicate RatesInv(s: Sys) {
    forall x :: x in s.rates ==>
      && x in s.policies && RL.ValidLimits(s.policies[x].rate)
      && RL.RateChain(s.policies[x].rate, s.rates[x].log)
      && s.rates[x].item == RL.RateAfter(s.policies[x].rate, s.rates[x].log)
  }

  ghost predicate PoliciesInv(s: Sys) {
    forall x :: x in s.policies ==>
      RL.ValidLimits(s.policies[x].rate) && CB.ValidCircuitPolicy(s.policies[x].circuit)
  }

  ghost predicate Inv(s: Sys) {
    PoliciesInv(s) && CellsInv(s) && TasksInv(s) && RowsInv(s) && CircuitsInv(s) && RatesInv(s)
  }

  // ---------------------------------------------------------------- what effects may do

  ghost predicate CellChangeOk(s: Sys, e: Effect) {
    e.cell.Some? ==>
      var (d, c) := e.cell.value;
      && CellInv(c, e.clock)
      && IdentityOk(d, c.d)
      && c.d.event in Apply(s, e).events
      && (d in s.cells ==> Advances(s.cells[d], c))
  }

  predicate EventChangeOk(s: Sys, e: Effect) {
    e.event.Some? ==>
      var (x, ev) := e.event.value;
      x in s.events ==>
        && ev.version == s.events[x].version + 1
        && (s.events[x].outcome.routingComplete ==> ev.outcome.routingComplete)
  }

  ghost predicate CircuitChangeOk(s: Sys, e: Effect) {
    e.circuit.Some? ==>
      var (x, r) := e.circuit.value;
      && x in s.policies
      && |r.log| == |CircuitOf(s, x).log| + 1 && CircuitOf(s, x).log <= r.log
      && CB.CircuitChain(s.policies[x].circuit, r.log)
      && r.item == CB.CircuitAfter(s.policies[x].circuit, r.log)
  }

  ghost predicate RateChangeOk(s: Sys, e: Effect) {
    e.rate.Some? ==>
      var (x, r) := e.rate.value;
      && x in s.policies && RL.ValidLimits(s.policies[x].rate)
      && |r.log| == |RateOf(s, x).log| + 1 && RateOf(s, x).log <= r.log
      && RL.RateChain(s.policies[x].rate, r.log)
      && r.item == RL.RateAfter(s.policies[x].rate, r.log)
  }

  ghost predicate MsgChangeOk(s: Sys, e: Effect) {
    e.msg.Some? && e.msg.value.1.Some? ==> MsgOk(Apply(s, e), e.msg.value.1.value)
  }

  ghost predicate RowChangeOk(s: Sys, e: Effect) {
    && (e.row.Some? ==> RowIdOk(Apply(s, e), e.row.value.0) && TargetOk(Apply(s, e), e.row.value.1.target))
    && (e.work.Some? ==> e.work.value.1.d in Apply(s, e).cells)
  }

  /** The parts other tasks can notice. */
  ghost predicate StoreOk(s: Sys, e: Effect) {
    && s.clock <= e.clock
    && CellChangeOk(s, e) && EventChangeOk(s, e) && CircuitChangeOk(s, e) && RateChangeOk(s, e)
  }

  ghost predicate EffectOk(s: Sys, e: Effect) {
    StoreOk(s, e) && MsgChangeOk(s, e) && RowChangeOk(s, e)
  }

  // ---------------------------------------------------------------- frames

  lemma SnapFrame(c: Cell, c': Cell, x: Delivery)
    requires SnapOk(c, x) && (c' == c || Advances(c, c'))
    ensures SnapOk(c', x)
    ensures Fresh(c', x) ==> c' == c
  {
  }

  lemma PermitFrame(s: Sys, e: Effect, x: DestinationId, p: CB.CircuitPermit, h: CB.Holder)
    requires StoreOk(s, e) && PermitGood(s, x, p, h)
    ensures PermitGood(Apply(s, e), x, p, h)
  {
    var log, log' := CircuitOf(s, x).log, CircuitOf(Apply(s, e), x).log;
    if log != log' {
      CB.PermitStable(s.policies[x].circuit, log, log'[|log|], p, h);
      assert log' == log + [log'[|log|]];
    }
  }

  lemma ProbeFrame(s: Sys, e: Effect, d: DeliveryId, leased: Delivery, now: Time, seen: CB.Circuit, probe: CB.Circuit)
    requires StoreOk(s, e) && ProbeSeen(s, d, leased, now, seen, probe)
    ensures ProbeSeen(Apply(s, e), d, leased, now, seen, probe)
  {
    var log, log' := CircuitOf(s, leased.destination).log, CircuitOf(Apply(s, e), leased.destination).log;
    assert log <= log';
    assert log'[..seen.version] == log[..seen.version];
  }

  lemma RateFrame(s: Sys, e: Effect, x: DestinationId, now: Time, seen: Option<RL.RateState>, tat: Time)
    requires StoreOk(s, e) && RateSeen(s, x, now, seen, tat)
    ensures RateSeen(Apply(s, e), x, now, seen, tat)
  {
    var log, log' := RateOf(s, x).log, RateOf(Apply(s, e), x).log;
    assert log <= log';
    assert log'[..RateVersion(seen)] == log[..RateVersion(seen)];
  }

  lemma CellFrame(s: Sys, e: Effect, d: DeliveryId)
    requires StoreOk(s, e) && d in s.cells
    ensures d in Apply(s, e).cells
    ensures Apply(s, e).cells[d] == s.cells[d] || Advances(s.cells[d], Apply(s, e).cells[d])
  {
  }

  lemma EventFrame(s: Sys, e: Effect, x: EventId, ev: Event)
    requires StoreOk(s, e) && x in s.events && EvOk(s.events[x], ev)
    ensures x in Apply(s, e).events && EvOk(Apply(s, e).events[x], ev)
  {
  }

  /** Whatever other steps do, a task's snapshots stay what they are: earlier versions. */
  lemma DeliveryTaskFrame(s: Sys, e: Effect, d: DeliveryId, t: Task)
    requires StoreOk(s, e) && d in s.cells && DeliveryTaskOk(s, d, t)
    ensures d in Apply(s, e).cells && DeliveryTaskOk(Apply(s, e), d, t)
  {
    CellFrame(s, e, d);
    var c, c' := s.cells[d], Apply(s, e).cells[d];
    if Snapshot(t).Some? {
      SnapFrame(c, c', Snapshot(t).value);
    }
    match t
    case Leased(x, now, permit, phase) =>
      if permit.Some? { PermitFrame(s, e, x.destination, permit.value, HolderOf(d, x)); }
      if phase.CircuitTry? { ProbeFrame(s, e, d, x, now, phase.seen, phase.probe); }
      if phase.RateTry? { RateFrame(s, e, x.destination, now, phase.rate, phase.tat); }
    case Attempting(x, p, a, _) => PermitFrame(s, e, x.destination, p, CB.Holder(d, x.version - 1));
    case Finalizing(plan, w, known) =>
      if w.Some? { PermitFrame(s, e, plan.snap.destination, w.value.permit, CB.Holder(d, plan.snap.version - 1)); }
      if !known.NoReads? { SnapFrame(c, c', known.current); }
      if known.ReadBoth? { EventFrame(s, e, plan.snap.event, known.ev); }
    case Deferring(plan, read) =>
      if read.Some? { SnapFrame(c, c', read.value); }
    case _ =>
  }

  lemma TaskFrame(s: Sys, e: Effect, target: Target, t: Task)
    requires StoreOk(s, e) && TargetOk(s, target) && TaskOk(s, target, t)
    ensures TargetOk(Apply(s, e), target) && TaskOk(Apply(s, e), target, t)
  {
    match target
    case ToDelivery(d) => DeliveryTaskFrame(s, e, d, t);
    case ToEvent(x) =>
  }

  // ---------------------------------------------------------------- effects keep the invariant

  lemma KeepCells(s: Sys, e: Effect)
    requires CellsInv(s) && StoreOk(s, e)
    ensures CellsInv(Apply(s, e))
  {
    var s' := Apply(s, e);
    forall d | d in s'.cells
      ensures CellInv(s'.cells[d], s'.clock) && IdentityOk(d, s'.cells[d].d) && s'.cells[d].d.event in s'.events
    {
      if d in s.cells && s'.cells[d] == s.cells[d] {
        LaterClock(s.cells[d], s.clock, s'.clock);
      }
    }
  }

  lemma KeepTasks(s: Sys, e: Effect)
    requires TasksInv(s) && StoreOk(s, e) && MsgChangeOk(s, e)
    ensures TasksInv(Apply(s, e))
  {
    var s' := Apply(s, e);
    forall m | m in s'.msgs ensures MsgOk(s', s'.msgs[m]) {
      if m in s.msgs && s'.msgs[m] == s.msgs[m] && s.msgs[m].place.Held? {
        TaskFrame(s, e, s.msgs[m].target, s.msgs[m].place.task);
      }
    }
  }

  lemma KeepRows(s: Sys, e: Effect)
    requires RowsInv(s) && StoreOk(s, e) && RowChangeOk(s, e)
    ensures RowsInv(Apply(s, e))
  {
    var s' := Apply(s, e);
    forall r | r in s'.rows ensures RowIdOk(s', r) && TargetOk(s', s'.rows[r].target) {
      if r in s.rows && s'.rows[r] == s.rows[r] {
        assert RowIdOk(s, r) && TargetOk(s, s.rows[r].target);
      }
    }
  }

  lemma KeepInv(s: Sys, e: Effect)
    requires Inv(s) && EffectOk(s, e)
    ensures Inv(Apply(s, e))
  {
    KeepCells(s, e);
    KeepTasks(s, e);
    KeepRows(s, e);
  }
}
