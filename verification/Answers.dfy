/** What the repository answers: for every conditional transaction exactly when it commits and what it then
    leaves, in terms of what is stored and what the caller has read. */
module Answers {
  import opened Domain
  import opened Cells
  import opened System
  import opened Invariants
  import opened Steps
  import opened Accounting
  import CB = CircuitBreaker
  import RL = RateLimiter
  import RO = Rollups

  // ---------------------------------------------------------------- acquireLease

  predicate Due(d: Delivery, clock: Time) {
    d.nextEligibleAt.None? || d.nextEligibleAt.value <= clock
  }

  /** The record of a lease that the caller asks for at this instant. */
  predicate LeasedFrom(d: Delivery, r: Delivery, owner: nat, token: LeaseToken, clock: Time, expires: Time) {
    && r.state == InProgress && r.version == d.version + 1 && r.updatedAt == clock
    && r.lease == Some(Lease(owner, token, clock, expires))
    && r.nextEligibleAt.None? && r.blockedReason.None? && r.terminalAt.None? && r.lastFailure == d.lastFailure
    && r.attemptCount == d.attemptCount && r.activeAttempt == d.activeAttempt && SameIdentity(d, r)
  }

  /** A scheduled delivery and one waiting for its retry are leased if the caller knows the current record and
      it is due. A rate-limited one in that position makes the call throw. In every other case the message is
      acknowledged. */
  lemma AcquireReadIsExact(s: Sys, m: nat, token: LeaseToken, owner: nat)
    requires Local(s, m) && TaskOf(s, m).Acquiring? && TaskOf(s, m).leased.None?
    ensures var d, t, e := CellOf(s, m).d, TaskOf(s, m), AcquireFetch(s, m, token, owner);
            var known := d.version == t.snap.version && Due(d, s.clock);
            if known && (d.state == Scheduled || d.state == RetryScheduled) then
              exists r :: e == Some(Move(s, m, Acquiring(d, t.now, Some(r))))
                          && LeasedFrom(d, r, owner, token, s.clock, t.now + t.snap.timeoutMs + 5000)
            else if known && d.state == RateLimited then e.None?
            else e == Some(Move(s, m, Acking))
  {
    var d, t := CellOf(s, m).d, TaskOf(s, m);
    var lease := Lease(owner, token, s.clock, t.now + t.snap.timeoutMs + 5000);
    TransitionIsExact(d, Transition(InProgress, s.clock, d.version, None, None, None, Some(lease)));
    var r := LeaseTransition(d, lease);
    if r.Some? {
      assert LeasedFrom(d, r.value, owner, token, s.clock, t.now + t.snap.timeoutMs + 5000);
    }
  }

  /** The record that is granted. */
  lemma AcquireGrants(s: Sys, m: nat, token: LeaseToken, owner: nat) returns (r: Delivery)
    requires Local(s, m) && TaskOf(s, m).Acquiring? && TaskOf(s, m).leased.None?
    requires CellOf(s, m).d.version == TaskOf(s, m).snap.version && Due(CellOf(s, m).d, s.clock)
    requires CellOf(s, m).d.state == Scheduled || CellOf(s, m).d.state == RetryScheduled
    ensures var t, d := TaskOf(s, m), CellOf(s, m).d;
            && LeasedFrom(d, r, owner, token, s.clock, t.now + t.snap.timeoutMs + 5000)
            && AcquireFetch(s, m, token, owner) == Some(Move(s, m, Acquiring(d, t.now, Some(r))))
  {
    var t, d := TaskOf(s, m), CellOf(s, m).d;
    AcquireReadIsExact(s, m, token, owner);
    r :| AcquireFetch(s, m, token, owner) == Some(Move(s, m, Acquiring(d, t.now, Some(r))))
         && LeasedFrom(d, r, owner, token, s.clock, t.now + t.snap.timeoutMs + 5000);
  }

  /** The lease is committed exactly when nobody has written the delivery in between and the instant is another. */
  lemma AcquireCommitIsExact(s: Sys, m: nat)
    requires Local(s, m) && TaskOf(s, m).Acquiring? && TaskOf(s, m).leased.Some?
    ensures var t := TaskOf(s, m);
            AcquireCommit(s, m).Some?
            <==> CellOf(s, m).d.version == t.snap.version && t.leased.value.updatedAt != t.snap.updatedAt
    ensures AcquireCommit(s, m).Some? ==>
              var e := AcquireCommit(s, m).value;
              && e.cell.Some? && e.cell.value.0 == Id(s, m)
              && e.cell.value.1.d == TaskOf(s, m).leased.value && e.cell.value.1.attempts == CellOf(s, m).attempts
              && IndexMoved(CellOf(s, m).index, CellOf(s, m).d, e.cell.value.1.d, e.cell.value.1.index)
              && e == Move(s, m, Leased(TaskOf(s, m).leased.value, TaskOf(s, m).now, None, Holding)).(cell := e.cell)
  {
    var t := TaskOf(s, m);
    if t.snap.version == CellOf(s, m).d.version {
      assert t.snap == CellOf(s, m).d;
      IndexIsMoved(CellOf(s, m).index, CellOf(s, m).d, t.leased.value);
      TransitionIsExact(t.snap, Transition(InProgress, t.leased.value.lease.value.acquiredAt, t.snap.version, None, None,
                                           None, t.leased.value.lease));
    }
  }

  // ---------------------------------------------------------------- giving a lease back

  /** The record of a lease given back. */
  predicate GivenBack(d: Delivery, r: Delivery, to: DeliveryState, at: Time, due: Time, reason: Option<FailureCategory>) {
    && r.state == to && r.version == d.version + 1 && r.updatedAt == at
    && r.nextEligibleAt == Some(due) && r.blockedReason == reason && r.lease.None? && r.terminalAt.None?
    && r.lastFailure == (if reason.Some? then reason else d.lastFailure)
    && r.attemptCount == d.attemptCount && r.activeAttempt == d.activeAttempt && SameIdentity(d, r)
  }

  /** A lease can always be given back, to be taken again at a time or to be counted as rate-limited. */
  lemma GiveBackIsExact(s: Sys, m: nat, to: DeliveryState, at: Time, reason: FailureCategory)
    requires Local(s, m) && TaskOf(s, m).Leased? && (to == Scheduled || to == RateLimited)
    ensures var t, e := TaskOf(s, m), GiveBack(s, m, to, at, reason);
            exists r :: GivenBack(t.snap, r, to, t.now, at, Some(reason))
                        && e == Some(Move(s, m, Deferring(DeferPlan(t.snap, r, at, false), None)))
  {
    var t := TaskOf(s, m);
    var change := Transition(to, t.now, t.snap.version, t.snap.Token(), Some(at), Some(reason), None);
    TransitionIsExact(t.snap, change);
    assert GivenBack(t.snap, TransitionDelivery(t.snap, change).value, to, t.now, at, Some(reason));
  }

  /** What the worker does when the destination is off, or when its eight rounds have run out. */
  lemma RefusalsGiveBack(s: Sys, m: nat)
    requires Local(s, m) && TaskOf(s, m).Leased?
    ensures TaskOf(s, m).phase == Holding ==>
              && DestinationOff(s, m) == GiveBack(s, m, Scheduled, TaskOf(s, m).now + 300000, DestinationDisabled)
              && CircuitExhausted(s, m)
                 == GiveBack(s, m, Scheduled, TaskOf(s, m).now + 5000, FailureCategory.CircuitOpen)
    ensures TaskOf(s, m).phase == Permitted ==>
              RateExhausted(s, m) == GiveBack(s, m, RateLimited, TaskOf(s, m).now + 5000, RateLimitFailure)
  {
  }

  /** It is given back exactly when nobody has written the delivery in between, the instant is another, and the
      row to be written along is not there. */
  lemma DeferCommitIsExact(s: Sys, m: nat, n: nat)
    requires Local(s, m) && InDefer(s, m)
    ensures var plan, read, d := TaskOf(s, m).defer, TaskOf(s, m).read.value, Id(s, m);
            var row := if plan.recovery then RecoveryRow(d, plan.snap.version) else Generated(n);
            && (DeferCommit(s, m, n).Some?
                <==> && CellOf(s, m).d.version == plan.snap.version && read.updatedAt != plan.next.updatedAt
                     && row !in s.rows)
            && (DeferCommit(s, m, n).Some? ==>
                  var e := DeferCommit(s, m, n).value;
                  && e.cell.Some? && e.cell.value.0 == d && e.cell.value.1.d == plan.next
                  && e.cell.value.1.attempts == CellOf(s, m).attempts
                  && IndexMoved(CellOf(s, m).index, CellOf(s, m).d, plan.next, e.cell.value.1.index)
                  && e.row == Some((row, OutboxRow(ToDelivery(d), Some(plan.notBefore), false, false)))
                  && e == Move(s, m, Acking).(cell := e.cell, row := e.row))
  {
    IndexIsMoved(CellOf(s, m).index, CellOf(s, m).d, TaskOf(s, m).defer.next);
  }

  // ---------------------------------------------------------------- startAttempt

  /** An attempt is started exactly while the lease is the current one. */
  lemma StartIsExact(s: Sys, m: nat)
    requires Local(s, m) && InStarting(s, m)
    ensures StartCommit(s, m).Some? <==> CellOf(s, m).d.version == TaskOf(s, m).snap.version
    ensures StartCommit(s, m).Some? ==>
              var e, x, a := StartCommit(s, m).value, TaskOf(s, m).snap, TaskOf(s, m).phase.attempt;
              && e.cell.Some? && e.cell.value.0 == Id(s, m)
              && var c := e.cell.value.1;
                 && c.d == x.(attemptCount := x.attemptCount + 1, activeAttempt := Some(a.id),
                              version := x.version + 1, updatedAt := a.startedAt)
                 && c.attempts == CellOf(s, m).attempts[x.attemptCount + 1 := a] && c.index == CellOf(s, m).index
                 && e == Move(s, m, Attempting(c.d, TaskOf(s, m).permit.value, a, false)).(cell := e.cell)
  {
    assert CellInv(CellOf(s, m), s.clock);
  }

  // ---------------------------------------------------------------- finalizeAttempt

  /** The counters of an event leave room for one more terminal delivery as long as one is not terminal. */
  lemma RoomForTerminal(s: Sys, e: EventId, d: DeliveryId, to: DeliveryState)
    requires Exact(s) && e in s.events && d in s.cells && Matches(s.cells[d].d, e, AnyState)
    requires !Terminal(s.cells[d].d.state) && (to == Succeeded || to == FailedTerminal || to == DeadLettered)
    ensures NextEvent(s.events[e], CountTerminal(s.events[e].outcome, to)).Some?
  {
    assert EventExact(s, e);
    var all, done := Ids(s.cells, e, AnyState), Ids(s.cells, e, AnyTerminal);
    assert done <= all - {d};
    SubsetSize(done, all - {d});
    StatusIsExact(s.events[e].outcome, s.events[e].status);
    StatusIsExact(CountTerminal(s.events[e].outcome, to), Processing);
  }

  lemma FinalCellIsExact(s: Sys, m: nat)
    requires Local(s, m) && InFinal(s, m)
    ensures var t := TaskOf(s, m);
            CommitFinal(CellOf(s, m), t.plan, t.known.current).Some?
            <==> CellOf(s, m).d.version == t.plan.snap.version && t.plan.final.updatedAt != t.plan.snap.updatedAt
  {
    if CellOf(s, m).d.version == TaskOf(s, m).plan.snap.version {
      FinalCurrent(s, m);
      assert CellInv(CellOf(s, m), s.clock);
    }
  }

  /** What a finalization demands of the items besides the delivery. */
  predicate FinalItemsCurrent(s: Sys, m: nat, n: nat)
    requires InFinal(s, m)
  {
    var t, d := TaskOf(s, m), Id(s, m);
    var plan := t.plan;
    var row := if plan.recovery then RecoveryRow(d, plan.snap.version) else Generated(n);
    && (Terminal(plan.final.state) && plan.final.kind == Original ==>
          plan.snap.event in s.events && s.events[plan.snap.event].version == t.known.ev.version)
    && (t.write.Some? ==> CircuitOf(s, plan.snap.destination).item.version == t.write.value.permit.state.version)
    && (plan.notBefore.Some? ==> row !in s.rows)
  }

  lemma FinalFacts(s: Sys, m: nat)
    requires Local(s, m) && InFinal(s, m) && CellOf(s, m).d.version == TaskOf(s, m).plan.snap.version
    ensures var t, x := TaskOf(s, m), CellOf(s, m).d;
            && t.plan.snap == x && x.event in s.events && EvOk(s.events[x.event], t.known.ev)
            && x.state == InProgress && t.plan.final.kind == x.kind
            && t.plan.final.state in {Succeeded, FailedTerminal, DeadLettered, RetryScheduled}
  {
    FinalCurrent(s, m);
  }

  lemma FinalRoom(s: Sys, m: nat)
    requires Local(s, m) && Exact(s) && InFinal(s, m) && CellOf(s, m).d.version == TaskOf(s, m).plan.snap.version
    ensures var t := TaskOf(s, m);
            t.plan.snap.event in s.events
            && (UpdatesEvent(t.plan.final) && s.events[t.plan.snap.event].version == t.known.ev.version ==>
                  NextEvent(t.known.ev, CountTerminal(t.known.ev.outcome, t.plan.final.state)).Some?)
  {
    FinalFacts(s, m);
    CountsRoom(s, Id(s, m), TaskOf(s, m).plan.final, TaskOf(s, m).known.ev);
  }

  lemma CountsRoom(s: Sys, d: DeliveryId, final: Delivery, ev: Event)
    requires Exact(s) && d in s.cells && s.cells[d].d.event in s.events && s.cells[d].d.state == InProgress
    requires EvOk(s.events[s.cells[d].d.event], ev) && final.kind == s.cells[d].d.kind
    requires final.state in {Succeeded, FailedTerminal, DeadLettered, RetryScheduled}
    ensures UpdatesEvent(final) && s.events[s.cells[d].d.event].version == ev.version ==>
              NextEvent(ev, CountTerminal(ev.outcome, final.state)).Some?
  {
    if UpdatesEvent(final) && s.events[s.cells[d].d.event].version == ev.version {
      RoomForTerminal(s, s.cells[d].d.event, d, final.state);
    }
  }

  lemma FinalPolicy(s: Sys, m: nat)
    requires Local(s, m) && InFinal(s, m) && TaskOf(s, m).write.Some?
    ensures TaskOf(s, m).plan.snap.destination in s.policies
  {
  }

  lemma FinalGuardsAreExact(s: Sys, m: nat, n: nat)
    requires Local(s, m) && Exact(s) && InFinal(s, m) && CellOf(s, m).d.version == TaskOf(s, m).plan.snap.version
    ensures var t := TaskOf(s, m);
            FinalGuards(s, Id(s, m), t.plan, t.write, t.known.ev, n) <==> FinalItemsCurrent(s, m, n)
  {
    FinalRoom(s, m);
    if TaskOf(s, m).write.Some? {
      FinalPolicy(s, m);
    }
    FinalGuardsAre(s, m, n);
  }

  lemma FinalGuardsAre(s: Sys, m: nat, n: nat)
    requires InFinal(s, m) && TaskOf(s, m).plan.snap.event in s.events
    requires TaskOf(s, m).write.Some? ==> TaskOf(s, m).plan.snap.destination in s.policies
    requires var t := TaskOf(s, m);
             UpdatesEvent(t.plan.final) && s.events[t.plan.snap.event].version == t.known.ev.version ==>
               NextEvent(t.known.ev, CountTerminal(t.known.ev.outcome, t.plan.final.state)).Some?
    ensures var t := TaskOf(s, m);
            FinalGuards(s, Id(s, m), t.plan, t.write, t.known.ev, n) <==> FinalItemsCurrent(s, m, n)
  {
  }

  /** The conditions of a finalization, and nothing more: the snapshot is the current record, the instant is
      another, the circuit has the version of the permit, the event that is counted has not changed since it was
      read, and the row to be written along is not there. */
  lemma FinalIsExact(s: Sys, m: nat, n: nat, shard: nat)
    requires Local(s, m) && Exact(s) && InFinal(s, m)
    ensures var plan := TaskOf(s, m).plan;
            FinalCommit(s, m, n, shard).Some?
            <==> && CellOf(s, m).d.version == plan.snap.version && plan.final.updatedAt != plan.snap.updatedAt
                 && FinalItemsCurrent(s, m, n)
  {
    FinalCellIsExact(s, m);
    if CellOf(s, m).d.version == TaskOf(s, m).plan.snap.version {
      FinalGuardsAreExact(s, m, n);
    }
  }

  /** What a rollup update says, counter by counter. */
  ghost predicate Counts(
    r: RollupChange, at: Time, shard: nat, x: DestinationId, kind: ExecutionKind, state: DeliveryState, a: Attempt)
  {
    && r.Record? && r.u.shard == shard && r.u.destination == x
    && 3_600_000 * r.u.hour <= at < 3_600_000 * (r.u.hour + 1)
    && forall f :: RO.Get(r.u.delta, f)
         == RO.Contribution(f, kind, state, a.outcome == AttemptSucceeded, a.outcome == AttemptFailed, a.durationMs)
  }

  /** The counters of an event after one more of its deliveries has ended. */
  predicate CountedOnce(before: Outcome, after: Outcome, state: DeliveryState) {
    && after.routingComplete == before.routingComplete && after.total == before.total
    && after.terminal == before.terminal + 1
    && after.succeeded == before.succeeded + (if state == Succeeded then 1 else 0)
    && after.failed == before.failed + (if state == FailedTerminal then 1 else 0)
    && after.deadLettered == before.deadLettered + (if state == DeadLettered then 1 else 0)
  }

  lemma FinalCountsAre(plan: FinalPlan, shard: nat, completed: Time)
    requires plan.finished.completedAt == Some(completed)
    ensures Counts(Record(FinalUpdate(plan, shard)), completed, shard, plan.final.destination, plan.final.kind,
                   plan.final.state, plan.finished)
  {
    var u := FinalUpdate(plan, shard);
    RO.HourContains(completed, u.hour);
    forall f
      ensures RO.Get(u.delta, f)
              == RO.Contribution(f, plan.final.kind, plan.final.state, plan.finished.outcome == AttemptSucceeded,
                                 plan.finished.outcome == AttemptFailed, plan.finished.durationMs)
    {
      RO.AttemptDeltaMeans(f, plan.final.kind, plan.final.state, plan.finished.outcome == AttemptSucceeded,
                           plan.finished.outcome == AttemptFailed, plan.finished.durationMs);
    }
  }

  /** What a committed finalization writes besides the circuit: the planned record, the finished attempt, the moved
      index, the planned row, the event if it counts, and the rollup of the hour of completion. */
  lemma FinalWrites(s: Sys, m: nat, n: nat, shard: nat)
    requires Local(s, m) && FinalCommit(s, m, n, shard).Some?
    ensures var e, t, c := FinalCommit(s, m, n, shard).value, TaskOf(s, m), CellOf(s, m);
            var plan := t.plan;
            && e.cell.Some? && e.cell.value.0 == Id(s, m)
            && e.cell.value.1.d == plan.final
            && e.cell.value.1.attempts == c.attempts[plan.snap.attemptCount := plan.finished]
            && IndexMoved(c.index, c.d, plan.final, e.cell.value.1.index)
            && (e.row.Some? <==> plan.notBefore.Some?)
            && (e.row.Some? ==>
                  && e.row.value.1 == OutboxRow(ToDelivery(Id(s, m)), plan.notBefore, false, false)
                  && e.row.value.0 == if plan.recovery then RecoveryRow(Id(s, m), plan.snap.version) else Generated(n))
            && (e.event.Some? <==> plan.final.kind == Original && plan.final.state in {Succeeded, FailedTerminal, DeadLettered})
            && (e.event.Some? ==>
                  e.event.value.0 == plan.snap.event && CountedOnce(t.known.ev.outcome, e.event.value.1.outcome, plan.final.state))
            && Counts(e.rollup, plan.finished.completedAt.value, shard, plan.final.destination, plan.final.kind,
                      plan.final.state, plan.finished)
            && (e.circuit.Some? <==> t.write.Some?) && e.rate.None? && e.send.None?
            && e.accepted.None? && e.replay.None? && e.work.None?
  {
    FinalCurrent(s, m);
    var plan := TaskOf(s, m).plan;
    IndexIsMoved(CellOf(s, m).index, CellOf(s, m).d, plan.final);
    FinalCountsAre(plan, shard, plan.finished.completedAt.value);
  }

  // ---------------------------------------------------------------- createDelivery and completeRouting

  lemma RoomForCreated(s: Sys, e: EventId, to: DeliveryState)
    requires Exact(s) && e in s.events && (to == Scheduled || to == FailedTerminal)
    ensures NextEvent(s.events[e], CountCreated(s.events[e].outcome, to)).Some?
  {
    assert EventExact(s, e);
    StatusIsExact(s.events[e].outcome, s.events[e].status);
    StatusIsExact(CountCreated(s.events[e].outcome, to), Processing);
  }

  /** A delivery as it is first stored: never attempted, and within its limits. */
  predicate Built(x: Delivery, kind: ExecutionKind, e: EventId) {
    && x.event == e && x.kind == kind && x.version == 1
    && x.attemptCount == 0 && x.activeAttempt == None && x.lease == None
    && x.maxAttempts > 0 && x.policy.initialDelaySeconds > 0.0 && x.policy.multiplier > 0.0 && x.policy.maxDelaySeconds > 0.0
  }

  /** The event counts one more delivery, and one that has failed if its transformation has. */
  predicate CountedNew(before: Outcome, after: Outcome, failed: bool) {
    && after.total == before.total + 1 && after.routingComplete == before.routingComplete
    && after.terminal == before.terminal + (if failed then 1 else 0)
    && after.failed == before.failed + (if failed then 1 else 0)
    && after.succeeded == before.succeeded && after.deadLettered == before.deadLettered
  }

  /** A delivery is created exactly when it is not there and the event has not changed since it was read. It is
      announced if it is scheduled; otherwise it has failed and counts as a failure of its hour. */
  lemma CreateIsExact(s: Sys, m: nat, shard: nat)
    requires LocalEvent(s, m) && Exact(s) && RowsInv(s) && TaskOf(s, m).RouteTry?
    ensures var x, ev := TaskOf(s, m).created, TaskOf(s, m).ev;
            && (RouteCommit(s, m, shard).Some?
                <==> OriginalId(x.event, x.destination) !in s.cells && s.events[x.event].version == ev.version)
            && (RouteCommit(s, m, shard).Some? ==>
                  var e, d := RouteCommit(s, m, shard).value, OriginalId(x.event, x.destination);
                  && e.cell == Some((d, NewCell(x)))
                  && e.event.Some? && e.event.value.0 == x.event
                  && CountedNew(ev.outcome, e.event.value.1.outcome, x.state == FailedTerminal)
                  && (x.state == Scheduled ==>
                        e.rollup == NoRollup
                        && e.row == Some((InitialRow(d), OutboxRow(ToDelivery(d), None, false, false))))
                  && (x.state != Scheduled ==> e.row.None? && CountsFailure(e.rollup, x.updatedAt, shard, x.destination))
                  && e == Move(s, m, Routing).(cell := e.cell, event := e.event, row := e.row, rollup := e.rollup))
  {
    var x, ev := TaskOf(s, m).created, TaskOf(s, m).ev;
    var d := OriginalId(x.event, x.destination);
    if InitialRow(d) in s.rows {
      assert RowIdOk(s, InitialRow(d));
    }
    if s.events[x.event].version == ev.version {
      RoomForCreated(s, x.event, x.state);
    }
    FailureCounts(x.updatedAt, shard, x.destination);
  }

  ghost predicate CountsFailure(r: RollupChange, at: Time, shard: nat, destination: DestinationId) {
    && r.Record? && r.u.shard == shard && r.u.destination == destination
    && 3_600_000 * r.u.hour <= at < 3_600_000 * (r.u.hour + 1)
    && forall f :: RO.Get(r.u.delta, f) == if f == RO.DeliveryFailures then 1 else 0
  }

  lemma FailureCounts(at: Time, shard: nat, destination: DestinationId)
    ensures CountsFailure(Record(RO.Update(RO.HourOf(at), shard, destination, RO.RoutingDelta(FailedTerminal))), at, shard,
                          destination)
  {
    RO.HourContains(at, RO.HourOf(at));
    forall f ensures RO.Get(RO.RoutingDelta(FailedTerminal), f) == if f == RO.DeliveryFailures then 1 else 0 {
      RO.OtherDeltasMean(FailedTerminal, f);
    }
  }

  lemma RoomForComplete(s: Sys, e: EventId)
    requires Exact(s) && e in s.events
    ensures NextEvent(s.events[e], s.events[e].outcome.(routingComplete := true)).Some?
  {
    assert EventExact(s, e);
    StatusIsExact(s.events[e].outcome, s.events[e].status);
    StatusIsExact(s.events[e].outcome.(routingComplete := true), Processing);
  }

  /** Routing is completed exactly when the event has not changed since it was read. */
  lemma CompleteIsExact(s: Sys, m: nat)
    requires LocalEvent(s, m) && Exact(s) && TaskOf(s, m).RouteDone?
    ensures CompleteCommit(s, m).Some? <==> s.events[s.msgs[m].target.e].version == TaskOf(s, m).ev.version
    ensures CompleteCommit(s, m).Some? ==>
              var e := CompleteCommit(s, m).value;
              && e.event.Some? && e.event.value.0 == s.msgs[m].target.e
              && e.event.value.1.outcome == TaskOf(s, m).ev.outcome.(routingComplete := true)
  {
    RoomForComplete(s, s.msgs[m].target.e);
  }

  // ---------------------------------------------------------------- deliver, up to the lease

  /** What a worker does with the record it has read, at the instant it looks at its clock. */
  lemma BranchIsExact(s: Sys, m: nat)
    requires AtDelivery(s, m) && TaskOf(s, m).Fetched?
    ensures var found, e := TaskOf(s, m).found, Branch(s, m);
            if found.None? || found.value.state in {Succeeded, FailedTerminal, DeadLettered, Cancelled} then
              e == Some(Move(s, m, Acking))
            else if found.value.state == InProgress && found.value.lease.Some?
                    && found.value.lease.value.expiresAt <= s.clock then
              e == Some(Move(s, m, Recovering(found.value, s.clock, false)))
            else if Due(found.value, s.clock) then
              e == Some(Move(s, m, Acquiring(found.value, s.clock, None)))
            else e == Some(Quiet(s).(msg := Some((m, Some(Msg(s.msgs[m].target, Visible))))))
  {
  }

  /** Recovery goes on exactly if the lease of the stored record had run out when the worker looked. */
  lemma RecoverFetchIsExact(s: Sys, m: nat)
    requires AtCell(s, m) && TaskOf(s, m).Recovering? && !TaskOf(s, m).inside
    ensures var x, now, e := CellOf(s, m).d, TaskOf(s, m).now, RecoverFetch(s, m);
            if x.state == InProgress && x.lease.Some? && x.lease.value.expiresAt <= now
            then e == Some(Move(s, m, Recovering(x, now, true)))
            else e == Some(Move(s, m, Acking))
  {
  }

  /** A lease without an attempt is given back at once, and one with an attempt is finished as a timeout; if the
      stored attempt is not the active one any more, recovery leaves it alone. */
  lemma RecoverInspectIsExact(s: Sys, m: nat, random: real)
    requires Local(s, m) && TaskOf(s, m).Recovering? && TaskOf(s, m).inside
    ensures var x, now, attempts, e := TaskOf(s, m).snap, TaskOf(s, m).now, CellOf(s, m).attempts, RecoverInspect(s, m, random);
            if x.activeAttempt.None? then
              exists r :: GivenBack(x, r, Scheduled, now, now, None)
                          && e == Some(Move(s, m, Deferring(DeferPlan(x, r, now, true), None)))
            else if x.attemptCount in attempts && attempts[x.attemptCount].id == x.activeAttempt.value then
              PlanTimeout(x, attempts[x.attemptCount], now, random).Some?
              && e == Some(Move(s, m, Finalizing(PlanTimeout(x, attempts[x.attemptCount], now, random).value, None, NoReads)))
            else e == Some(Move(s, m, Acking))
  {
    var x, now := TaskOf(s, m).snap, TaskOf(s, m).now;
    if x.activeAttempt.None? {
      var change := Transition(Scheduled, now, x.version, x.Token(), Some(now), None, None);
      TransitionIsExact(x, change);
      assert GivenBack(x, TransitionDelivery(x, change).value, Scheduled, now, now, None);
    } else if x.attemptCount in CellOf(s, m).attempts && CellOf(s, m).attempts[x.attemptCount].id == x.activeAttempt.value {
      PlanTimeoutOk(x, CellOf(s, m).attempts[x.attemptCount], now, random);
    }
  }

  // ---------------------------------------------------------------- deliver, up to the attempt

  /** What the circuit's answer leads to: on to the rate limiter, back until the circuit may be asked again, or to
      the write of a probe. The answer is the one of the committed history. */
  lemma CircuitAskIsExact(s: Sys, m: nat)
    requires Local(s, m) && TaskOf(s, m).Leased? && TaskOf(s, m).phase == Holding
    requires TaskOf(s, m).snap.destination in s.policies && DestinationOk(s, TaskOf(s, m).snap.destination)
    ensures var t, e := TaskOf(s, m), CircuitAsk(s, m);
            var x := t.snap.destination;
            var p, log := s.policies[x].circuit, CircuitOf(s, x).log;
            if CB.CountedFailures(log) < p.threshold then
              e == Some(Move(s, m, Leased(t.snap, t.now, Some(CB.CircuitPermit(CircuitOf(s, x).item, false)), Permitted)))
            else
              && CB.Deciding(log).Some?
              && var until := CB.BlocksUntil(p, CB.Deciding(log).value);
                 if t.now < until then e == GiveBack(s, m, Scheduled, until, FailureCategory.CircuitOpen)
                 else exists probe :: e == Some(Move(s, m, Leased(t.snap, t.now, t.permit, CircuitTry(CircuitOf(s, x).item, probe))))
                                      && probe.probeOwner == Some(CB.Holder(Id(s, m), t.snap.version))
                                      && probe.probeExpiresAt == Some(t.now + p.probeLeaseMs)
  {
    var t := TaskOf(s, m);
    var x := t.snap.destination;
    CB.AskFromHistory(s.policies[x].circuit, CircuitOf(s, x).log, CB.Holder(Id(s, m), t.snap.version), t.now);
  }

  /** A probe is committed exactly while the circuit is the one that was read. */
  lemma CircuitCommitIsExact(s: Sys, m: nat)
    requires AtCell(s, m) && TaskOf(s, m).Leased? && TaskOf(s, m).phase.CircuitTry?
    ensures var t, e := TaskOf(s, m), CircuitCommit(s, m);
            var x := t.snap.destination;
            && (e.Some? <==> CircuitOf(s, x).item.version == t.phase.seen.version)
            && (e.Some? ==>
                  && e.value.circuit
                     == Some((x, CircuitRecord(t.phase.probe, CircuitOf(s, x).log
                                                              + [CB.Probe(CB.Holder(Id(s, m), t.snap.version), t.now)])))
                  && e.value == Move(s, m, Leased(t.snap, t.now, Some(CB.CircuitPermit(t.phase.probe, true)), Permitted)).(
                                  circuit := e.value.circuit))
  {
  }

  /** What the rate limiter's answer leads to. */
  lemma RateAskIsExact(s: Sys, m: nat)
    requires AtCell(s, m) && TaskOf(s, m).Leased? && TaskOf(s, m).phase == Permitted
    requires TaskOf(s, m).snap.destination in s.policies
    ensures var t, e := TaskOf(s, m), RateAsk(s, m);
            var item, g := RateOf(s, t.snap.destination).item, s.policies[t.snap.destination].rate;
            match RL.RateLimitDecision(item, g, t.now)
            case Granted(tat) => e == Some(Move(s, m, Leased(t.snap, t.now, t.permit, RateTry(item, tat))))
            case Denied(at) => e == GiveBack(s, m, RateLimited, at, RateLimitFailure)
  {
  }

  /** A permit is committed exactly while the item is the one that was read. */
  lemma RateCommitIsExact(s: Sys, m: nat)
    requires Local(s, m) && TaskOf(s, m).Leased? && TaskOf(s, m).phase.RateTry?
    requires DestinationOk(s, TaskOf(s, m).snap.destination)
    ensures var t, e := TaskOf(s, m), RateCommit(s, m);
            var x := t.snap.destination;
            && (e.Some? <==> RateVersion(RateOf(s, x).item) == RateVersion(t.phase.rate))
            && (e.Some? ==>
                  && e.value.rate
                     == Some((x, RateRecord(Some(RL.RateState(t.phase.tat, RateVersion(t.phase.rate) + 1)),
                                            RateOf(s, x).log + [RL.Permit(m, t.now)])))
                  && e.value == Move(s, m, Leased(t.snap, t.now, t.permit, Ready)).(rate := e.value.rate))
  {
    var x := TaskOf(s, m).snap.destination;
    RL.ChainVersion(s.policies[x].rate, RateOf(s, x).log);
  }

  /** The attempt a worker starts, the call it makes, and the finalization it goes into with the answer. */
  lemma AttemptIsExact(s: Sys, m: nat, id: AttemptId, response: Response, random: real, retryAfter: Option<real>)
    requires Local(s, m)
    ensures TaskOf(s, m).Leased? && TaskOf(s, m).phase == Ready ==>
              var t := TaskOf(s, m);
              Prepare(s, m, id)
              == Some(Move(s, m, Leased(t.snap, t.now, t.permit, Starting(Attempt(id, s.clock, None, 0, AttemptStarted, None)))))
    ensures TaskOf(s, m).Attempting? ==>
              var t := TaskOf(s, m);
              && Send(s, m) == (if t.sent then None
                                else Some(Move(s, m, Attempting(t.snap, t.granted, t.attempt, true)).(
                                            send := Some((Id(s, m), t.snap.attemptCount)))))
              && var r := ClassifyDeliveryResult(response);
                 var plan := PlanResult(t.snap, t.attempt, s.clock, r, random, retryAfter);
                 && plan.Some?
                 && Respond(s, m, response, random, retryAfter)
                    == if !t.sent && response.Status? then None
                       else Some(Move(s, m, Finalizing(
                         plan.value, Some(CircuitWrite(t.granted, r.success, r.countsTowardCircuit, s.clock)), NoReads)))
  {
    if TaskOf(s, m).Attempting? {
      PlanResultOk(TaskOf(s, m).snap, TaskOf(s, m).attempt, s.clock, response, random, retryAfter);
    }
  }

  // ---------------------------------------------------------------- requests from outside

  /** An event is accepted exactly when neither it nor its producer key is there. */
  lemma AcceptIsExact(s: Sys, e: EventId, k: AcceptKey, hash: nat, shard: nat)
    requires RowsInv(s)
    ensures var r := AcceptEvent(s, e, k, hash, shard);
            && (r.Some? <==> e !in s.events && k !in s.accepted)
            && (r.Some? ==>
                  && r.value.accepted == Some((k, AcceptEntry(hash, e)))
                  && r.value.event == Some((e, Event(Outcome(false, 0, 0, 0, 0, 0), Accepted, 1)))
                  && r.value.row == Some((RouteRow(e), OutboxRow(ToEvent(e), None, false, false)))
                  && r.value.rollup.Accept? && r.value.rollup.shard == shard
                  && 3_600_000 * r.value.rollup.hour <= s.clock < 3_600_000 * (r.value.rollup.hour + 1)
                  && r.value.cell.None? && r.value.msg.None?)
  {
    if RouteRow(e) in s.rows {
      assert RowIdOk(s, RouteRow(e));
    }
    RO.HourContains(s.clock, RO.HourOf(s.clock));
  }

  /** A delivery is resumed exactly when it waits for its disabled destination and the instant is another: it is
      then due at once, for no reason, and announced. */
  lemma ResumeIsExact(s: Sys, d: DeliveryId, now: Time)
    requires CellsInv(s) && RowsInv(s) && d in s.cells && now <= s.clock
    ensures var x, e := s.cells[d].d, Resume(s, d, now);
            && (e.Some? <==> x.state == Scheduled && x.blockedReason == Some(DestinationDisabled) && x.updatedAt != now)
            && (e.Some? ==>
                  && e.value.cell.Some? && e.value.cell.value.0 == d
                  && GivenBack(x, e.value.cell.value.1.d, Scheduled, now, now, None)
                  && e.value.cell.value.1.attempts == s.cells[d].attempts
                  && IndexMoved(s.cells[d].index, x, e.value.cell.value.1.d, e.value.cell.value.1.index)
                  && e.value.row.Some? && e.value.row.value.1 == OutboxRow(ToDelivery(d), None, false, false)
                  && e.value.event.None? && e.value.msg.None?)
  {
    var x := s.cells[d].d;
    assert CellInv(s.cells[d], s.clock);
    assert forall r :: r in s.rows ==> RowIdOk(s, r);
    TransitionIsExact(x, Transition(Scheduled, now, x.version, None, Some(now), None, None));
    if ResumeTransition(x, now).Some? {
      IndexIsMoved(s.cells[d].index, x, ResumeTransition(x, now).value);
    }
  }

  /** A replay is created exactly when the original may be replayed and neither the key nor the identifiers are
      taken. */
  lemma ReplayCreatedIsExact(
    s: Sys, original: DeliveryId, corrected: bool, id: nat, x: Delivery, key: nat, hash: nat, n: nat, shard: nat)
    requires original in s.cells && x.destination == s.cells[original].d.destination
    requires Built(x, ExecutionKind.Replay, s.cells[original].d.event)
    requires x.state == Scheduled && x.nextEligibleAt.Some? && x.blockedReason == None
    ensures var o, r := s.cells[original].d, CreateReplay(s, original, corrected, id, x, key, hash, n, shard);
            && (r.Some?
                <==> && key !in s.replays && ReplayId(id) !in s.cells && Generated(n) !in s.rows
                     && ReplayEligible(o.state, o.lastFailure, corrected))
            && (r.Some? ==>
                  && r.value.replay == Some((key, ReplayEntry(hash, ReplayId(id))))
                  && r.value.cell == Some((ReplayId(id), NewCell(x)))
                  && r.value.row == Some((Generated(n), OutboxRow(ToDelivery(ReplayId(id)), None, false, false)))
                  && r.value.rollup.Record? && r.value.rollup.u.shard == shard && r.value.rollup.u.destination == x.destination
                  && 3_600_000 * r.value.rollup.u.hour <= s.clock < 3_600_000 * (r.value.rollup.u.hour + 1)
                  && (forall f :: RO.Get(r.value.rollup.u.delta, f) == if f == RO.ReplaysRequested then 1 else 0)
                  && r.value.event.None? && r.value.msg.None?)
  {
    RO.HourContains(s.clock, RO.HourOf(s.clock));
    forall f ensures RO.Get(RO.ReplayDelta(), f) == if f == RO.ReplaysRequested then 1 else 0 {
      RO.OtherDeltasMean(x.state, f);
    }
  }

  // ---------------------------------------------------------------- outbox and scheduled work

  /** A record is marked only after it has been sent; one that is due more than 15 minutes ahead is not sent but
      turned into scheduled work, which is sent when it is due. */
  lemma PublishingIsExact(s: Sys, r: RowId, m: nat)
    ensures MarkRow(s, r).Some? <==> r in s.rows && s.rows[r].sent
    ensures MarkRow(s, r).Some? ==> MarkRow(s, r).value.row == Some((r, s.rows[r].(published := true)))
    ensures MarkWork(s, r).Some? <==> r in s.work && s.work[r].sent
    ensures MarkWork(s, r).Some? ==> MarkWork(s, r).value.work == Some((r, s.work[r].(published := true)))
    ensures r in s.rows ==>
              var row := s.rows[r];
              var late := row.schedule.Some? && row.schedule.value > s.clock + 900_000;
              && (SendRow(s, r, m).Some? <==> m !in s.msgs && !late)
              && (SendRow(s, r, m).Some? ==>
                    && SendRow(s, r, m).value.msg == Some((m, Some(Msg(row.target, Visible))))
                    && SendRow(s, r, m).value.row == Some((r, row.(sent := true))))
              && (Materialize(s, r).Some? <==> late && row.target.ToDelivery? && r !in s.work)
              && (Materialize(s, r).Some? ==>
                    && Materialize(s, r).value.work == Some((r, Work(row.target.d, row.schedule.value, false, false)))
                    && Materialize(s, r).value.row == Some((r, row.(published := true))))
    ensures r in s.work ==>
              && (SendWork(s, r, m).Some? <==> m !in s.msgs && s.work[r].notBefore <= s.clock)
              && (SendWork(s, r, m).Some? ==>
                    && SendWork(s, r, m).value.msg == Some((m, Some(Msg(ToDelivery(s.work[r].d), Visible))))
                    && SendWork(s, r, m).value.work == Some((r, s.work[r].(sent := true))))
  {
  }

  /** The turns of a router: look up the event, go through its destinations, complete the routing, and start over
      after a lost race. */
  lemma RouterIsExact(s: Sys, m: nat, x: Delivery)
    requires AtEvent(s, m) && s.msgs[m].target.e in s.events
    ensures var t, ev := TaskOf(s, m), s.events[s.msgs[m].target.e];
            && (t.Routing? && OriginalId(x.event, x.destination) !in s.cells && Built(x, Original, s.msgs[m].target.e)
                && ((x.state == Scheduled && x.nextEligibleAt.Some? && x.blockedReason == None)
                    || (x.state == FailedTerminal && x.blockedReason == Some(TransformationError)))
                ==> RouteRead(s, m, x) == Some(Move(s, m, RouteTry(x, ev))))
            && (t.Received? ==> RouteFetch(s, m) == Some(Move(s, m, Routing)))
            && (t.Routing? ==>
                  CompleteRead(s, m) == Some(Move(s, m, if ev.outcome.routingComplete then Acking else RouteDone(ev))))
            && (t.RouteTry? || t.RouteDone? ==> RouteRetry(s, m) == Some(Move(s, m, Routing)))
  {
  }

  // ---------------------------------------------------------------- lost races

  /** A write of a delivery is lost exactly when somebody else has written it, or the row it needs; then the call is
      over and the message acknowledged. A lost write of another item starts the loop over, and so does a worker's
      lost finalization. */
  lemma LostIsExact(s: Sys, m: nat)
    requires Local(s, m)
    ensures var t, version, over := TaskOf(s, m), CellOf(s, m).d.version, Some(Move(s, m, Acking));
            && (t.Acquiring? && t.leased.Some? ==>
                  AcquireLost(s, m) == if version == t.snap.version then None else over)
            && (t.Leased? && t.phase.Starting? && t.permit.Some? ==>
                  StartLost(s, m) == if version == t.snap.version then None else over)
            && (t.Deferring? && t.read.Some? ==>
                  var plan := t.defer;
                  DeferLost(s, m) == if version != plan.snap.version
                                        || (plan.recovery && RecoveryRow(Id(s, m), plan.snap.version) in s.rows)
                                     then over else None)
            && (t.Finalizing? && t.known.ReadBoth? ==>
                  && FinalRetry(s, m) == Some(Move(s, m, Finalizing(t.plan, t.write, NoReads)))
                  && FinalGiveUp(s, m) == if t.plan.recovery && version != t.plan.snap.version then over else None)
            && (t.Leased? && t.phase.CircuitTry? ==>
                  CircuitLost(s, m) == Some(Move(s, m, Leased(t.snap, t.now, t.permit, Holding))))
            && (t.Leased? && t.phase.RateTry? ==>
                  RateLost(s, m) == Some(Move(s, m, Leased(t.snap, t.now, t.permit, Permitted))))
  {
    assert CellInv(CellOf(s, m), s.clock);
  }

  // ---------------------------------------------------------------- the queue

  /** A visible message is received; one that is held is acknowledged when its task is done, and may be dropped by its
      holder at any time: it comes back when the lease that was held, if any, has run out. */
  lemma QueueIsExact(s: Sys, m: nat)
    requires m in s.msgs
    ensures match s.msgs[m].place
            case Visible => Receive(s, m) == Some(Move(s, m, Received))
            case Stranded(at) =>
              Return(s, m) == if s.clock < at then None
                              else Some(Quiet(s).(msg := Some((m, Some(Msg(s.msgs[m].target, Visible))))))
            case Held(t) =>
              && Ack(s, m) == (if t == Acking then Some(Quiet(s).(msg := Some((m, None)))) else None)
              && Crash(s, m).Some?
    ensures forall copy :: copy !in s.msgs ==>
              Duplicate(s, m, copy) == Some(Quiet(s).(msg := Some((copy, Some(Msg(s.msgs[m].target, Visible))))))
  {
  }

  function LeaseExpiry(x: Delivery): Option<Time> {
    if x.lease.Some? then Some(x.lease.value.expiresAt) else None
  }

  lemma CrashIsExact(s: Sys, m: nat)
    requires Local(s, m)
    ensures exists at ::
              && Crash(s, m) == Some(Quiet(s).(msg := Some((m, Some(Msg(s.msgs[m].target, Stranded(at)))))))
              && match TaskOf(s, m)
                 case Leased(x, _, _, _) => Some(at) == LeaseExpiry(x)
                 case Attempting(x, _, _, _) => Some(at) == LeaseExpiry(x)
                 case Finalizing(plan, _, _) => Some(at) == LeaseExpiry(plan.snap)
                 case Deferring(plan, _) => Some(at) == LeaseExpiry(plan.snap)
                 case _ => at == s.clock
  {
    var at := LeaseEnd(TaskOf(s, m), s.clock);
    assert Crash(s, m) == Some(Quiet(s).(msg := Some((m, Some(Msg(s.msgs[m].target, Stranded(at)))))));
  }
}
