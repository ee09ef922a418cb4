/** Optimistic versions and leases over whole runs: versions rise by one, terminal deliveries are
    frozen, finished attempts are immutable, and a worker whose snapshot is stale has no effect. */
module Fencing {
  import opened Domain
  import opened Cells
  import opened System
  import opened Invariants
  import opened Steps
  import opened Footprints

  /** One step either leaves a delivery alone or is one committed write to it. */
  lemma StepAdvances(s: Sys, step: Step, d: DeliveryId)
    requires Inv(s) && Enabled(s, step) && d in s.cells
    ensures d in Next(s, step).cells
    ensures Next(s, step).cells[d] == s.cells[d] || Advances(s.cells[d], Next(s, step).cells[d])
  {
    StepOk(s, step);
    CellFrame(s, StepEffect(s, step).value, d);
  }

  /** What a run can do to a delivery: nothing, or strictly later versions that keep its identity and
      its finished attempts, and never from a terminal state. */
  ghost predicate LaterCell(before: Cell, after: Cell) {
    && SameIdentity(before.d, after.d)
    && before.d.version <= after.d.version
    && (before.d.version == after.d.version ==> before == after)
    && (Terminal(before.d.state) ==> before == after)
    && before.d.attemptCount <= after.d.attemptCount
    && (forall n :: n in before.attempts ==>
          n in after.attempts
          && (before.attempts[n].outcome != AttemptStarted ==> after.attempts[n] == before.attempts[n]))
  }

  lemma LaterTransitive(a: Cell, b: Cell, c: Cell)
    requires (a == b || Advances(a, b)) && LaterCell(b, c)
    ensures LaterCell(a, c)
  {
  }

  lemma {:induction false} RunFences(s: Sys, steps: seq<Step>, t: Sys, d: DeliveryId)
    requires Inv(s) && Run(s, steps, t) && d in s.cells
    ensures d in t.cells && LaterCell(s.cells[d], t.cells[d])
    decreases |steps|
  {
    if steps != [] {
      FirstStep(s, steps, t);
      StepAdvances(s, steps[0], d);
      StepKeepsInv(s, steps[0]);
      RunFences(Next(s, steps[0]), steps[1..], t, d);
      LaterTransitive(s.cells[d], Next(s, steps[0]).cells[d], t.cells[d]);
    }
  }

  /** The task that takes the step, for the steps of workers on deliveries. */
  function Actor(step: Step): Option<nat> {
    match step
    case Read(r) => Some(r.m)
    case Acquire(l) => Some(l.m)
    case Permit(p) => Some(p.m)
    case Attempted(a) => Some(a.m)
    case Finish(f) => Some(f.m)
    case _ => None
  }

  /** The delivery was written by someone else since the task read or wrote it. */
  predicate Stale(s: Sys, m: nat) {
    AtCell(s, m) && Snapshot(TaskOf(s, m)).Some? && !Fresh(CellOf(s, m), Snapshot(TaskOf(s, m)).value)
  }

  lemma StaleRead(s: Sys, step: ReadStep)
    requires Stale(s, step.m) && ReadEffect(s, step).Some?
    ensures TouchesNothing(ReadEffect(s, step).value)
    ensures ReadEffect(s, step).value.circuit.None? && ReadEffect(s, step).value.rate.None?
  {
  }

  lemma StaleLease(s: Sys, step: LeaseStep)
    requires Stale(s, step.m) && LeaseEffect(s, step).Some?
    ensures TouchesNothing(LeaseEffect(s, step).value)
    ensures LeaseEffect(s, step).value.circuit.None? && LeaseEffect(s, step).value.rate.None?
  {
  }

  lemma StaleAttempt(s: Sys, step: AttemptStep)
    requires Stale(s, step.m) && AttemptEffect(s, step).Some?
    ensures TouchesNothing(AttemptEffect(s, step).value)
    ensures AttemptEffect(s, step).value.circuit.None? && AttemptEffect(s, step).value.rate.None?
  {
  }

  lemma StaleFinish(s: Sys, step: FinishStep)
    requires Stale(s, step.m) && FinishEffect(s, step).Some?
    ensures TouchesNothing(FinishEffect(s, step).value)
    ensures FinishEffect(s, step).value.circuit.None? && FinishEffect(s, step).value.rate.None?
  {
  }

  lemma StalePermit(s: Sys, step: PermitStep)
    requires Stale(s, step.m) && PermitEffect(s, step).Some?
    ensures TouchesNothing(PermitEffect(s, step).value)
    ensures PermitEffect(s, step).value.circuit.Some? ==> step.DoCircuitCommit?
    ensures PermitEffect(s, step).value.rate.Some? ==> step.DoRateCommit?
  {
  }

  /** A stale worker can take steps, but none of them writes; in particular it cannot finalize, so it
      reports nothing to the circuit. The one shared item it may still move is a permit. */
  lemma StaleIsFenced(s: Sys, step: Step, m: nat)
    requires Enabled(s, step) && Actor(step) == Some(m) && Stale(s, m)
    ensures TouchesNothing(StepEffect(s, step).value)
    ensures StepEffect(s, step).value.circuit.Some? ==> step == Permit(DoCircuitCommit(m))
    ensures StepEffect(s, step).value.rate.Some? ==> step == Permit(DoRateCommit(m))
  {
    match step
    case Read(r) => StaleRead(s, r);
    case Acquire(l) => StaleLease(s, l);
    case Permit(p) => StalePermit(s, p);
    case Attempted(a) => StaleAttempt(s, a);
    case Finish(f) => StaleFinish(s, f);
  }

  /** Once stale, always stale: no later version equals the one the snapshot has. */
  lemma StaleForever(s: Sys, steps: seq<Step>, t: Sys, d: DeliveryId, x: Delivery)
    requires Inv(s) && Run(s, steps, t) && d in s.cells && x.version < s.cells[d].d.version
    ensures d in t.cells && x.version < t.cells[d].d.version
  {
    RunFences(s, steps, t, d);
  }

  lemma LimitedLease(s: Sys, step: LeaseStep, d: DeliveryId)
    requires Inv(s) && LeaseEffect(s, step).Some? && d in s.cells && s.cells[d].d.state == RateLimited
    ensures !WritesCell(LeaseEffect(s, step).value, d)
  {
    InvLocal(s, step.m);
  }

  lemma LimitedAttempt(s: Sys, step: AttemptStep, d: DeliveryId)
    requires Inv(s) && AttemptEffect(s, step).Some? && d in s.cells && s.cells[d].d.state == RateLimited
    ensures !WritesCell(AttemptEffect(s, step).value, d)
  {
    InvLocal(s, step.m);
  }

  lemma LimitedFinal(s: Sys, m: nat, n: nat, shard: nat, d: DeliveryId)
    requires Local(s, m) && FinalCommit(s, m, n, shard).Some? && d in s.cells && s.cells[d].d.state == RateLimited
    ensures !WritesCell(FinalCommit(s, m, n, shard).value, d)
  {
    FinalCurrent(s, m);
  }

  lemma LimitedDefer(s: Sys, m: nat, n: nat, d: DeliveryId)
    requires Local(s, m) && DeferCommit(s, m, n).Some? && d in s.cells && s.cells[d].d.state == RateLimited
    ensures !WritesCell(DeferCommit(s, m, n).value, d)
  {
  }

  lemma LimitedFinish(s: Sys, step: FinishStep, d: DeliveryId)
    requires Inv(s) && FinishEffect(s, step).Some? && d in s.cells && s.cells[d].d.state == RateLimited
    ensures !WritesCell(FinishEffect(s, step).value, d)
  {
    InvLocal(s, step.m);
    if step.DoFinalCommit? {
      LimitedFinal(s, step.m, step.n, step.shard, d);
    } else if step.DoDeferCommit? {
      LimitedDefer(s, step.m, step.n, d);
    }
  }

  lemma LimitedRoute(s: Sys, step: RouteStep, d: DeliveryId)
    requires RouteEffect(s, step).Some? && d in s.cells
    ensures !WritesCell(RouteEffect(s, step).value, d)
  {
  }

  lemma LimitedIntake(s: Sys, step: IntakeStep, d: DeliveryId)
    requires CellsInv(s) && IntakeEffect(s, step).Some? && d in s.cells && s.cells[d].d.state == RateLimited
    ensures !WritesCell(IntakeEffect(s, step).value, d)
  {
    assert CellInv(s.cells[d], s.clock);
  }

  predicate WritesCell(e: Effect, d: DeliveryId) {
    e.cell.Some? && e.cell.value.0 == d
  }

  lemma LimitedByOthers(s: Sys, step: Step, d: DeliveryId)
    requires Enabled(s, step) && (step.Queue? || step.Read? || step.Permit? || step.Publish?)
    ensures !WritesCell(StepEffect(s, step).value, d)
  {
    match step
    case Queue(q) => QueueFootprint(s, q);
    case Read(r) => ReadFootprint(s, r);
    case Permit(p) => PermitFootprint(s, p);
    case Publish(p) => PublishFootprint(s, p);
  }

  lemma LimitedByWorkers(s: Sys, step: Step, d: DeliveryId)
    requires Inv(s) && Enabled(s, step) && (step.Acquire? || step.Attempted? || step.Finish?)
    requires d in s.cells && s.cells[d].d.state == RateLimited
    ensures !WritesCell(StepEffect(s, step).value, d)
  {
    match step
    case Acquire(l) => LimitedLease(s, l, d);
    case Attempted(a) => LimitedAttempt(s, a, d);
    case Finish(f) => LimitedFinish(s, f, d);
  }

  lemma LimitedByCreators(s: Sys, step: Step, d: DeliveryId)
    requires CellsInv(s) && Enabled(s, step) && (step.Route? || step.Intake?)
    requires d in s.cells && s.cells[d].d.state == RateLimited
    ensures !WritesCell(StepEffect(s, step).value, d)
  {
    match step
    case Route(r) => LimitedRoute(s, r, d);
    case Intake(i) => LimitedIntake(s, i, d);
  }

  /** No step touches a rate-limited delivery: a lease is refused by the transition table, and everybody else
      who writes deliveries holds a lease or looks for a disabled destination. */
  lemma RateLimitedUntouched(s: Sys, step: Step, d: DeliveryId)
    requires Inv(s) && Enabled(s, step) && d in s.cells && s.cells[d].d.state == RateLimited
    ensures !WritesCell(StepEffect(s, step).value, d)
  {
    if step.Acquire? || step.Attempted? || step.Finish? {
      LimitedByWorkers(s, step, d);
    } else if step.Route? || step.Intake? {
      LimitedByCreators(s, step, d);
    } else {
      LimitedByOthers(s, step, d);
    }
  }

  lemma UnwrittenStays(s: Sys, step: Step, d: DeliveryId)
    requires Enabled(s, step) && d in s.cells && !WritesCell(StepEffect(s, step).value, d)
    ensures d in Next(s, step).cells && Next(s, step).cells[d] == s.cells[d]
  {
  }

  /** A rate-limited delivery stays as it is for ever. */
  lemma {:induction false} RateLimitedIsStuck(s: Sys, steps: seq<Step>, t: Sys, d: DeliveryId)
    requires Inv(s) && Run(s, steps, t) && d in s.cells && s.cells[d].d.state == RateLimited
    ensures d in t.cells && t.cells[d] == s.cells[d]
    decreases |steps|
  {
    if steps != [] {
      FirstStep(s, steps, t);
      RateLimitedUntouched(s, steps[0], d);
      UnwrittenStays(s, steps[0], d);
      StepKeepsInv(s, steps[0]);
      RateLimitedIsStuck(Next(s, steps[0]), steps[1..], t, d);
    }
  }

  /** The attempt ledger of every reachable state. */
  lemma AttemptLedger(s: Sys, steps: seq<Step>, t: Sys, d: DeliveryId, n: nat)
    requires Initial(s) && Run(s, steps, t) && d in t.cells
    ensures n in t.cells[d].attempts <==> 1 <= n <= t.cells[d].d.attemptCount
    ensures t.cells[d].d.attemptCount <= t.cells[d].d.maxAttempts
    ensures n in t.cells[d].attempts && t.cells[d].attempts[n].outcome == AttemptStarted ==>
              && n == t.cells[d].d.attemptCount
              && t.cells[d].d.activeAttempt == Some(t.cells[d].attempts[n].id)
              && t.cells[d].d.state == InProgress
  {
    InitialInv(s);
    RunKeepsInv(s, steps, t);
    assert CellInv(t.cells[d], t.clock);
  }

  /** Backoff over whole runs: an attempt never starts before the one before it was completed and the
      delay drawn then has passed, a delay between half the capped exponential and the maximum. */
  lemma BackoffRespected(s: Sys, steps: seq<Step>, t: Sys, d: DeliveryId, k: nat)
    requires Initial(s) && Run(s, steps, t) && d in t.cells && 1 <= k < t.cells[d].d.attemptCount
    ensures k in t.cells[d].attempts && k + 1 in t.cells[d].attempts
    ensures t.cells[d].attempts[k].completedAt.Some?
    ensures exists delay: real ::
              && DelayInBounds(t.cells[d].d.policy, k, delay)
              && t.cells[d].attempts[k + 1].startedAt
                 >= t.cells[d].attempts[k].completedAt.value + Ceil(1000.0 * delay)
  {
    InitialInv(s);
    RunKeepsInv(s, steps, t);
    assert CellInv(t.cells[d], t.clock);
    assert Spaced(t.cells[d], k);
    assert DelayInBounds(t.cells[d].d.policy, k, t.cells[d].delays[k]);
  }
}
