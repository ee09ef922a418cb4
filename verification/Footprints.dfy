/** Which parts of the store the groups of steps can write at all. */
module Footprints {
  import opened Domain
  import opened Cells
  import opened System

  /** The effect leaves deliveries, attempts, events, outbox and rollups alone. */
  predicate TouchesNothing(e: Effect) {
    e.cell.None? && e.event.None? && e.row.None? && e.work.None? && e.rollup.NoRollup?
    && e.accepted.None? && e.replay.None?
  }

  lemma QueueFootprint(s: Sys, step: QueueStep)
    requires QueueEffect(s, step).Some?
    ensures TouchesNothing(QueueEffect(s, step).value) && QueueEffect(s, step).value.send.None?
  {
  }

  lemma ReadFootprint(s: Sys, step: ReadStep)
    requires ReadEffect(s, step).Some?
    ensures TouchesNothing(ReadEffect(s, step).value) && ReadEffect(s, step).value.send.None?
  {
  }

  lemma PermitFootprint(s: Sys, step: PermitStep)
    requires PermitEffect(s, step).Some?
    ensures TouchesNothing(PermitEffect(s, step).value) && PermitEffect(s, step).value.send.None?
  {
  }

  lemma PublishFootprint(s: Sys, step: PublishStep)
    requires PublishEffect(s, step).Some?
    ensures PublishEffect(s, step).value.cell.None? && PublishEffect(s, step).value.event.None?
    ensures PublishEffect(s, step).value.rollup.NoRollup? && PublishEffect(s, step).value.send.None?
    ensures PublishEffect(s, step).value.accepted.None? && PublishEffect(s, step).value.replay.None?
  {
  }

  // ---------------------------------------------------------------- who moves a message

  /** The step is taken by the task that holds message `m`, or on that message. */
  predicate TakenBy(step: Step, m: nat) {
    match step
    case Queue(q) => !q.DoTick? && q.m == m
    case Read(r) => r.m == m
    case Acquire(l) => l.m == m
    case Permit(p) => p.m == m
    case Attempted(a) => a.m == m
    case Finish(f) => f.m == m
    case Route(r) => r.m == m
    case _ => false
  }

  predicate MovesOnly(e: Effect, m: nat) {
    e.msg.Some? ==> e.msg.value.0 == m
  }

  /** No message is changed; one may be new. */
  predicate MovesNone(s: Sys, e: Effect) {
    e.msg.Some? ==> e.msg.value.0 !in s.msgs
  }

  lemma QueueMoves(s: Sys, step: QueueStep)
    requires QueueEffect(s, step).Some?
    ensures if step.DoTick? || step.DoDuplicate? then MovesNone(s, QueueEffect(s, step).value)
            else MovesOnly(QueueEffect(s, step).value, step.m)
  {
  }

  lemma ReadMoves(s: Sys, step: ReadStep)
    requires ReadEffect(s, step).Some?
    ensures MovesOnly(ReadEffect(s, step).value, step.m)
  {
  }

  lemma LeaseMoves(s: Sys, step: LeaseStep)
    requires LeaseEffect(s, step).Some?
    ensures MovesOnly(LeaseEffect(s, step).value, step.m)
  {
  }

  lemma PermitMoves(s: Sys, step: PermitStep)
    requires PermitEffect(s, step).Some?
    ensures MovesOnly(PermitEffect(s, step).value, step.m)
  {
  }

  lemma AttemptMoves(s: Sys, step: AttemptStep)
    requires AttemptEffect(s, step).Some?
    ensures MovesOnly(AttemptEffect(s, step).value, step.m)
  {
  }

  lemma FinishMoves(s: Sys, step: FinishStep)
    requires FinishEffect(s, step).Some?
    ensures MovesOnly(FinishEffect(s, step).value, step.m)
  {
  }

  lemma PublishMoves(s: Sys, step: PublishStep)
    requires PublishEffect(s, step).Some?
    ensures MovesNone(s, PublishEffect(s, step).value)
  {
  }

  lemma RouteMoves(s: Sys, step: RouteStep)
    requires RouteEffect(s, step).Some?
    ensures MovesOnly(RouteEffect(s, step).value, step.m)
  {
  }

  lemma IntakeMoves(s: Sys, step: IntakeStep)
    requires IntakeEffect(s, step).Some?
    ensures IntakeEffect(s, step).value.msg.None?
  {
  }

  /** A message is changed by the steps of its own task and by steps on it, and by no other step. */
  lemma OthersLeaveMessage(s: Sys, step: Step, m: nat)
    requires Enabled(s, step) && m in s.msgs && !TakenBy(step, m)
    ensures m in Next(s, step).msgs && Next(s, step).msgs[m] == s.msgs[m]
  {
    match step
    case Queue(q) => QueueMoves(s, q);
    case Read(r) => ReadMoves(s, r);
    case Acquire(l) => LeaseMoves(s, l);
    case Permit(p) => PermitMoves(s, p);
    case Attempted(a) => AttemptMoves(s, a);
    case Finish(f) => FinishMoves(s, f);
    case Publish(p) => PublishMoves(s, p);
    case Route(r) => RouteMoves(s, r);
    case Intake(i) => IntakeMoves(s, i);
  }
}
