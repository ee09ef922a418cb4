/** No lost wake-up: as long as a delivery is not terminal something will bring it back to a worker,
    namely an outbox record or scheduled work nobody has sent yet, a message on the queue, or a message
    whose holder still acts on the delivery's current version. */
module Wakeup {
  import opened Domain
  import opened Cells
  import opened System
  import opened Invariants
  import opened Steps
  import opened Footprints

  datatype Witness = ByRow(r: RowId) | ByWork(k: RowId) | ByMsg(m: nat)

  /** A worker that reads the delivery now will not take it for someone else's. */
  predicate Open(d: Delivery, clock: Time) {
    d.state == InProgress ==> LeaseExpired(d, clock)
  }

  /** The task will not drop its message before it has written the delivery. */
  predicate TaskCarries(c: Cell, t: Task, clock: Time) {
    match t
    case Received => Open(c.d, clock)
    case Fetched(found) => found.Some? && Fresh(c, found.value) && Open(c.d, clock)
    case Recovering(x, _, _) => Fresh(c, x)
    case Acquiring(x, _, _) => Fresh(c, x) && x.state != InProgress
    case Leased(x, _, _, _) => Fresh(c, x)
    case Attempting(x, _, _, _) => Fresh(c, x)
    case Finalizing(p, _, _) => Fresh(c, p.snap)
    case Deferring(p, _) => Fresh(c, p.snap)
    case _ => false
  }

  predicate PlaceCarries(c: Cell, place: Place, clock: Time) {
    match place
    case Visible => Open(c.d, clock)
    case Stranded(at) => Open(c.d, clock) || (c.d.lease.Some? && at >= c.d.lease.value.expiresAt)
    case Held(t) => TaskCarries(c, t, clock)
  }

  predicate Carries(s: Sys, d: DeliveryId, w: Witness)
    requires d in s.cells
  {
    match w
    case ByRow(r) =>
      r in s.rows && s.rows[r].target == ToDelivery(d) && !s.rows[r].sent && !s.rows[r].published
      && Open(s.cells[d].d, s.clock)
    case ByWork(k) =>
      k in s.work && s.work[k].d == d && !s.work[k].sent && !s.work[k].published && Open(s.cells[d].d, s.clock)
    case ByMsg(m) =>
      m in s.msgs && s.msgs[m].target == ToDelivery(d) && PlaceCarries(s.cells[d], s.msgs[m].place, s.clock)
  }

  ghost predicate Carried(s: Sys, d: DeliveryId)
    requires d in s.cells
  {
    exists w :: Carries(s, d, w)
  }

  ghost predicate Awake(s: Sys) {
    forall d :: d in s.cells && !Terminal(s.cells[d].d.state) ==> Carried(s, d)
  }

  // ---------------------------------------------------------------- frames

  predicate Writes(e: Effect, d: DeliveryId) {
    e.cell.Some? && e.cell.value.0 == d
  }

  predicate Touches(e: Effect, w: Witness) {
    match w
    case ByRow(r) => e.row.Some? && e.row.value.0 == r
    case ByWork(k) => e.work.Some? && e.work.value.0 == k
    case ByMsg(m) => e.msg.Some? && e.msg.value.0 == m
  }

  lemma UntouchedCarries(s: Sys, e: Effect, d: DeliveryId, w: Witness)
    requires d in s.cells && Carries(s, d, w) && s.clock <= e.clock && !Writes(e, d) && !Touches(e, w)
    ensures d in Apply(s, e).cells && Carries(Apply(s, e), d, w)
  {
  }

  /** A delivery that the step writes ends up terminal or carried, and one whose carrier the step
      touches finds another. */
  ghost predicate HandsOver(s: Sys, e: Effect) {
    var s' := Apply(s, e);
    && (e.cell.Some? ==> Terminal(e.cell.value.1.d.state) || Carried(s', e.cell.value.0))
    && (forall d, w ::
          (d in s.cells && !Terminal(s.cells[d].d.state) && Carries(s, d, w) && Touches(e, w) && !Writes(e, d))
          ==> Carried(s', d))
  }

  lemma KeepAwake(s: Sys, e: Effect)
    requires Awake(s) && s.clock <= e.clock && HandsOver(s, e)
    ensures Awake(Apply(s, e))
  {
    var s' := Apply(s, e);
    forall d | d in s'.cells && !Terminal(s'.cells[d].d.state) ensures Carried(s', d) {
      if !Writes(e, d) {
        assert Carried(s, d);
        var w :| Carries(s, d, w);
        if !Touches(e, w) {
          UntouchedCarries(s, e, d, w);
        }
      }
    }
  }

  // ---------------------------------------------------------------- steps of one task

  /** The step moves the message of one delivery, and what carried the delivery before still does. */
  predicate PassesOn(s: Sys, e: Effect, m: nat)
    requires AtCell(s, m)
  {
    && e.cell.None? && e.row.None? && e.work.None? && e.clock == s.clock
    && e.msg.Some? && e.msg.value.0 == m && e.msg.value.1.Some?
    && e.msg.value.1.value.target == s.msgs[m].target
    && (!Terminal(CellOf(s, m).d.state) && PlaceCarries(CellOf(s, m), s.msgs[m].place, s.clock)
        ==> PlaceCarries(CellOf(s, m), e.msg.value.1.value.place, s.clock))
  }

  lemma PassedOn(s: Sys, e: Effect, m: nat)
    requires AtCell(s, m) && PassesOn(s, e, m)
    ensures HandsOver(s, e)
  {
    var s' := Apply(s, e);
    forall d, w | d in s.cells && !Terminal(s.cells[d].d.state) && Carries(s, d, w) && Touches(e, w)
      ensures Carried(s', d)
    {
      assert Carries(s', d, w);
    }
  }

  lemma ReadPasses(s: Sys, step: ReadStep)
    requires Local(s, step.m) && ReadEffect(s, step).Some?
    ensures PassesOn(s, ReadEffect(s, step).value, step.m)
  {
  }

  lemma CircuitPasses(s: Sys, step: PermitStep)
    requires Local(s, step.m) && PermitEffect(s, step).Some?
    requires step.DoCircuitAsk? || step.DoCircuitCommit? || step.DoCircuitLost? || step.DoCircuitExhausted?
    ensures PassesOn(s, PermitEffect(s, step).value, step.m)
  {
  }

  lemma RatePasses(s: Sys, step: PermitStep)
    requires Local(s, step.m) && PermitEffect(s, step).Some?
    requires step.DoRateAsk? || step.DoRateCommit? || step.DoRateLost? || step.DoRateExhausted?
    ensures PassesOn(s, PermitEffect(s, step).value, step.m)
  {
  }

  lemma PermitPasses(s: Sys, step: PermitStep)
    requires Local(s, step.m) && PermitEffect(s, step).Some?
    ensures PassesOn(s, PermitEffect(s, step).value, step.m)
  {
    if step.DoRateAsk? || step.DoRateCommit? || step.DoRateLost? || step.DoRateExhausted? {
      RatePasses(s, step);
    } else {
      CircuitPasses(s, step);
    }
  }

  lemma LeasePasses(s: Sys, step: LeaseStep)
    requires Local(s, step.m) && LeaseEffect(s, step).Some? && !step.DoAcquireCommit?
    ensures PassesOn(s, LeaseEffect(s, step).value, step.m)
  {
  }

  lemma AttemptPasses(s: Sys, step: AttemptStep)
    requires Local(s, step.m) && AttemptEffect(s, step).Some? && !step.DoStartCommit?
    ensures PassesOn(s, AttemptEffect(s, step).value, step.m)
  {
  }

  lemma FinishPasses(s: Sys, step: FinishStep)
    requires Local(s, step.m) && RowsInv(s) && FinishEffect(s, step).Some?
    requires !step.DoFinalCommit? && !step.DoDeferCommit?
    ensures PassesOn(s, FinishEffect(s, step).value, step.m)
  {
  }

  // ---------------------------------------------------------------- commits

  /** The step writes the delivery of its own message, and nothing else changes hands. */
  lemma CommitHandsOver(s: Sys, e: Effect, m: nat, w: Witness)
    requires AtCell(s, m) && e.cell.Some? && e.cell.value.0 == Id(s, m) && e.work.None?
    requires e.msg.Some? ==> e.msg.value.0 == m
    requires e.row.Some? ==> e.row.value.0 !in s.rows
    requires Terminal(e.cell.value.1.d.state) || Carries(Apply(s, e), Id(s, m), w)
    ensures HandsOver(s, e)
  {
  }

  lemma AcquireHandsOver(s: Sys, m: nat)
    requires Local(s, m) && AcquireCommit(s, m).Some?
    ensures HandsOver(s, AcquireCommit(s, m).value)
  {
    CommitHandsOver(s, AcquireCommit(s, m).value, m, ByMsg(m));
  }

  lemma StartHandsOver(s: Sys, m: nat)
    requires Local(s, m) && StartCommit(s, m).Some?
    ensures HandsOver(s, StartCommit(s, m).value)
  {
    CommitHandsOver(s, StartCommit(s, m).value, m, ByMsg(m));
  }

  lemma FinalHandsOver(s: Sys, m: nat, n: nat, shard: nat)
    requires Local(s, m) && FinalCommit(s, m, n, shard).Some?
    ensures HandsOver(s, FinalCommit(s, m, n, shard).value)
  {
    FinalCurrent(s, m);
    var plan := TaskOf(s, m).plan;
    CommitHandsOver(s, FinalCommit(s, m, n, shard).value, m,
                    ByRow(PlanRow(Id(s, m), plan.recovery, plan.snap.version, n)));
  }

  lemma DeferHandsOver(s: Sys, m: nat, n: nat)
    requires Local(s, m) && DeferCommit(s, m, n).Some?
    ensures HandsOver(s, DeferCommit(s, m, n).value)
  {
    var plan := TaskOf(s, m).defer;
    CommitHandsOver(s, DeferCommit(s, m, n).value, m,
                    ByRow(PlanRow(Id(s, m), plan.recovery, plan.snap.version, n)));
  }

  // ---------------------------------------------------------------- groups

  lemma ReadHandsOver(s: Sys, step: ReadStep)
    requires Inv(s) && ReadEffect(s, step).Some?
    ensures HandsOver(s, ReadEffect(s, step).value)
  {
    InvLocal(s, step.m);
    ReadPasses(s, step);
    PassedOn(s, ReadEffect(s, step).value, step.m);
  }

  lemma PermitHandsOver(s: Sys, step: PermitStep)
    requires Inv(s) && PermitEffect(s, step).Some?
    ensures HandsOver(s, PermitEffect(s, step).value)
  {
    InvLocal(s, step.m);
    PermitPasses(s, step);
    PassedOn(s, PermitEffect(s, step).value, step.m);
  }

  lemma LeaseHandsOver(s: Sys, step: LeaseStep)
    requires Inv(s) && LeaseEffect(s, step).Some?
    ensures HandsOver(s, LeaseEffect(s, step).value)
  {
    InvLocal(s, step.m);
    if step.DoAcquireCommit? {
      AcquireHandsOver(s, step.m);
    } else {
      LeasePasses(s, step);
      PassedOn(s, LeaseEffect(s, step).value, step.m);
    }
  }

  lemma AttemptHandsOver(s: Sys, step: AttemptStep)
    requires Inv(s) && AttemptEffect(s, step).Some?
    ensures HandsOver(s, AttemptEffect(s, step).value)
  {
    InvLocal(s, step.m);
    if step.DoStartCommit? {
      StartHandsOver(s, step.m);
    } else {
      AttemptPasses(s, step);
      PassedOn(s, AttemptEffect(s, step).value, step.m);
    }
  }

  lemma FinishHandsOver(s: Sys, step: FinishStep)
    requires Inv(s) && FinishEffect(s, step).Some?
    ensures HandsOver(s, FinishEffect(s, step).value)
  {
    InvLocal(s, step.m);
    if step.DoFinalCommit? {
      FinalHandsOver(s, step.m, step.n, step.shard);
    } else if step.DoDeferCommit? {
      DeferHandsOver(s, step.m, step.n);
    } else {
      FinishPasses(s, step);
      PassedOn(s, FinishEffect(s, step).value, step.m);
    }
  }

  /** Acknowledging a message carries nothing away, a crash strands the message for at least as long as
      the lease it held, and it comes back no earlier. */
  lemma QueueHandsOver(s: Sys, step: QueueStep)
    requires TasksInv(s) && QueueEffect(s, step).Some?
    ensures HandsOver(s, QueueEffect(s, step).value)
  {
    var e := QueueEffect(s, step).value;
    var s' := Apply(s, e);
    forall d, w | d in s.cells && !Terminal(s.cells[d].d.state) && Carries(s, d, w) && Touches(e, w)
      ensures Carried(s', d)
    {
      assert MsgOk(s, s.msgs[w.m]);
      assert Carries(s', d, w);
    }
  }

  /** A record handed to the queue is carried by its message, one handed to the scheduler by its work. */
  lemma PublishHandsOver(s: Sys, step: PublishStep)
    requires PublishEffect(s, step).Some?
    ensures HandsOver(s, PublishEffect(s, step).value)
  {
    var e := PublishEffect(s, step).value;
    var s' := Apply(s, e);
    forall d, w | d in s.cells && !Terminal(s.cells[d].d.state) && Carries(s, d, w) && Touches(e, w)
      ensures Carried(s', d)
    {
      match step
      case DoSendRow(r, m) => assert Carries(s', d, ByMsg(m));
      case DoMaterialize(r) => assert Carries(s', d, ByWork(r));
      case DoSendWork(r, m) => assert Carries(s', d, ByMsg(m));
      case _ =>
    }
  }

  /** Messages of events carry no delivery. */
  lemma EventMessageHandsOver(s: Sys, e: Effect, m: nat)
    requires AtEvent(s, m) && e.cell.None? && e.row.None? && e.work.None?
    requires e.msg.Some? && e.msg.value.0 == m
    ensures HandsOver(s, e)
  {
  }

  lemma RouteCommitHandsOver(s: Sys, m: nat, shard: nat)
    requires LocalEvent(s, m) && RouteCommit(s, m, shard).Some?
    ensures HandsOver(s, RouteCommit(s, m, shard).value)
  {
    var e := RouteCommit(s, m, shard).value;
    if !Terminal(e.cell.value.1.d.state) {
      assert Carries(Apply(s, e), e.cell.value.0, ByRow(InitialRow(e.cell.value.0)));
    }
  }

  lemma RouteHandsOver(s: Sys, step: RouteStep)
    requires Inv(s) && RouteEffect(s, step).Some?
    ensures HandsOver(s, RouteEffect(s, step).value)
  {
    InvLocalEvent(s, step.m);
    match step
    case DoRouteCommit(m, shard) => RouteCommitHandsOver(s, m, shard);
    case _ => EventMessageHandsOver(s, RouteEffect(s, step).value, step.m);
  }

  /** A delivery written from outside gets a new outbox record. */
  lemma AnnouncedHandsOver(s: Sys, e: Effect, r: RowId)
    requires e.cell.Some? && e.msg.None? && e.work.None? && r !in s.rows
    requires e.row.Some? && e.row.value.0 == r && e.row.value.1.target == ToDelivery(e.cell.value.0)
    requires !e.row.value.1.sent && !e.row.value.1.published
    requires Open(e.cell.value.1.d, e.clock)
    ensures HandsOver(s, e)
  {
    assert Carries(Apply(s, e), e.cell.value.0, ByRow(r));
  }

  lemma IntakeHandsOver(s: Sys, step: IntakeStep)
    requires Inv(s) && IntakeEffect(s, step).Some?
    ensures HandsOver(s, IntakeEffect(s, step).value)
  {
    var e := IntakeEffect(s, step).value;
    if e.cell.Some? {
      AnnouncedHandsOver(s, e, e.row.value.0);
    }
  }

  lemma StepHandsOver(s: Sys, step: Step)
    requires Inv(s) && Enabled(s, step)
    ensures HandsOver(s, StepEffect(s, step).value)
  {
    match step
    case Queue(q) => QueueHandsOver(s, q);
    case Read(r) => ReadHandsOver(s, r);
    case Acquire(l) => LeaseHandsOver(s, l);
    case Permit(p) => PermitHandsOver(s, p);
    case Attempted(a) => AttemptHandsOver(s, a);
    case Finish(f) => FinishHandsOver(s, f);
    case Publish(p) => PublishHandsOver(s, p);
    case Route(r) => RouteHandsOver(s, r);
    case Intake(i) => IntakeHandsOver(s, i);
  }

  lemma {:induction false} RunKeepsAwake(s: Sys, steps: seq<Step>, t: Sys)
    requires Inv(s) && Awake(s) && Run(s, steps, t)
    ensures Awake(t)
    decreases |steps|
  {
    if steps != [] {
      FirstStep(s, steps, t);
      StepOk(s, steps[0]);
      StepHandsOver(s, steps[0]);
      KeepAwake(s, StepEffect(s, steps[0]).value);
      StepKeepsInv(s, steps[0]);
      RunKeepsAwake(Next(s, steps[0]), steps[1..], t);
    }
  }

  /** What a witness of `Carried` amounts to for an operator looking at the tables and the queue. */
  predicate VisibleCarrier(s: Sys, d: DeliveryId, w: Witness) {
    match w
    case ByRow(r) => r in s.rows && s.rows[r].target == ToDelivery(d) && !s.rows[r].published
    case ByWork(k) => k in s.work && s.work[k].d == d && !s.work[k].published
    case ByMsg(m) => m in s.msgs && s.msgs[m].target == ToDelivery(d) && s.msgs[m].place != Held(Acking)
  }

  /** In every reachable state each non-terminal delivery has an unpublished outbox record, unpublished
      scheduled work, or a message that is visible, held or in flight; and that carrier will not be
      dropped before it has moved the delivery on. */
  lemma NoLostWakeup(s: Sys, steps: seq<Step>, t: Sys, d: DeliveryId)
    requires Initial(s) && Run(s, steps, t) && d in t.cells && !Terminal(t.cells[d].d.state)
    ensures exists w :: Carries(t, d, w) && VisibleCarrier(t, d, w)
  {
    InitialInv(s);
    RunKeepsAwake(s, steps, t);
    var w :| Carries(t, d, w);
    assert VisibleCarrier(t, d, w);
  }
}
