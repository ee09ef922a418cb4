/** An accepted event is routed in the end: until its routing is complete there is an unsent outbox
    record for it or a message on the queue, and no worker drops that message. */
module Routing {
  import opened Domain
  import opened Cells
  import opened System
  import opened Invariants
  import opened Steps

  /** The record `accept` wrote has not been put on the queue yet. */
  predicate Announced(s: Sys, e: EventId) {
    && RouteRow(e) in s.rows && s.rows[RouteRow(e)].target == ToEvent(e)
    && !s.rows[RouteRow(e)].sent && !s.rows[RouteRow(e)].published
  }

  ghost predicate Queued(s: Sys, e: EventId) {
    exists m :: m in s.msgs && s.msgs[m].target == ToEvent(e)
  }

  ghost predicate EventsAwake(s: Sys) {
    forall e :: e in s.events && !s.events[e].outcome.routingComplete ==> Announced(s, e) || Queued(s, e)
  }

  /** What a step has to respect: only an acknowledged message goes away, a message keeps its target,
      an announcement that is touched is sent, and a new event is announced. */
  ghost predicate Announces(s: Sys, e: Effect) {
    && (e.msg.Some? && e.msg.value.0 in s.msgs ==>
          if e.msg.value.1.None? then s.msgs[e.msg.value.0].place == Held(Acking)
          else e.msg.value.1.value.target == s.msgs[e.msg.value.0].target)
    && (e.row.Some? && e.row.value.0.RouteRow? && Announced(s, e.row.value.0.e) ==>
          Queued(Apply(s, e), e.row.value.0.e))
    && (e.event.Some? && e.event.value.0 !in s.events ==> Announced(Apply(s, e), e.event.value.0))
  }

  lemma KeepEventsAwake(s: Sys, e: Effect)
    requires EventsAwake(s) && TasksInv(s) && EventChangeOk(s, e) && Announces(s, e)
    ensures EventsAwake(Apply(s, e))
  {
    var s' := Apply(s, e);
    forall x | x in s'.events && !s'.events[x].outcome.routingComplete ensures Announced(s', x) || Queued(s', x) {
      if x in s.events {
        if Queued(s, x) {
          var m :| m in s.msgs && s.msgs[m].target == ToEvent(x);
          assert MsgOk(s, s.msgs[m]);
          assert m in s'.msgs && s'.msgs[m].target == ToEvent(x);
        }
      }
    }
  }

  lemma QueueAnnounces(s: Sys, step: QueueStep)
    requires QueueEffect(s, step).Some?
    ensures Announces(s, QueueEffect(s, step).value)
  {
  }

  lemma ReadAnnounces(s: Sys, step: ReadStep)
    requires ReadEffect(s, step).Some?
    ensures Announces(s, ReadEffect(s, step).value)
  {
  }

  lemma LeaseAnnounces(s: Sys, step: LeaseStep)
    requires LeaseEffect(s, step).Some?
    ensures Announces(s, LeaseEffect(s, step).value)
  {
  }

  lemma PermitAnnounces(s: Sys, step: PermitStep)
    requires PermitEffect(s, step).Some?
    ensures Announces(s, PermitEffect(s, step).value)
  {
  }

  lemma AttemptAnnounces(s: Sys, step: AttemptStep)
    requires AttemptEffect(s, step).Some?
    ensures Announces(s, AttemptEffect(s, step).value)
  {
  }

  lemma FinishAnnounces(s: Sys, step: FinishStep)
    requires FinishEffect(s, step).Some?
    ensures Announces(s, FinishEffect(s, step).value)
  {
  }

  lemma PublishAnnounces(s: Sys, step: PublishStep)
    requires PublishEffect(s, step).Some?
    ensures Announces(s, PublishEffect(s, step).value)
  {
    var s' := Apply(s, PublishEffect(s, step).value);
    match step
    case DoSendRow(r, m) => assert m in s'.msgs && s'.msgs[m].target == s.rows[r].target;
    case _ =>
  }

  lemma RouteAnnounces(s: Sys, step: RouteStep)
    requires Inv(s) && RouteEffect(s, step).Some?
    ensures Announces(s, RouteEffect(s, step).value)
  {
    InvLocalEvent(s, step.m);
  }

  lemma IntakeAnnounces(s: Sys, step: IntakeStep)
    requires IntakeEffect(s, step).Some?
    ensures Announces(s, IntakeEffect(s, step).value)
  {
  }

  lemma StepAnnounces(s: Sys, step: Step)
    requires Inv(s) && Enabled(s, step)
    ensures Announces(s, StepEffect(s, step).value)
  {
    match step
    case Queue(q) => QueueAnnounces(s, q);
    case Read(r) => ReadAnnounces(s, r);
    case Acquire(l) => LeaseAnnounces(s, l);
    case Permit(p) => PermitAnnounces(s, p);
    case Attempted(a) => AttemptAnnounces(s, a);
    case Finish(f) => FinishAnnounces(s, f);
    case Publish(p) => PublishAnnounces(s, p);
    case Route(r) => RouteAnnounces(s, r);
    case Intake(i) => IntakeAnnounces(s, i);
  }

  lemma {:induction false} RunKeepsEventsAwake(s: Sys, steps: seq<Step>, t: Sys)
    requires Inv(s) && EventsAwake(s) && Run(s, steps, t)
    ensures EventsAwake(t)
    decreases |steps|
  {
    if steps != [] {
      FirstStep(s, steps, t);
      StepOk(s, steps[0]);
      StepAnnounces(s, steps[0]);
      KeepEventsAwake(s, StepEffect(s, steps[0]).value);
      StepKeepsInv(s, steps[0]);
      RunKeepsEventsAwake(Next(s, steps[0]), steps[1..], t);
    }
  }

  /** No accepted event is forgotten, however publishers and routers crash. */
  lemma NoLostRouting(s: Sys, steps: seq<Step>, t: Sys, e: EventId)
    requires Initial(s) && Run(s, steps, t) && e in t.events && !t.events[e].outcome.routingComplete
    ensures Announced(t, e) || exists m :: m in t.msgs && t.msgs[m].target == ToEvent(e) && t.msgs[m].place != Held(Acking)
  {
    InitialInv(s);
    RunKeepsInv(s, steps, t);
    RunKeepsEventsAwake(s, steps, t);
    if Queued(t, e) {
      var m :| m in t.msgs && t.msgs[m].target == ToEvent(e);
      assert MsgOk(t, t.msgs[m]);
    }
  }
}
