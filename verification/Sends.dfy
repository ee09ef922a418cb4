/** Calls to partners: over a whole run a delivery's attempt is sent at most once, hence a delivery is
    sent at most `maxAttempts` times, whatever workers crash, are recovered or come back late. */
module Sends {
  import opened Domain
  import opened Cells
  import opened System
  import opened Invariants
  import opened Steps
  import opened Fencing

  /** The worker has started an attempt and has not called the partner for it yet. */
  predicate MayCall(msg: Msg) {
    msg.target.ToDelivery? && msg.place.Held? && msg.place.task.Attempting? && !msg.place.task.sent
  }

  /** The attempt it may call for. */
  function Ticket(msg: Msg): (DeliveryId, nat)
    requires MayCall(msg)
  {
    (msg.target.d, msg.place.task.snap.attemptCount)
  }

  ghost predicate NoRepeats(sends: seq<(DeliveryId, nat)>) {
    forall i, j :: 0 <= i < j < |sends| ==> sends[i] != sends[j]
  }

  ghost predicate SendsInv(s: Sys) {
    && NoRepeats(s.sends)
    && (forall p :: p in s.sends ==> p.0 in s.cells && 1 <= p.1 <= s.cells[p.0].d.attemptCount)
    && (forall m :: m in s.msgs && MayCall(s.msgs[m]) ==> Ticket(s.msgs[m]) !in s.sends)
    && (forall m, k ::
          (m in s.msgs && k in s.msgs && m != k && MayCall(s.msgs[m]) && MayCall(s.msgs[k]))
          ==> Ticket(s.msgs[m]) != Ticket(s.msgs[k]))
  }

  // ---------------------------------------------------------------- what steps do

  /** Neither a call nor a new permission to call. */
  predicate Silent(e: Effect) {
    e.send.None? && (e.msg.Some? && e.msg.value.1.Some? ==> !MayCall(e.msg.value.1.value))
  }

  /** A call uses up the ticket of the task that makes it; a new ticket is for the attempt just started. */
  predicate CallsOk(s: Sys, e: Effect) {
    || Silent(e)
    || (&& e.msg.Some? && e.msg.value.0 in s.msgs && e.msg.value.1.Some?
        && (if e.send.Some? then
              && MayCall(s.msgs[e.msg.value.0]) && !MayCall(e.msg.value.1.value)
              && e.send.value == Ticket(s.msgs[e.msg.value.0]) && e.cell.None?
              && e.send.value.0 in s.cells && 1 <= e.send.value.1 <= s.cells[e.send.value.0].d.attemptCount
            else
              && MayCall(e.msg.value.1.value)
              && Ticket(e.msg.value.1.value).0 in s.cells
              && Ticket(e.msg.value.1.value).1 == s.cells[Ticket(e.msg.value.1.value).0].d.attemptCount + 1))
  }

  predicate Growing(s: Sys, s': Sys) {
    forall d :: d in s.cells ==> d in s'.cells && s.cells[d].d.attemptCount <= s'.cells[d].d.attemptCount
  }

  lemma CellsGrow(s: Sys, e: Effect)
    requires CellChangeOk(s, e)
    ensures Growing(s, Apply(s, e))
  {
  }

  lemma KeepSilent(s: Sys, e: Effect)
    requires SendsInv(s) && Growing(s, Apply(s, e)) && Silent(e)
    ensures SendsInv(Apply(s, e))
  {
  }

  /** The ticket of an attempt that has just been started is newer than any other. */
  lemma NewTicket(s: Sys, ticket: (DeliveryId, nat))
    requires SendsInv(s) && TasksInv(s)
    requires ticket.0 in s.cells && ticket.1 == s.cells[ticket.0].d.attemptCount + 1
    ensures ticket !in s.sends
    ensures forall m :: m in s.msgs && MayCall(s.msgs[m]) ==> Ticket(s.msgs[m]) != ticket
  {
    forall m | m in s.msgs && MayCall(s.msgs[m]) ensures Ticket(s.msgs[m]) != ticket {
      assert MsgOk(s, s.msgs[m]);
    }
  }

  lemma KeepSends(s: Sys, e: Effect)
    requires SendsInv(s) && TasksInv(s) && CellChangeOk(s, e) && CallsOk(s, e)
    ensures SendsInv(Apply(s, e))
  {
    CellsGrow(s, e);
    if Silent(e) {
      KeepSilent(s, e);
    } else if e.send.None? {
      NewTicket(s, Ticket(e.msg.value.1.value));
    }
  }

  lemma QueueSilent(s: Sys, step: QueueStep)
    requires QueueEffect(s, step).Some?
    ensures Silent(QueueEffect(s, step).value)
  {
  }

  lemma ReadSilent(s: Sys, step: ReadStep)
    requires ReadEffect(s, step).Some?
    ensures Silent(ReadEffect(s, step).value)
  {
  }

  lemma LeaseSilent(s: Sys, step: LeaseStep)
    requires LeaseEffect(s, step).Some?
    ensures Silent(LeaseEffect(s, step).value)
  {
  }

  lemma PermitSilent(s: Sys, step: PermitStep)
    requires PermitEffect(s, step).Some?
    ensures Silent(PermitEffect(s, step).value)
  {
  }

  lemma FinishSilent(s: Sys, step: FinishStep)
    requires FinishEffect(s, step).Some?
    ensures Silent(FinishEffect(s, step).value)
  {
  }

  lemma PublishSilent(s: Sys, step: PublishStep)
    requires PublishEffect(s, step).Some?
    ensures Silent(PublishEffect(s, step).value)
  {
  }

  lemma RouteSilent(s: Sys, step: RouteStep)
    requires RouteEffect(s, step).Some?
    ensures Silent(RouteEffect(s, step).value)
  {
  }

  lemma IntakeSilent(s: Sys, step: IntakeStep)
    requires IntakeEffect(s, step).Some?
    ensures Silent(IntakeEffect(s, step).value)
  {
  }

  lemma AttemptCalls(s: Sys, step: AttemptStep)
    requires Local(s, step.m) && AttemptEffect(s, step).Some?
    ensures CallsOk(s, AttemptEffect(s, step).value)
  {
  }

  lemma StepCalls(s: Sys, step: Step)
    requires Inv(s) && Enabled(s, step)
    ensures CallsOk(s, StepEffect(s, step).value)
  {
    match step
    case Queue(q) => QueueSilent(s, q);
    case Read(r) => ReadSilent(s, r);
    case Acquire(l) => LeaseSilent(s, l);
    case Permit(p) => PermitSilent(s, p);
    case Attempted(a) =>
      InvLocal(s, a.m);
      AttemptCalls(s, a);
    case Finish(f) => FinishSilent(s, f);
    case Publish(p) => PublishSilent(s, p);
    case Route(r) => RouteSilent(s, r);
    case Intake(i) => IntakeSilent(s, i);
  }

  lemma {:induction false} RunKeepsSends(s: Sys, steps: seq<Step>, t: Sys)
    requires Inv(s) && SendsInv(s) && Run(s, steps, t)
    ensures SendsInv(t)
    decreases |steps|
  {
    if steps != [] {
      FirstStep(s, steps, t);
      StepOk(s, steps[0]);
      StepCalls(s, steps[0]);
      KeepSends(s, StepEffect(s, steps[0]).value);
      StepKeepsInv(s, steps[0]);
      RunKeepsSends(Next(s, steps[0]), steps[1..], t);
    }
  }

  // ---------------------------------------------------------------- counting calls

  /** How often the partner was called for a delivery. */
  function Calls(sends: seq<(DeliveryId, nat)>, d: DeliveryId): nat {
    if sends == [] then 0 else Calls(sends[1..], d) + (if sends[0].0 == d then 1 else 0)
  }

  /** The attempts the partner was called for. */
  ghost function Called(sends: seq<(DeliveryId, nat)>, d: DeliveryId): set<nat> {
    set p | p in sends && p.0 == d :: p.1
  }

  lemma {:induction false} CallsAreDistinct(sends: seq<(DeliveryId, nat)>, d: DeliveryId)
    requires NoRepeats(sends)
    ensures Calls(sends, d) == |Called(sends, d)|
  {
    if sends != [] {
      var rest := sends[1..];
      CallsAreDistinct(rest, d);
      assert forall p :: p in sends <==> p == sends[0] || p in rest;
      if sends[0].0 == d {
        assert sends[0] == (d, sends[0].1) && sends[0] !in rest;
        assert sends[0].1 !in Called(rest, d);
        assert Called(sends, d) == Called(rest, d) + {sends[0].1};
      } else {
        assert Called(sends, d) == Called(rest, d);
      }
    }
  }

  lemma {:induction false} Bounded(numbers: set<nat>, n: nat)
    requires forall k :: k in numbers ==> 1 <= k <= n
    ensures |numbers| <= n
  {
    if n == 0 {
      assert numbers == {};
    } else {
      Bounded(numbers - {n}, n - 1);
      assert |numbers| <= |numbers - {n}| + 1;
    }
  }

  /** No attempt is ever sent twice, only stored attempts are sent, and no delivery is sent more often
      than its policy allows. */
  lemma SendsAreBounded(s: Sys, steps: seq<Step>, t: Sys, d: DeliveryId)
    requires Initial(s) && Run(s, steps, t) && d in t.cells
    ensures NoRepeats(t.sends)
    ensures forall n :: (d, n) in t.sends ==> n in t.cells[d].attempts
    ensures Calls(t.sends, d) <= t.cells[d].d.attemptCount <= t.cells[d].d.maxAttempts
  {
    InitialInv(s);
    RunKeepsSends(s, steps, t);
    CallsAreDistinct(t.sends, d);
    Bounded(Called(t.sends, d), t.cells[d].d.attemptCount);
    forall n | (d, n) in t.sends ensures n in t.cells[d].attempts {
      AttemptLedger(s, steps, t, d, n);
    }
    AttemptLedger(s, steps, t, d, 0);
  }
}
