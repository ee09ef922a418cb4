/** Event accounting: in every reachable state the stored counters of an event are the actual counts
    of its original deliveries, and its stored status is the one derived from them. */
module Accounting {
  import opened Domain
  import opened Cells
  import opened System
  import opened Invariants
  import opened Steps
  import opened Footprints

  datatype Filter = AnyState | AnyTerminal | Exactly(s: DeliveryState)

  predicate Matches(x: Delivery, e: EventId, f: Filter) {
    && x.kind == Original && x.event == e
    && match f
       case AnyState => true
       case AnyTerminal => Terminal(x.state)
       case Exactly(st) => x.state == st
  }

  /** The original deliveries of an event that pass the filter. */
  ghost function Ids(cells: map<DeliveryId, Cell>, e: EventId, f: Filter): set<DeliveryId> {
    set d | d in cells && Matches(cells[d].d, e, f)
  }

  ghost function Count(cells: map<DeliveryId, Cell>, e: EventId, f: Filter): nat {
    |Ids(cells, e, f)|
  }

  function One(b: bool): int { if b then 1 else 0 }

  lemma SizeAfterOneChange<T>(before: set<T>, after: set<T>, d: T)
    requires forall x :: x != d ==> (x in before <==> x in after)
    ensures |after| == |before| - One(d in before) + One(d in after)
  {
    assert before - {d} == after - {d};
    if d in before { assert before == (before - {d}) + {d}; } else { assert before == before - {d}; }
    if d in after { assert after == (after - {d}) + {d}; } else { assert after == after - {d}; }
  }

  lemma CountAfterPut(cells: map<DeliveryId, Cell>, d: DeliveryId, c: Cell, e: EventId, f: Filter)
    ensures Count(cells[d := c], e, f)
            == Count(cells, e, f)
               - One(d in cells && Matches(cells[d].d, e, f))
               + One(Matches(c.d, e, f))
  {
    SizeAfterOneChange(Ids(cells, e, f), Ids(cells[d := c], e, f), d);
  }

  ghost predicate CountersExact(cells: map<DeliveryId, Cell>, e: EventId, o: Outcome) {
    && o.total == Count(cells, e, AnyState)
    && o.terminal == Count(cells, e, AnyTerminal)
    && o.succeeded == Count(cells, e, Exactly(Succeeded))
    && o.failed == Count(cells, e, Exactly(FailedTerminal))
    && o.deadLettered == Count(cells, e, Exactly(DeadLettered))
  }

  ghost predicate EventExact(s: Sys, e: EventId)
    requires e in s.events
  {
    && CountersExact(s.cells, e, s.events[e].outcome)
    && DeriveEventStatus(s.events[e].outcome) == Some(s.events[e].status)
  }

  ghost predicate Exact(s: Sys) {
    forall e :: e in s.events ==> EventExact(s, e)
  }

  // ---------------------------------------------------------------- what a change must carry along

  /** Both sides of the cell change count alike for every event. */
  predicate SameCounts(before: Delivery, after: Delivery) {
    && before.kind == after.kind && before.event == after.event
    && (before.kind == ExecutionKind.Replay || before.state == after.state
        || (!Terminal(before.state) && !Terminal(after.state)))
  }

  predicate StatusDerived(ev: Event) {
    DeriveEventStatus(ev.outcome) == Some(ev.status)
  }

  /** The event write that goes with the cell write. */
  predicate CarriesEvent(s: Sys, e: Effect) {
    if e.cell.None? then
      e.event.Some? ==>
        var (x, ev) := e.event.value;
        && StatusDerived(ev)
        && (if x in s.events
            then ev.outcome == s.events[x].outcome.(routingComplete := ev.outcome.routingComplete)
            else ev.outcome == NO_DELIVERIES)
    else
      var (d, c) := e.cell.value;
      if d in s.cells && SameCounts(s.cells[d].d, c.d) then e.event.None?
      else if d !in s.cells && c.d.kind == ExecutionKind.Replay then e.event.None?
      else
        && e.event.Some? && e.event.value.0 == c.d.event && c.d.event in s.events
        && c.d.kind == Original && StatusDerived(e.event.value.1)
        && (if d in s.cells
            then !Terminal(s.cells[d].d.state) && Terminal(c.d.state)
                 && s.cells[d].d.kind == Original && s.cells[d].d.event == c.d.event
                 && e.event.value.1.outcome == CountTerminal(s.events[c.d.event].outcome, c.d.state)
            else e.event.value.1.outcome == CountCreated(s.events[c.d.event].outcome, c.d.state))
  }

  lemma KeepsCounters(cells: map<DeliveryId, Cell>, d: DeliveryId, c: Cell, e: EventId, o: Outcome, o': Outcome)
    requires CountersExact(cells, e, o)
    requires c.d.state !in {Pending, Cancelled}
    requires
      if d in cells && SameCounts(cells[d].d, c.d) then o' == o
      else if d !in cells && (c.d.kind == ExecutionKind.Replay || c.d.event != e) then o' == o
      else if d in cells then
        && cells[d].d.kind == Original && c.d.kind == Original && cells[d].d.event == c.d.event
        && !Terminal(cells[d].d.state) && Terminal(c.d.state)
        && o' == (if c.d.event == e then CountTerminal(o, c.d.state) else o)
      else o' == CountCreated(o, c.d.state)
    ensures CountersExact(cells[d := c], e, o')
  {
    CountAfterPut(cells, d, c, e, AnyState);
    CountAfterPut(cells, d, c, e, AnyTerminal);
    CountAfterPut(cells, d, c, e, Exactly(Succeeded));
    CountAfterPut(cells, d, c, e, Exactly(FailedTerminal));
    CountAfterPut(cells, d, c, e, Exactly(DeadLettered));
  }

  lemma NoDeliveriesYet(s: Sys, e: EventId)
    requires CellsInv(s) && e !in s.events
    ensures CountersExact(s.cells, e, NO_DELIVERIES)
  {
    forall f: Filter ensures Ids(s.cells, e, f) == {} {
    }
  }

  lemma KeepExactAt(s: Sys, e: Effect, x: EventId)
    requires x in s.events && EventExact(s, x) && CarriesEvent(s, e)
    requires e.cell.Some? ==> StateOk(e.cell.value.1.d)
    ensures EventExact(Apply(s, e), x)
  {
    if e.cell.Some? {
      KeepsCounters(s.cells, e.cell.value.0, e.cell.value.1, x, s.events[x].outcome, Apply(s, e).events[x].outcome);
    }
  }

  lemma KeepExact(s: Sys, e: Effect)
    requires CellsInv(s) && Exact(s) && CarriesEvent(s, e)
    requires e.cell.Some? ==> StateOk(e.cell.value.1.d)
    ensures Exact(Apply(s, e))
  {
    forall x | x in Apply(s, e).events ensures EventExact(Apply(s, e), x) {
      if x in s.events {
        KeepExactAt(s, e, x);
      } else {
        NoDeliveriesYet(s, x);
      }
    }
  }

  // ---------------------------------------------------------------- every step carries it

  lemma QuietCarries(s: Sys, e: Effect)
    requires e.cell.None? && e.event.None?
    ensures CarriesEvent(s, e)
  {
  }

  lemma LeaseCarries(s: Sys, step: LeaseStep)
    requires Inv(s) && LeaseEffect(s, step).Some?
    ensures CarriesEvent(s, LeaseEffect(s, step).value)
  {
    InvLocal(s, step.m);
  }

  lemma AttemptCarries(s: Sys, step: AttemptStep)
    requires Inv(s) && AttemptEffect(s, step).Some?
    ensures CarriesEvent(s, AttemptEffect(s, step).value)
  {
    InvLocal(s, step.m);
  }

  lemma FinalCarries(s: Sys, m: nat, n: nat, shard: nat)
    requires Local(s, m) && FinalCommit(s, m, n, shard).Some?
    ensures CarriesEvent(s, FinalCommit(s, m, n, shard).value)
  {
    FinalCurrent(s, m);
  }

  lemma DeferCarries(s: Sys, m: nat, n: nat)
    requires Local(s, m) && DeferCommit(s, m, n).Some?
    ensures CarriesEvent(s, DeferCommit(s, m, n).value)
  {
  }

  lemma FinishCarries(s: Sys, step: FinishStep)
    requires Inv(s) && FinishEffect(s, step).Some?
    ensures CarriesEvent(s, FinishEffect(s, step).value)
  {
    InvLocal(s, step.m);
    match step
    case DoFinalCommit(m, n, shard) => FinalCarries(s, m, n, shard);
    case DoDeferCommit(m, n) => DeferCarries(s, m, n);
    case _ => QuietCarries(s, FinishEffect(s, step).value);
  }

  lemma RouteCarries(s: Sys, step: RouteStep)
    requires Inv(s) && RouteEffect(s, step).Some?
    ensures CarriesEvent(s, RouteEffect(s, step).value)
  {
    InvLocalEvent(s, step.m);
  }

  lemma IntakeCarries(s: Sys, step: IntakeStep)
    requires IntakeEffect(s, step).Some?
    ensures CarriesEvent(s, IntakeEffect(s, step).value)
  {
  }

  lemma StepCarries(s: Sys, step: Step)
    requires Inv(s) && Enabled(s, step)
    ensures CarriesEvent(s, StepEffect(s, step).value)
  {
    match step
    case Queue(q) => QueueFootprint(s, q);
    case Read(r) => ReadFootprint(s, r);
    case Permit(p) => PermitFootprint(s, p);
    case Publish(p) => PublishFootprint(s, p);
    case Acquire(l) => LeaseCarries(s, l);
    case Attempted(a) => AttemptCarries(s, a);
    case Finish(f) => FinishCarries(s, f);
    case Route(r) => RouteCarries(s, r);
    case Intake(i) => IntakeCarries(s, i);
  }

  lemma {:induction false} RunKeepsExact(s: Sys, steps: seq<Step>, t: Sys)
    requires Inv(s) && Exact(s) && Run(s, steps, t)
    ensures Exact(t)
    decreases |steps|
  {
    if steps != [] {
      FirstStep(s, steps, t);
      StepCarries(s, steps[0]);
      StepOk(s, steps[0]);
      KeepExact(s, StepEffect(s, steps[0]).value);
      StepKeepsInv(s, steps[0]);
      RunKeepsExact(Next(s, steps[0]), steps[1..], t);
    }
  }

  /** The status of an event in terms of its original deliveries. */
  ghost predicate StatusTells(cells: map<DeliveryId, Cell>, e: EventId, routed: bool, status: EventStatus) {
    var total, terminal := Count(cells, e, AnyState), Count(cells, e, AnyTerminal);
    var succeeded := Count(cells, e, Exactly(Succeeded));
    && (status == Accepted <==> !routed && total == 0)
    && (status == NoDestinations <==> routed && total == 0)
    && (status == AllSucceeded <==> routed && total > 0 && succeeded == total)
    && (status == AllFailed <==> routed && total > 0 && terminal == total && succeeded == 0)
    && (status == PartiallySucceeded <==> routed && terminal == total && 0 < succeeded < total)
    && (status == Processing <==> total > 0 && (!routed || terminal < total))
  }

  /** Accounting is exact under every interleaving. */
  lemma EventAccounting(s: Sys, steps: seq<Step>, t: Sys, e: EventId)
    requires Initial(s) && Run(s, steps, t) && e in t.events
    ensures CountersExact(t.cells, e, t.events[e].outcome)
    ensures StatusTells(t.cells, e, t.events[e].outcome.routingComplete, t.events[e].status)
  {
    InitialInv(s);
    RunKeepsExact(s, steps, t);
    assert EventExact(t, e);
    StatusIsExact(t.events[e].outcome, t.events[e].status);
  }

  /** A step on a replay delivery changes no event and no original delivery. */
  lemma ReplayLeavesOriginals(s: Sys, step: Step, d: DeliveryId)
    requires Inv(s) && Enabled(s, step)
    requires StepEffect(s, step).value.cell.Some? && StepEffect(s, step).value.cell.value.0 == d && d.ReplayId?
    ensures Next(s, step).events == s.events
    ensures forall x :: x in s.cells && x.OriginalId? ==> x in Next(s, step).cells && Next(s, step).cells[x] == s.cells[x]
  {
    StepOk(s, step);
    StepCarries(s, step);
  }
}
