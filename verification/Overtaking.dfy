/** How a worker comes to be stale: any holder of a lease can be overtaken by the recovery of that lease, at
    whatever point before its attempt it stands, and a permit it was about to take is then still committed. */
module Overtaking {
  import opened Domain
  import opened Cells
  import opened System
  import opened Invariants
  import opened Steps
  import opened Fencing

  /** The task holds the lease that the delivery has now, and has not started its attempt. */
  predicate HoldsLease(s: Sys, m: nat) {
    AtCell(s, m) && TaskOf(s, m).Leased? && Fresh(CellOf(s, m), TaskOf(s, m).snap)
  }

  /** `s` at a later time and with a message `k` for delivery `d`. */
  function With(s: Sys, now: Time, k: nat, d: DeliveryId, place: Place): Sys {
    s.(clock := now, msgs := s.msgs[k := Msg(ToDelivery(d), place)])
  }

  lemma Later(s: Sys, now: Time)
    requires now >= s.clock
    ensures Run(s, [Queue(DoTick(now))], s.(clock := now))
  {
    NoStep(s);
    assert StepEffect(s, Queue(DoTick(now))) == Some(Quiet(s).(clock := now));
    OneMoreStep(s, [], s, Queue(DoTick(now)));
    assert [] + [Queue(DoTick(now))] == [Queue(DoTick(now))];
  }

  /** A second copy of the message is handed out. */
  lemma Copied(start: Sys, steps: seq<Step>, s: Sys, m: nat, k: nat)
    requires Run(start, steps, s) && AtDelivery(s, m) && k !in s.msgs
    ensures Run(start, steps + [Queue(DoDuplicate(m, k))], With(s, s.clock, k, Id(s, m), Visible))
  {
    assert QueueEffect(s, DoDuplicate(m, k)) == Duplicate(s, m, k);
    OneMoreStep(start, steps, s, Queue(DoDuplicate(m, k)));
  }

  /** The task of `k` moves on. */
  lemma Moved(start: Sys, steps: seq<Step>, s: Sys, k: nat, d: DeliveryId, place: Place, step: Step, task: Task)
    requires Run(start, steps, With(s, s.clock, k, d, place))
    requires StepEffect(With(s, s.clock, k, d, place), step) == Some(Move(With(s, s.clock, k, d, place), k, task))
    ensures Run(start, steps + [step], With(s, s.clock, k, d, Held(task)))
  {
    var before := With(s, s.clock, k, d, place);
    OneMoreStep(start, steps, before, step);
    assert before.msgs[k := Msg(ToDelivery(d), Held(task))] == s.msgs[k := Msg(ToDelivery(d), Held(task))];
  }

  /** The lease of the delivery has run out and there is no active attempt. */
  predicate Lapsed(s: Sys, d: DeliveryId) {
    d in s.cells && LeaseExpired(s.cells[d].d, s.clock) && s.cells[d].d.activeAttempt.None?
  }

  lemma Receives(start: Sys, steps: seq<Step>, s: Sys, k: nat, d: DeliveryId)
    requires Run(start, steps, With(s, s.clock, k, d, Visible))
    ensures Run(start, steps + [Queue(DoReceive(k))], With(s, s.clock, k, d, Held(Received)))
  {
    assert StepEffect(With(s, s.clock, k, d, Visible), Queue(DoReceive(k)))
        == Some(Move(With(s, s.clock, k, d, Visible), k, Received));
    Moved(start, steps, s, k, d, Visible, Queue(DoReceive(k)), Received);
  }

  lemma Fetches(start: Sys, steps: seq<Step>, s: Sys, k: nat, d: DeliveryId) returns (more: seq<Step>)
    requires Run(start, steps, With(s, s.clock, k, d, Visible)) && d in s.cells
    ensures Run(start, steps + more, With(s, s.clock, k, d, Held(Fetched(Some(s.cells[d].d)))))
  {
    var found := Some(s.cells[d].d);
    Receives(start, steps, s, k, d);
    assert StepEffect(With(s, s.clock, k, d, Held(Received)), Read(DoFetch(k)))
        == Some(Move(With(s, s.clock, k, d, Held(Received)), k, Fetched(found)));
    Moved(start, steps + [Queue(DoReceive(k))], s, k, d, Held(Received), Read(DoFetch(k)), Fetched(found));
    more := [Queue(DoReceive(k)), Read(DoFetch(k))];
    assert steps + [Queue(DoReceive(k))] + [Read(DoFetch(k))] == steps + more;
  }

  /** A worker that sees the lease of the delivery run out begins its recovery. */
  lemma SeesExpiry(start: Sys, steps: seq<Step>, s: Sys, k: nat, d: DeliveryId) returns (more: seq<Step>)
    requires Lapsed(s, d) && Run(start, steps, With(s, s.clock, k, d, Held(Fetched(Some(s.cells[d].d)))))
    ensures Run(start, steps + more, With(s, s.clock, k, d, Held(Recovering(s.cells[d].d, s.clock, true))))
  {
    var x := s.cells[d].d;
    var fetched, outside := Held(Fetched(Some(x))), Held(Recovering(x, s.clock, false));
    assert StepEffect(With(s, s.clock, k, d, fetched), Read(DoBranch(k)))
        == Some(Move(With(s, s.clock, k, d, fetched), k, Recovering(x, s.clock, false)));
    Moved(start, steps, s, k, d, fetched, Read(DoBranch(k)), Recovering(x, s.clock, false));
    assert StepEffect(With(s, s.clock, k, d, outside), Read(DoRecoverFetch(k)))
        == Some(Move(With(s, s.clock, k, d, outside), k, Recovering(x, s.clock, true)));
    Moved(start, steps + [Read(DoBranch(k))], s, k, d, outside, Read(DoRecoverFetch(k)), Recovering(x, s.clock, true));
    more := [Read(DoBranch(k)), Read(DoRecoverFetch(k))];
    assert steps + [Read(DoBranch(k))] + [Read(DoRecoverFetch(k))] == steps + more;
  }

  /** What recovery plans for a lease without an attempt. */
  function BackPlan(x: Delivery, now: Time): DeferPlan {
    DeferPlan(x, x.(state := Scheduled, updatedAt := now, version := x.version + 1, blockedReason := None,
                    nextEligibleAt := Some(now), terminalAt := None, lease := None), now, true)
  }

  lemma InspectPlans(s: Sys, k: nat, d: DeliveryId)
    requires Lapsed(s, d)
    ensures var before := With(s, s.clock, k, d, Held(Recovering(s.cells[d].d, s.clock, true)));
            StepEffect(before, Read(DoRecoverInspect(k, 0.0)))
            == Some(Move(before, k, Deferring(BackPlan(s.cells[d].d, s.clock), None)))
  {
  }

  lemma PlansBack(start: Sys, steps: seq<Step>, s: Sys, k: nat, d: DeliveryId)
    requires Lapsed(s, d)
    requires Run(start, steps, With(s, s.clock, k, d, Held(Recovering(s.cells[d].d, s.clock, true))))
    ensures Run(start, steps + [Read(DoRecoverInspect(k, 0.0))],
                With(s, s.clock, k, d, Held(Deferring(BackPlan(s.cells[d].d, s.clock), None))))
  {
    InspectPlans(s, k, d);
    Moved(start, steps, s, k, d, Held(Recovering(s.cells[d].d, s.clock, true)), Read(DoRecoverInspect(k, 0.0)),
          Deferring(BackPlan(s.cells[d].d, s.clock), None));
  }

  lemma ReadsBack(start: Sys, steps: seq<Step>, s: Sys, k: nat, d: DeliveryId, plan: DeferPlan)
    requires d in s.cells && Run(start, steps, With(s, s.clock, k, d, Held(Deferring(plan, None))))
    ensures Run(start, steps + [Finish(DoDeferFetch(k))],
                With(s, s.clock, k, d, Held(Deferring(plan, Some(s.cells[d].d)))))
  {
    var before := With(s, s.clock, k, d, Held(Deferring(plan, None)));
    assert StepEffect(before, Finish(DoDeferFetch(k))) == Some(Move(before, k, Deferring(plan, Some(s.cells[d].d))));
    Moved(start, steps, s, k, d, Held(Deferring(plan, None)), Finish(DoDeferFetch(k)),
          Deferring(plan, Some(s.cells[d].d)));
  }

  lemma BackCommits(s: Sys, k: nat, d: DeliveryId)
    requires Lapsed(s, d) && s.cells[d].d.updatedAt < s.clock
    requires RecoveryRow(d, s.cells[d].d.version) !in s.rows
    ensures var x := s.cells[d].d;
            var before := With(s, s.clock, k, d, Held(Deferring(BackPlan(x, s.clock), Some(x))));
            var e := StepEffect(before, Finish(DoDeferCommit(k, 0)));
            && e.Some? && e.value.circuit.None? && e.value.rate.None?
            && e.value.msg == Some((k, Some(Msg(ToDelivery(d), Held(Acking)))))
            && e.value.cell.Some? && e.value.cell.value.0 == d
            && e.value.cell.value.1.d == BackPlan(x, s.clock).next
  {
    var x, plan := s.cells[d].d, BackPlan(s.cells[d].d, s.clock);
    assert CommitDefer(s.cells[d], plan, x).Some?;
  }

  /** It gives the lease back. */
  lemma GivesBack(start: Sys, steps: seq<Step>, s: Sys, k: nat, d: DeliveryId) returns (t: Sys)
    requires Lapsed(s, d) && s.cells[d].d.updatedAt < s.clock
    requires RecoveryRow(d, s.cells[d].d.version) !in s.rows
    requires Run(start, steps,
                 With(s, s.clock, k, d, Held(Deferring(BackPlan(s.cells[d].d, s.clock), Some(s.cells[d].d)))))
    ensures Run(start, steps + [Finish(DoDeferCommit(k, 0))], t)
    ensures d in t.cells && t.cells[d].d == BackPlan(s.cells[d].d, s.clock).next
    ensures t.circuits == s.circuits && t.rates == s.rates && t.policies == s.policies
    ensures forall j :: j in s.msgs && j != k ==> j in t.msgs && t.msgs[j] == s.msgs[j]
  {
    var x, plan := s.cells[d].d, BackPlan(s.cells[d].d, s.clock);
    var before := With(s, s.clock, k, d, Held(Deferring(plan, Some(x))));
    BackCommits(s, k, d);
    OneMoreStep(start, steps, before, Finish(DoDeferCommit(k, 0)));
    t := Next(before, Finish(DoDeferCommit(k, 0)));
  }

  lemma {:induction false} Unused(used: set<nat>) returns (k: nat)
    ensures k !in used
  {
    if used == {} {
      k := 0;
    } else {
      var top := MaxExists(used);
      k := top + 1;
    }
  }

  lemma {:induction false} MaxExists(s: set<nat>) returns (x: nat)
    requires s != {}
    ensures x in s && forall y :: y in s ==> y <= x
    decreases |s|
  {
    var z :| z in s;
    if s == {z} {
      x := z;
    } else {
      assert s == s - {z} + {z};
      var w := MaxExists(s - {z});
      x := if w >= z then w else z;
    }
  }

  /** Another worker receives a copy of the message and reads the delivery. */
  lemma FetchesCopy(start: Sys, steps: seq<Step>, s: Sys, m: nat, k: nat) returns (more: seq<Step>)
    requires Run(start, steps, s) && AtCell(s, m) && k !in s.msgs
    ensures Run(start, steps + more, With(s, s.clock, k, Id(s, m), Held(Fetched(Some(CellOf(s, m).d)))))
  {
    var first := [Queue(DoDuplicate(m, k))];
    Copied(start, steps, s, m, k);
    var second := Fetches(start, steps + first, s, k, Id(s, m));
    more := first + second;
    assert steps + first + second == steps + more;
  }

  lemma SeesFromCopy(start: Sys, steps: seq<Step>, s: Sys, m: nat, k: nat) returns (more: seq<Step>)
    requires Run(start, steps, s) && AtDelivery(s, m) && Lapsed(s, Id(s, m)) && k !in s.msgs
    ensures Run(start, steps + more,
                With(s, s.clock, k, Id(s, m), Held(Recovering(CellOf(s, m).d, s.clock, true))))
  {
    var first := FetchesCopy(start, steps, s, m, k);
    var second := SeesExpiry(start, steps + first, s, k, Id(s, m));
    more := first + second;
    assert steps + first + second == steps + more;
  }

  lemma PlansFromCopy(start: Sys, steps: seq<Step>, s: Sys, m: nat, k: nat) returns (more: seq<Step>)
    requires Run(start, steps, s) && AtDelivery(s, m) && Lapsed(s, Id(s, m)) && k !in s.msgs
    ensures var x := CellOf(s, m).d;
            Run(start, steps + more, With(s, s.clock, k, Id(s, m), Held(Deferring(BackPlan(x, s.clock), Some(x)))))
  {
    var d, plan := Id(s, m), BackPlan(CellOf(s, m).d, s.clock);
    var inspect, read := [Read(DoRecoverInspect(k, 0.0))], [Finish(DoDeferFetch(k))];
    var first := SeesFromCopy(start, steps, s, m, k);
    PlansBack(start, steps + first, s, k, d);
    ReadsBack(start, steps + first + inspect, s, k, d, plan);
    more := first + inspect + read;
    assert steps + first + inspect + read == steps + more;
  }

  /** Another worker recovers a lapsed lease through a copy of the message. */
  lemma Recovered(start: Sys, steps: seq<Step>, s: Sys, m: nat) returns (more: seq<Step>, t: Sys)
    requires Run(start, steps, s) && AtDelivery(s, m) && Lapsed(s, Id(s, m))
    requires CellOf(s, m).d.updatedAt < s.clock && RecoveryRow(Id(s, m), CellOf(s, m).d.version) !in s.rows
    ensures Run(start, steps + more, t)
    ensures AtCell(t, m) && t.msgs[m] == s.msgs[m] && CellOf(t, m).d.version == CellOf(s, m).d.version + 1
    ensures t.circuits == s.circuits && t.rates == s.rates && t.policies == s.policies
  {
    var k := Unused(s.msgs.Keys);
    var copied := PlansFromCopy(start, steps, s, m, k);
    t := GivesBack(start, steps + copied, s, k, Id(s, m));
    more := copied + [Finish(DoDeferCommit(k, 0))];
    assert steps + copied + [Finish(DoDeferCommit(k, 0))] == steps + more;
  }

  /** What the invariant says of a lease holder. */
  lemma HolderStands(s: Sys, m: nat)
    requires Inv(s) && HoldsLease(s, m)
    ensures TaskOf(s, m).snap == CellOf(s, m).d && CellOf(s, m).d.activeAttempt.None?
    ensures CellOf(s, m).d.state == InProgress && CellOf(s, m).d.lease.Some?
    ensures RecoveryRow(Id(s, m), CellOf(s, m).d.version) !in s.rows
  {
    assert MsgOk(s, s.msgs[m]) && CellInv(s.cells[Id(s, m)], s.clock);
    assert forall r :: r in s.rows ==> RowIdOk(s, r);
  }

  /** Wherever a lease holder stands before its attempt, the system can go on so that it becomes stale while
      its task, the circuits and the permits stay as they are. */
  lemma Overtaken(s: Sys, m: nat) returns (steps: seq<Step>, t: Sys)
    requires Inv(s) && HoldsLease(s, m)
    ensures Run(s, steps, t) && Stale(t, m) && t.msgs[m] == s.msgs[m]
    ensures t.circuits == s.circuits && t.rates == s.rates && t.policies == s.policies
  {
    HolderStands(s, m);
    var x := CellOf(s, m).d;
    var now := Latest(Latest(s.clock, x.lease.value.expiresAt), x.updatedAt + 1);
    Later(s, now);
    steps, t := Recovered(s, [Queue(DoTick(now))], s.(clock := now), m);
    steps := [Queue(DoTick(now))] + steps;
  }

  function Latest(a: Time, b: Time): Time {
    if a >= b then a else b
  }

  /** The two writes that staleness does not prevent: from every reachable state in which a lease holder
      could commit a permit or a probe, a state can be reached in which it is stale and still can. */
  lemma StalePermitIsReachable(initial: Sys, before: seq<Step>, s: Sys, m: nat) returns (steps: seq<Step>, t: Sys)
    requires Initial(initial) && Run(initial, before, s) && HoldsLease(s, m)
    ensures Run(s, steps, t) && Stale(t, m)
    ensures RateCommit(t, m).Some? <==> RateCommit(s, m).Some?
    ensures CircuitCommit(t, m).Some? <==> CircuitCommit(s, m).Some?
  {
    InitialInv(initial);
    RunKeepsInv(initial, before, s);
    steps, t := Overtaken(s, m);
    StillCommits(s, t, m);
  }

  lemma StillCommits(s: Sys, t: Sys, m: nat)
    requires AtCell(s, m) && AtCell(t, m) && t.msgs[m] == s.msgs[m] && t.circuits == s.circuits && t.rates == s.rates
    ensures RateCommit(t, m).Some? <==> RateCommit(s, m).Some?
    ensures CircuitCommit(t, m).Some? <==> CircuitCommit(s, m).Some?
  {
  }
}
