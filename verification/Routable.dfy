/** An accepted event can always be routed: whatever has happened, the system can go on so that its deliveries are
    created and its routing is complete. */
module Routable {
  import opened Domain
  import opened Cells
  import opened System
  import opened Invariants
  import opened Steps
  import opened Accounting
  import opened Routing
  import opened Answers
  import opened Overtaking
  import opened Finishing

  /** `s` with a message `k` for event `e`. */
  function WithEvent(s: Sys, k: nat, e: EventId, place: Place): Sys {
    s.(msgs := s.msgs[k := Msg(ToEvent(e), place)])
  }

  lemma Routes(s: Sys, b: Sys, k: nat, e: EventId, place: Place, step: Step, effect: Option<Effect>, task: Task)
    requires Leads(s, WithEvent(b, k, e, place)) && StepEffect(WithEvent(b, k, e, place), step) == effect
    requires effect == Some(Move(WithEvent(b, k, e, place), k, task))
    ensures Leads(s, WithEvent(b, k, e, Held(task)))
  {
    var before := WithEvent(b, k, e, place);
    assert before.msgs[k := Msg(ToEvent(e), Held(task))] == b.msgs[k := Msg(ToEvent(e), Held(task))];
    LeadsOn(s, before, step, effect, WithEvent(b, k, e, Held(task)));
  }

  lemma LeadsEvent(s: Sys, t: Sys, k: nat)
    requires Leads(s, t) && AtEvent(t, k)
    ensures LocalEvent(t, k) && Exact(t) && RowsInv(t)
  {
    LeadsToReachable(s, t);
    ReachableIsSound(t);
    InvLocalEvent(t, k);
  }

  // ---------------------------------------------------------------- the message

  lemma EventCopyIsMade(b: Sys, m: nat, k: nat, e: EventId)
    requires m in b.msgs && b.msgs[m].target == ToEvent(e) && k !in b.msgs
    ensures Duplicate(b, m, k).Some? && Apply(b, Duplicate(b, m, k).value) == WithEvent(b, k, e, Visible)
  {
  }

  predicate SameTables(t: Sys, b: Sys) {
    b.cells == t.cells && b.events == t.events
  }

  lemma StillAwake(s: Sys, e: EventId)
    requires Reachable(s) && e in s.events && !s.events[e].outcome.routingComplete
    ensures Announced(s, e) || Queued(s, e)
  {
    var first, steps :| Initial(first) && Run(first, steps, s);
    NoLostRouting(first, steps, s, e);
  }

  lemma EventWoken(s: Sys, e: EventId) returns (b: Sys, k: nat)
    requires Reachable(s) && e in s.events && !s.events[e].outcome.routingComplete
    ensures SameTables(s, b) && Leads(s, WithEvent(b, k, e, Visible))
  {
    LeadsHere(s);
    StillAwake(s, e);
    k := Unused(s.msgs.Keys);
    if Queued(s, e) {
      var m :| m in s.msgs && s.msgs[m].target == ToEvent(e);
      b := s;
      EventCopyIsMade(s, m, k, e);
      LeadsOn(s, s, Queue(DoDuplicate(m, k)), Duplicate(s, m, k), WithEvent(s, k, e, Visible));
    } else {
      b := AnnouncementGoesOut(s, e, k);
    }
  }

  lemma AnnouncementGoesAt(s: Sys, e: EventId, k: nat, now: Time) returns (b: Sys)
    requires Leads(s, s) && Announced(s, e) && k !in s.msgs && now >= s.clock
    requires s.rows[RouteRow(e)].schedule.Some? ==> s.rows[RouteRow(e)].schedule.value <= now
    ensures SameTables(s, b) && Leads(s, WithEvent(b, k, e, Visible))
  {
    var later := s.(clock := now);
    Ticks(s, s, now);
    AnnouncementSent(later, k, e);
    b := later.(rows := later.rows[RouteRow(e) := later.rows[RouteRow(e)].(sent := true)]);
    LeadsOn(s, later, Publish(DoSendRow(RouteRow(e), k)), SendRow(later, RouteRow(e), k), WithEvent(b, k, e, Visible));
  }

  lemma AnnouncementGoesOut(s: Sys, e: EventId, k: nat) returns (b: Sys)
    requires Leads(s, s) && Announced(s, e) && k !in s.msgs
    ensures SameTables(s, b) && Leads(s, WithEvent(b, k, e, Visible))
  {
    var row := s.rows[RouteRow(e)];
    b := AnnouncementGoesAt(s, e, k, if row.schedule.Some? then Max(s.clock, row.schedule.value) else s.clock);
  }

  lemma AnnouncementSent(b: Sys, k: nat, e: EventId)
    requires Announced(b, e) && k !in b.msgs
    requires b.rows[RouteRow(e)].schedule.Some? ==> b.rows[RouteRow(e)].schedule.value <= b.clock
    ensures var after := b.(rows := b.rows[RouteRow(e) := b.rows[RouteRow(e)].(sent := true)]);
            SendRow(b, RouteRow(e), k).Some?
            && Apply(b, SendRow(b, RouteRow(e), k).value) == WithEvent(after, k, e, Visible)
  {
  }

  lemma StartsRouting(s: Sys, b: Sys, k: nat, e: EventId)
    requires e in b.events && Leads(s, WithEvent(b, k, e, Visible))
    ensures Leads(s, WithEvent(b, k, e, Held(Routing)))
  {
    Routes(s, b, k, e, Visible, Queue(DoReceive(k)), Receive(WithEvent(b, k, e, Visible), k), Received);
    Routes(s, b, k, e, Held(Received), Route(DoRouteFetch(k)), RouteFetch(WithEvent(b, k, e, Held(Received)), k), Routing);
  }

  // ---------------------------------------------------------------- one delivery

  lemma CreateLocal(b: Sys, k: nat, e: EventId, x: Delivery) returns (effect: Effect)
    requires e in b.events && x.event == e && OriginalId(e, x.destination) !in b.cells
    requires var t := WithEvent(b, k, e, Held(RouteTry(x, b.events[e]))); LocalEvent(t, k) && Exact(t) && RowsInv(t)
    ensures RouteCommit(WithEvent(b, k, e, Held(RouteTry(x, b.events[e]))), k, 0) == Some(effect)
    ensures effect.msg == Some((k, Some(Msg(ToEvent(e), Held(Routing)))))
    ensures effect.cell == Some((OriginalId(e, x.destination), NewCell(x))) && effect.event.Some? && effect.event.value.0 == e
  {
    var t := WithEvent(b, k, e, Held(RouteTry(x, b.events[e])));
    CreateIsExact(t, k, 0);
    effect := RouteCommit(t, k, 0).value;
  }

  lemma CreateFrom(s: Sys, b: Sys, k: nat, e: EventId, x: Delivery) returns (effect: Effect)
    requires e in b.events && x.event == e && OriginalId(e, x.destination) !in b.cells
    requires Leads(s, WithEvent(b, k, e, Held(RouteTry(x, b.events[e]))))
    ensures RouteCommit(WithEvent(b, k, e, Held(RouteTry(x, b.events[e]))), k, 0) == Some(effect)
    ensures effect.msg == Some((k, Some(Msg(ToEvent(e), Held(Routing)))))
    ensures effect.cell == Some((OriginalId(e, x.destination), NewCell(x))) && effect.event.Some? && effect.event.value.0 == e
  {
    LeadsEvent(s, WithEvent(b, k, e, Held(RouteTry(x, b.events[e]))), k);
    effect := CreateLocal(b, k, e, x);
  }

  lemma CreateLeaves(s: Sys, b: Sys, k: nat, e: EventId, x: Delivery, effect: Effect) returns (after: Sys)
    requires e in b.events && Leads(s, WithEvent(b, k, e, Held(RouteTry(x, b.events[e]))))
    requires RouteCommit(WithEvent(b, k, e, Held(RouteTry(x, b.events[e]))), k, 0) == Some(effect)
    requires effect.msg == Some((k, Some(Msg(ToEvent(e), Held(Routing)))))
    requires effect.cell == Some((OriginalId(e, x.destination), NewCell(x))) && effect.event.Some? && effect.event.value.0 == e
    ensures Leads(s, WithEvent(after, k, e, Held(Routing))) && e in after.events
    ensures after.cells == b.cells[OriginalId(e, x.destination) := NewCell(x)]
  {
    var before := WithEvent(b, k, e, Held(RouteTry(x, b.events[e])));
    after := Apply(before, effect);
    assert WithEvent(after, k, e, Held(Routing)) == after;
    LeadsOn(s, before, Route(DoRouteCommit(k, 0)), Some(effect), after);
  }

  /** A delivery that is not there yet is created. */
  lemma CreatesOne(s: Sys, b: Sys, k: nat, e: EventId, x: Delivery) returns (after: Sys)
    requires e in b.events && NewOriginal(x, e) && OriginalId(e, x.destination) !in b.cells
    requires Leads(s, WithEvent(b, k, e, Held(Routing)))
    ensures Leads(s, WithEvent(after, k, e, Held(Routing))) && e in after.events
    ensures after.cells == b.cells[OriginalId(e, x.destination) := NewCell(x)]
  {
    var routing := Held(Routing);
    Routes(s, b, k, e, routing, Route(DoRouteRead(k, x)), RouteRead(WithEvent(b, k, e, routing), k, x), RouteTry(x, b.events[e]));
    var effect := CreateFrom(s, b, k, e, x);
    after := CreateLeaves(s, b, k, e, x, effect);
  }

  ghost predicate AllThere(cells: map<DeliveryId, Cell>, e: EventId, xs: seq<Delivery>) {
    forall x :: x in xs ==> OriginalId(e, x.destination) in cells
  }

  /** The loop over the destinations that subscribe. */
  lemma {:induction false} CreatesAll(s: Sys, b: Sys, k: nat, e: EventId, xs: seq<Delivery>) returns (after: Sys)
    requires e in b.events && forall x :: x in xs ==> NewOriginal(x, e)
    requires Leads(s, WithEvent(b, k, e, Held(Routing)))
    ensures Leads(s, WithEvent(after, k, e, Held(Routing))) && e in after.events && AllThere(after.cells, e, xs)
    ensures forall d :: d in b.cells ==> d in after.cells
    decreases |xs|
  {
    if xs == [] {
      after := b;
    } else {
      var next := b;
      if OriginalId(e, xs[0].destination) !in b.cells {
        next := CreatesOne(s, b, k, e, xs[0]);
      }
      after := CreatesAll(s, next, k, e, xs[1..]);
      assert forall x :: x in xs ==> x == xs[0] || x in xs[1..];
    }
  }

  // ---------------------------------------------------------------- the end

  lemma CompleteLocal(b: Sys, k: nat, e: EventId) returns (effect: Effect)
    requires e in b.events
    requires var t := WithEvent(b, k, e, Held(RouteDone(b.events[e]))); LocalEvent(t, k) && Exact(t)
    ensures CompleteCommit(WithEvent(b, k, e, Held(RouteDone(b.events[e]))), k) == Some(effect)
    ensures effect.event.Some? && effect.event.value.0 == e && effect.event.value.1.outcome.routingComplete
    ensures effect.cell.None?
  {
    var t := WithEvent(b, k, e, Held(RouteDone(b.events[e])));
    CompleteIsExact(t, k);
    effect := CompleteCommit(t, k).value;
  }

  lemma CompleteFrom(s: Sys, b: Sys, k: nat, e: EventId) returns (effect: Effect)
    requires e in b.events && Leads(s, WithEvent(b, k, e, Held(RouteDone(b.events[e]))))
    ensures CompleteCommit(WithEvent(b, k, e, Held(RouteDone(b.events[e]))), k) == Some(effect)
    ensures effect.event.Some? && effect.event.value.0 == e && effect.event.value.1.outcome.routingComplete
    ensures effect.cell.None?
  {
    LeadsEvent(s, WithEvent(b, k, e, Held(RouteDone(b.events[e]))), k);
    effect := CompleteLocal(b, k, e);
  }

  lemma Completes(s: Sys, b: Sys, k: nat, e: EventId) returns (t: Sys)
    requires e in b.events && Leads(s, WithEvent(b, k, e, Held(Routing)))
    ensures Leads(s, t) && t.cells == b.cells && e in t.events && t.events[e].outcome.routingComplete
  {
    if b.events[e].outcome.routingComplete {
      t := WithEvent(b, k, e, Held(Routing));
    } else {
      var routing, done := Held(Routing), Held(RouteDone(b.events[e]));
      Routes(s, b, k, e, routing, Route(DoCompleteRead(k)), CompleteRead(WithEvent(b, k, e, routing), k), done.task);
      var effect := CompleteFrom(s, b, k, e);
      t := Apply(WithEvent(b, k, e, done), effect);
      LeadsOn(s, WithEvent(b, k, e, done), Route(DoCompleteCommit(k)), Some(effect), t);
    }
  }

  /** Whatever has happened so far: an accepted event whose routing is not complete can still be routed, to any
      destinations, and completely. */
  lemma CanRoute(s: Sys, e: EventId, xs: seq<Delivery>) returns (steps: seq<Step>, t: Sys)
    requires Reachable(s) && e in s.events && !s.events[e].outcome.routingComplete
    requires forall x :: x in xs ==> NewOriginal(x, e)
    ensures Run(s, steps, t) && e in t.events && t.events[e].outcome.routingComplete && AllThere(t.cells, e, xs)
  {
    var b, k := EventWoken(s, e);
    StartsRouting(s, b, k, e);
    var created := CreatesAll(s, b, k, e, xs);
    t := Completes(s, created, k, e);
    steps :| Run(s, steps, t);
  }
}
