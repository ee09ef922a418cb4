/** A run in which a worker is stale and about to commit a rate permit: one event, one delivery, one message
    handed out twice, and a lease that runs out between the two requests of a permit. */
module StaleRun {
  import opened Domain
  import opened Cells
  import opened System
  import opened Fencing
  import opened Overtaking
  import RL = RateLimiter
  import CB = CircuitBreaker
  import RO = Rollups

  const POLICY := DestinationPolicy(RL.Limits(1000.0, 1), CB.CircuitPolicy(1, 1, 1))

  const START := Sys(0, map[0 := POLICY], map[], map[], map[], map[], map[], map[], map[], map[], map[], map[], [])

  const ID := OriginalId(0, 0)

  const DELIVERY := Delivery(
    0, 0, 0, Original, Scheduled, None, 0, 1, None, Some(0), None, RetryPolicy(1.0, 1.0, 1.0), 1000, None, 0, None, 1)

  lemma Goes(steps: seq<Step>, s: Sys, step: Step, effect: Option<Effect>, t: Sys)
    requires Run(START, steps, s) && StepEffect(s, step) == effect && effect.Some? && Apply(s, effect.value) == t
    ensures Run(START, steps + [step], t)
  {
    OneMoreStep(START, steps, s, step);
  }

  // ---------------------------------------------------------------- the event

  const EVENT := Event(NO_DELIVERIES, Accepted, 1)

  function AcceptedAs(sent: bool, msgs: map<nat, Msg>): Sys {
    START.(events := map[0 := EVENT], accepted := map[AcceptKey(0, 0) := AcceptEntry(0, 0)],
           rows := map[RouteRow(0) := OutboxRow(ToEvent(0), None, sent, false)],
           rollups := RO.RecordAccepted(map[], 0, 0), msgs := msgs)
  }

  function AtRouter(place: Place): Sys {
    AcceptedAs(true, map[0 := Msg(ToEvent(0), place)])
  }

  lemma EventSent() returns (steps: seq<Step>)
    ensures Run(START, steps, AtRouter(Visible))
  {
    var accept, send := Intake(DoAccept(0, AcceptKey(0, 0), 0, 0)), Publish(DoSendRow(RouteRow(0), 0));
    NoStep(START);
    assert RO.HourOf(0) == 0;
    Goes([], START, accept, AcceptEvent(START, 0, AcceptKey(0, 0), 0, 0), AcceptedAs(false, map[]));
    Goes([] + [accept], AcceptedAs(false, map[]), send, SendRow(AcceptedAs(false, map[]), RouteRow(0), 0), AtRouter(Visible));
    steps := [] + [accept] + [send];
  }

  lemma EventReceived() returns (steps: seq<Step>)
    ensures Run(START, steps, AtRouter(Held(Received)))
  {
    steps := EventSent();
    Goes(steps, AtRouter(Visible), Queue(DoReceive(0)), Receive(AtRouter(Visible), 0), AtRouter(Held(Received)));
    steps := steps + [Queue(DoReceive(0))];
  }

  lemma EventFetched() returns (steps: seq<Step>)
    ensures Run(START, steps, AtRouter(Held(Routing)))
  {
    steps := EventReceived();
    Goes(steps, AtRouter(Held(Received)), Route(DoRouteFetch(0)), RouteFetch(AtRouter(Held(Received)), 0),
         AtRouter(Held(Routing)));
    steps := steps + [Route(DoRouteFetch(0))];
  }

  /** The event is routed to its destination. */
  function Routed(clock: Time, sent: bool): Sys {
    AtRouter(Held(Routing)).(
      clock := clock,
      events := map[0 := Event(NO_DELIVERIES.(total := 1), Processing, 2)],
      cells := map[ID := NewCell(DELIVERY)],
      rows := map[RouteRow(0) := OutboxRow(ToEvent(0), None, true, false),
                  InitialRow(ID) := OutboxRow(ToDelivery(ID), None, sent, false)])
  }

  lemma RouteEffects()
    ensures var tried := AtRouter(Held(RouteTry(DELIVERY, EVENT)));
            RouteCommit(tried, 0, 0) == Some(Move(tried, 0, Routing).(
              cell := Some((ID, NewCell(DELIVERY))),
              event := Some((0, Event(NO_DELIVERIES.(total := 1), Processing, 2))),
              row := Some((InitialRow(ID), OutboxRow(ToDelivery(ID), None, false, false)))))
  {
    assert NextEvent(EVENT, CountCreated(NO_DELIVERIES, Scheduled))
        == Some(Event(NO_DELIVERIES.(total := 1), Processing, 2));
  }

  lemma RouteCommits()
    ensures var tried := AtRouter(Held(RouteTry(DELIVERY, EVENT)));
            RouteCommit(tried, 0, 0).Some? && Apply(tried, RouteCommit(tried, 0, 0).value) == Routed(0, false)
  {
    RouteEffects();
  }

  lemma DeliveryCreated() returns (steps: seq<Step>)
    ensures Run(START, steps, Routed(0, false))
  {
    var read, commit := Route(DoRouteRead(0, DELIVERY)), Route(DoRouteCommit(0, 0));
    var routing, tried := AtRouter(Held(Routing)), AtRouter(Held(RouteTry(DELIVERY, EVENT)));
    steps := EventFetched();
    Goes(steps, routing, read, RouteRead(routing, 0, DELIVERY), tried);
    steps := steps + [read];
    RouteCommits();
    Goes(steps, tried, commit, RouteCommit(tried, 0, 0), Routed(0, false));
    steps := steps + [commit];
  }

  // ---------------------------------------------------------------- the delivery

  lemma LaterRouted()
    ensures Tick(Routed(0, false), 1).Some? && Apply(Routed(0, false), Tick(Routed(0, false), 1).value) == Routed(1, false)
  {
  }

  lemma SendsRow(s: Sys, r: RowId, m: nat)
    requires r in s.rows && m !in s.msgs && s.rows[r].schedule.None?
    ensures SendRow(s, r, m).Some?
    ensures Apply(s, SendRow(s, r, m).value)
            == s.(rows := s.rows[r := s.rows[r].(sent := true)], msgs := s.msgs[m := Msg(s.rows[r].target, Visible)])
  {
  }

  lemma RoutedSends()
    ensures var e := SendRow(Routed(1, false), InitialRow(ID), 1);
            e.Some? && Apply(Routed(1, false), e.value) == With(Routed(1, true), 1, 1, ID, Visible)
  {
    var rows := Routed(1, false).rows;
    assert rows[InitialRow(ID) := OutboxRow(ToDelivery(ID), None, true, false)] == Routed(1, true).rows;
    SendsRow(Routed(1, false), InitialRow(ID), 1);
  }

  lemma DeliverySent() returns (steps: seq<Step>)
    ensures Run(START, steps, With(Routed(1, true), 1, 1, ID, Visible))
  {
    var tick, send := Queue(DoTick(1)), Publish(DoSendRow(InitialRow(ID), 1));
    steps := DeliveryCreated();
    LaterRouted();
    Goes(steps, Routed(0, false), tick, Tick(Routed(0, false), 1), Routed(1, false));
    steps := steps + [tick];
    RoutedSends();
    Goes(steps, Routed(1, false), send, SendRow(Routed(1, false), InitialRow(ID), 1),
         With(Routed(1, true), 1, 1, ID, Visible));
    steps := steps + [send];
  }

  const LEASE := Lease(0, 0, 1, 6001)

  const LEASED := DELIVERY.(state := InProgress, updatedAt := 1, version := 2, nextEligibleAt := None, lease := Some(LEASE))

  lemma Branches()
    ensures var s := With(Routed(1, true), 1, 1, ID, Held(Fetched(Some(DELIVERY))));
            Branch(s, 1) == Some(Move(s, 1, Acquiring(DELIVERY, 1, None)))
  {
  }

  lemma AcquireFetches()
    ensures var s := With(Routed(1, true), 1, 1, ID, Held(Acquiring(DELIVERY, 1, None)));
            AcquireFetch(s, 1, 0, 0) == Some(Move(s, 1, Acquiring(DELIVERY, 1, Some(LEASED))))
  {
    assert LeaseTransition(DELIVERY, LEASE) == Some(LEASED);
  }

  lemma Acquires() returns (steps: seq<Step>)
    ensures Run(START, steps, With(Routed(1, true), 1, 1, ID, Held(Acquiring(DELIVERY, 1, Some(LEASED)))))
  {
    var s, branch, fetch := Routed(1, true), Read(DoBranch(1)), Acquire(DoAcquireFetch(1, 0, 0));
    var fetched, acquiring := Held(Fetched(Some(DELIVERY))), Held(Acquiring(DELIVERY, 1, None));
    steps := DeliverySent();
    var more := Fetches(START, steps, s, 1, ID);
    steps := steps + more;
    Branches();
    Moved(START, steps, s, 1, ID, fetched, branch, Acquiring(DELIVERY, 1, None));
    steps := steps + [branch];
    AcquireFetches();
    Moved(START, steps, s, 1, ID, acquiring, fetch, Acquiring(DELIVERY, 1, Some(LEASED)));
    steps := steps + [fetch];
  }

  /** The delivery is leased to the task of message 1. */
  function Holding(): Sys {
    Routed(1, true).(cells := Routed(1, true).cells[ID := NewCell(DELIVERY).(
      d := LEASED, index := MoveIndex(IndexRows(DELIVERY), DELIVERY, LEASED))])
  }

  function Lessee(phase: Phase): Place {
    Held(Leased(LEASED, 1, if phase == Phase.Holding then None else Some(CB.CircuitPermit(CB.INITIAL_CIRCUIT, false)), phase))
  }

  lemma CellMoves(s: Sys, k: nat, d: DeliveryId, place: Place, task: Task, c: Cell)
    ensures var before := With(s, s.clock, k, d, place);
            Apply(before, Move(before, k, task).(cell := Some((d, c))))
            == With(s.(cells := s.cells[d := c]), s.clock, k, d, Held(task))
  {
    assert s.msgs[k := Msg(ToDelivery(d), place)][k := Msg(ToDelivery(d), Held(task))]
        == s.msgs[k := Msg(ToDelivery(d), Held(task))];
  }

  lemma LeaseCommits()
    ensures var before := With(Routed(1, true), 1, 1, ID, Held(Acquiring(DELIVERY, 1, Some(LEASED))));
            AcquireCommit(before, 1)
            == Some(Move(before, 1, Lessee(Phase.Holding).task).(cell := Some((ID, Holding().cells[ID]))))
  {
    assert CommitLease(NewCell(DELIVERY), DELIVERY, LEASED) == Some(Holding().cells[ID]);
  }

  lemma Leases() returns (steps: seq<Step>)
    ensures Run(START, steps, With(Holding(), 1, 1, ID, Lessee(Phase.Holding)))
  {
    var acquiring := Held(Acquiring(DELIVERY, 1, Some(LEASED)));
    var before := With(Routed(1, true), 1, 1, ID, acquiring);
    steps := Acquires();
    LeaseCommits();
    CellMoves(Routed(1, true), 1, ID, acquiring, Lessee(Phase.Holding).task, Holding().cells[ID]);
    Goes(steps, before, Acquire(DoAcquireCommit(1)), AcquireCommit(before, 1),
         With(Holding(), 1, 1, ID, Lessee(Phase.Holding)));
    steps := steps + [Acquire(DoAcquireCommit(1))];
  }

  lemma CircuitAsked()
    ensures var s := With(Holding(), 1, 1, ID, Lessee(Phase.Holding));
            CircuitAsk(s, 1) == Some(Move(s, 1, Lessee(Permitted).task))
  {
  }

  lemma RateAsked()
    ensures var s := With(Holding(), 1, 1, ID, Lessee(Permitted));
            RateAsk(s, 1) == Some(Move(s, 1, Lessee(RateTry(None, 1001)).task))
  {
    assert RL.RateLimitDecision(None, POLICY.rate, 1) == RL.Granted(1001);
  }

  lemma Asks() returns (steps: seq<Step>)
    ensures Run(START, steps, With(Holding(), 1, 1, ID, Lessee(RateTry(None, 1001))))
  {
    var s, ask, rate := Holding(), Permit(DoCircuitAsk(1)), Permit(DoRateAsk(1));
    steps := Leases();
    CircuitAsked();
    Moved(START, steps, s, 1, ID, Lessee(Phase.Holding), ask, Lessee(Permitted).task);
    steps := steps + [ask];
    RateAsked();
    Moved(START, steps, s, 1, ID, Lessee(Permitted), rate, Lessee(RateTry(None, 1001)).task);
    steps := steps + [rate];
  }

  lemma AboutToCommit()
    ensures var s := With(Holding(), 1, 1, ID, Lessee(RateTry(None, 1001)));
            HoldsLease(s, 1) && RateCommit(s, 1).Some?
  {
  }

  /** A stale worker can commit a rate permit: here is a run to a state in which it is about to. */
  lemma StaleWorkerHasPermit() returns (before: seq<Step>, s: Sys, after: seq<Step>, t: Sys)
    ensures Initial(START) && Run(START, before, s) && Run(s, after, t)
    ensures Stale(t, 1) && RateCommit(t, 1).Some?
  {
    before := Asks();
    s := With(Holding(), 1, 1, ID, Lessee(RateTry(None, 1001)));
    AboutToCommit();
    after, t := StalePermitIsReachable(START, before, s, 1);
  }
}
