/** Progress is always possible: whatever has happened, the system can go on so that a delivery is finished, with
    one exception. A rate-limited delivery is never touched again. */
module Finishing {
  import opened Domain
  import opened Cells
  import opened System
  import opened Invariants
  import opened Steps
  import opened Accounting
  import opened Wakeup
  import opened Answers
  import opened Overtaking
  import opened Fencing
  import CB = CircuitBreaker
  import RL = RateLimiter

  // ---------------------------------------------------------------- runs

  /** The system can go on from `s`, which it can reach, to `t`. */
  ghost predicate Leads(s: Sys, t: Sys) {
    Reachable(s) && exists steps :: Run(s, steps, t)
  }

  lemma LeadsHere(s: Sys)
    requires Reachable(s)
    ensures Leads(s, s)
  {
    NoStep(s);
  }

  lemma LeadsOn(s: Sys, t: Sys, step: Step, e: Option<Effect>, u: Sys)
    requires Leads(s, t) && StepEffect(t, step) == e && e.Some? && Apply(t, e.value) == u
    ensures Leads(s, u)
  {
    var steps :| Run(s, steps, t);
    OneMoreStep(s, steps, t, step);
  }

  lemma LeadsFurther(s: Sys, t: Sys, u: Sys)
    requires Leads(s, t) && Leads(t, u)
    ensures Leads(s, u)
  {
    var a :| Run(s, a, t);
    var b :| Run(t, b, u);
    JoinRuns(s, a, t, b, u);
  }

  lemma LeadsToReachable(s: Sys, t: Sys)
    requires Leads(s, t)
    ensures Reachable(t)
  {
    var first, before :| Initial(first) && Run(first, before, s);
    var steps :| Run(s, steps, t);
    JoinRuns(first, before, s, steps, t);
  }

  /** What holds in every reachable state. */
  lemma ReachableIsSound(s: Sys)
    requires Reachable(s)
    ensures Inv(s) && Exact(s) && Awake(s)
  {
    var first, steps :| Initial(first) && Run(first, steps, s);
    InitialInv(first);
    RunKeepsInv(first, steps, s);
    RunKeepsExact(first, steps, s);
    RunKeepsAwake(first, steps, s);
  }

  /** What the task of message `k` can rely on. */
  lemma LeadsLocal(s: Sys, t: Sys, k: nat)
    requires Leads(s, t) && AtDelivery(t, k)
    ensures Local(t, k) && Exact(t) && RowsInv(t)
  {
    LeadsToReachable(s, t);
    ReachableIsSound(t);
    InvLocal(t, k);
  }

  lemma LeadsDestination(s: Sys, t: Sys, x: DestinationId)
    requires Leads(s, t)
    ensures DestinationOk(t, x)
  {
    LeadsToReachable(s, t);
    ReachableIsSound(t);
  }

  /** The task of `k` takes a step that writes nothing. */
  lemma Moves(s: Sys, b: Sys, k: nat, d: DeliveryId, place: Place, step: Step, e: Option<Effect>, task: Task)
    requires Leads(s, With(b, b.clock, k, d, place)) && StepEffect(With(b, b.clock, k, d, place), step) == e
    requires e == Some(Move(With(b, b.clock, k, d, place), k, task))
    ensures Leads(s, With(b, b.clock, k, d, Held(task)))
  {
    var before := With(b, b.clock, k, d, place);
    assert before.msgs[k := Msg(ToDelivery(d), Held(task))] == b.msgs[k := Msg(ToDelivery(d), Held(task))];
    LeadsOn(s, before, step, e, With(b, b.clock, k, d, Held(task)));
  }

  /** The task of `k` takes a step that writes the delivery. */
  lemma Writes(s: Sys, b: Sys, k: nat, d: DeliveryId, place: Place, step: Step, e: Option<Effect>, task: Task, c: Cell)
    requires Leads(s, With(b, b.clock, k, d, place)) && StepEffect(With(b, b.clock, k, d, place), step) == e
    requires e == Some(Move(With(b, b.clock, k, d, place), k, task).(cell := Some((d, c))))
    ensures Leads(s, With(b.(cells := b.cells[d := c]), b.clock, k, d, Held(task)))
  {
    var before := With(b, b.clock, k, d, place);
    assert before.msgs[k := Msg(ToDelivery(d), Held(task))] == b.msgs[k := Msg(ToDelivery(d), Held(task))];
    LeadsOn(s, before, step, e, With(b.(cells := b.cells[d := c]), b.clock, k, d, Held(task)));
  }

  // ---------------------------------------------------------------- taking the lease

  /** The delivery can be leased at this instant. */
  predicate Leaseable(s: Sys, d: DeliveryId) {
    && d in s.cells && (s.cells[d].d.state == Scheduled || s.cells[d].d.state == RetryScheduled)
    && Answers.Due(s.cells[d].d, s.clock) && s.cells[d].d.updatedAt < s.clock
  }

  lemma IsReceived(s: Sys, b: Sys, k: nat, d: DeliveryId)
    requires Leads(s, With(b, b.clock, k, d, Visible))
    ensures Leads(s, With(b, b.clock, k, d, Held(Received)))
  {
    Moves(s, b, k, d, Visible, Queue(DoReceive(k)), Receive(With(b, b.clock, k, d, Visible), k), Received);
  }

  lemma Reads(s: Sys, b: Sys, k: nat, d: DeliveryId)
    requires Leads(s, With(b, b.clock, k, d, Visible)) && d in b.cells
    ensures Leads(s, With(b, b.clock, k, d, Held(Fetched(Some(b.cells[d].d)))))
  {
    IsReceived(s, b, k, d);
    Moves(s, b, k, d, Held(Received), Read(DoFetch(k)), Fetch(With(b, b.clock, k, d, Held(Received)), k),
          Fetched(Some(b.cells[d].d)));
  }

  lemma BranchIs(b: Sys, k: nat, d: DeliveryId)
    requires Leaseable(b, d)
    ensures var before := With(b, b.clock, k, d, Held(Fetched(Some(b.cells[d].d))));
            Branch(before, k) == Some(Move(before, k, Acquiring(b.cells[d].d, b.clock, None)))
  {
  }

  /** The message is received and the delivery found due. */
  lemma Begins(s: Sys, b: Sys, k: nat, d: DeliveryId)
    requires Leads(s, With(b, b.clock, k, d, Visible)) && Leaseable(b, d)
    ensures Leads(s, With(b, b.clock, k, d, Held(Acquiring(b.cells[d].d, b.clock, None))))
  {
    var fetched := Held(Fetched(Some(b.cells[d].d)));
    Reads(s, b, k, d);
    BranchIs(b, k, d);
    Moves(s, b, k, d, fetched, Read(DoBranch(k)), Branch(With(b, b.clock, k, d, fetched), k),
          Acquiring(b.cells[d].d, b.clock, None));
  }

  lemma LeaseReadLocal(b: Sys, k: nat, d: DeliveryId) returns (r: Delivery)
    requires Leaseable(b, d) && Local(With(b, b.clock, k, d, Held(Acquiring(b.cells[d].d, b.clock, None))), k)
    ensures LeasedFrom(b.cells[d].d, r, 0, 0, b.clock, b.clock + b.cells[d].d.timeoutMs + 5000)
    ensures var before := With(b, b.clock, k, d, Held(Acquiring(b.cells[d].d, b.clock, None)));
            AcquireFetch(before, k, 0, 0) == Some(Move(before, k, Acquiring(b.cells[d].d, b.clock, Some(r))))
  {
    r := AcquireGrants(With(b, b.clock, k, d, Held(Acquiring(b.cells[d].d, b.clock, None))), k, 0, 0);
  }

  lemma LeaseRead(s: Sys, b: Sys, k: nat, d: DeliveryId) returns (r: Delivery)
    requires Leaseable(b, d) && Leads(s, With(b, b.clock, k, d, Held(Acquiring(b.cells[d].d, b.clock, None))))
    ensures LeasedFrom(b.cells[d].d, r, 0, 0, b.clock, b.clock + b.cells[d].d.timeoutMs + 5000)
    ensures var before := With(b, b.clock, k, d, Held(Acquiring(b.cells[d].d, b.clock, None)));
            AcquireFetch(before, k, 0, 0) == Some(Move(before, k, Acquiring(b.cells[d].d, b.clock, Some(r))))
  {
    LeadsLocal(s, With(b, b.clock, k, d, Held(Acquiring(b.cells[d].d, b.clock, None))), k);
    r := LeaseReadLocal(b, k, d);
  }

  lemma ReadsLease(s: Sys, b: Sys, k: nat, d: DeliveryId) returns (r: Delivery)
    requires Leaseable(b, d) && Leads(s, With(b, b.clock, k, d, Held(Acquiring(b.cells[d].d, b.clock, None))))
    ensures LeasedFrom(b.cells[d].d, r, 0, 0, b.clock, b.clock + b.cells[d].d.timeoutMs + 5000)
    ensures Leads(s, With(b, b.clock, k, d, Held(Acquiring(b.cells[d].d, b.clock, Some(r)))))
  {
    var place := Held(Acquiring(b.cells[d].d, b.clock, None));
    var before := With(b, b.clock, k, d, place);
    r := LeaseRead(s, b, k, d);
    Moves(s, b, k, d, place, Acquire(DoAcquireFetch(k, 0, 0)), AcquireFetch(before, k, 0, 0),
          Acquiring(b.cells[d].d, b.clock, Some(r)));
  }

  lemma LeaseCommitted(s: Sys, b: Sys, k: nat, d: DeliveryId, r: Delivery) returns (c: Cell)
    requires Leaseable(b, d) && r.updatedAt == b.clock
    requires Leads(s, With(b, b.clock, k, d, Held(Acquiring(b.cells[d].d, b.clock, Some(r)))))
    ensures c.d == r && c.attempts == b.cells[d].attempts
    ensures var before := With(b, b.clock, k, d, Held(Acquiring(b.cells[d].d, b.clock, Some(r))));
            AcquireCommit(before, k) == Some(Move(before, k, Leased(r, b.clock, None, Holding)).(cell := Some((d, c))))
  {
    var before := With(b, b.clock, k, d, Held(Acquiring(b.cells[d].d, b.clock, Some(r))));
    LeadsLocal(s, before, k);
    AcquireCommitIsExact(before, k);
    c := AcquireCommit(before, k).value.cell.value.1;
  }

  lemma CommitsLease(s: Sys, b: Sys, k: nat, d: DeliveryId, r: Delivery) returns (c: Cell)
    requires Leaseable(b, d) && r.updatedAt == b.clock
    requires Leads(s, With(b, b.clock, k, d, Held(Acquiring(b.cells[d].d, b.clock, Some(r)))))
    ensures c.d == r && c.attempts == b.cells[d].attempts
    ensures Leads(s, With(b.(cells := b.cells[d := c]), b.clock, k, d, Held(Leased(r, b.clock, None, Holding))))
  {
    var place := Held(Acquiring(b.cells[d].d, b.clock, Some(r)));
    var before := With(b, b.clock, k, d, place);
    c := LeaseCommitted(s, b, k, d, r);
    Writes(s, b, k, d, place, Acquire(DoAcquireCommit(k)), AcquireCommit(before, k), Leased(r, b.clock, None, Holding), c);
  }

  /** From a visible message of a delivery that is due to its lease. */
  lemma Leases(s: Sys, b: Sys, k: nat, d: DeliveryId) returns (r: Delivery, c: Cell)
    requires Leaseable(b, d) && Leads(s, With(b, b.clock, k, d, Visible))
    ensures LeasedFrom(b.cells[d].d, r, 0, 0, b.clock, b.clock + b.cells[d].d.timeoutMs + 5000)
    ensures c.d == r && c.attempts == b.cells[d].attempts
    ensures Leads(s, With(b.(cells := b.cells[d := c]), b.clock, k, d, Held(Leased(r, b.clock, None, Holding))))
  {
    Begins(s, b, k, d);
    r := ReadsLease(s, b, k, d);
    c := CommitsLease(s, b, k, d, r);
  }

  // ---------------------------------------------------------------- the permits

  ghost predicate LetsPass(item: CB.Circuit, p: CB.CircuitPolicy, now: Time) {
    forall h :: !CB.AskCircuit(item, p, h, now).Refused?
  }

  /** Nobody would be refused by the circuit at this instant. */
  ghost predicate CircuitFree(s: Sys, x: DestinationId, now: Time) {
    x in s.policies && LetsPass(CircuitOf(s, x).item, s.policies[x].circuit, now)
  }

  predicate RateFree(s: Sys, x: DestinationId, now: Time) {
    x in s.policies && RL.RateLimitDecision(RateOf(s, x).item, s.policies[x].rate, now).Granted?
  }

  function Lessee(r: Delivery, now: Time, permit: Option<CB.CircuitPermit>, phase: Phase): Place {
    Held(Leased(r, now, permit, phase))
  }

  lemma CircuitAsked(b: Sys, k: nat, d: DeliveryId, r: Delivery, now: Time)
    requires d in b.cells && CircuitFree(b, r.destination, now)
    ensures var before, item := With(b, b.clock, k, d, Lessee(r, now, None, Holding)), CircuitOf(b, r.destination).item;
            match CB.AskCircuit(item, b.policies[r.destination].circuit, HolderOf(d, r), now)
            case Allowed =>
              CircuitAsk(before, k)
              == Some(Move(before, k, Leased(r, now, Some(CB.CircuitPermit(item, false)), Permitted)))
            case MayProbe(probe) =>
              CircuitAsk(before, k) == Some(Move(before, k, Leased(r, now, None, CircuitTry(item, probe))))
            case Refused(_) => false
  {
  }

  /** The circuit after this probe. */
  function Probed(b: Sys, d: DeliveryId, r: Delivery, now: Time, probe: CB.Circuit): Sys {
    b.(circuits := b.circuits[r.destination := CircuitRecord(
      probe, CircuitOf(b, r.destination).log + [CB.Probe(HolderOf(d, r), now)])])
  }

  lemma ProbeCommitted(b: Sys, k: nat, d: DeliveryId, r: Delivery, now: Time, probe: CB.Circuit)
    requires d in b.cells
    ensures var place := Lessee(r, now, None, CircuitTry(CircuitOf(b, r.destination).item, probe));
            var before, after := With(b, b.clock, k, d, place), Probed(b, d, r, now, probe);
            var e := CircuitCommit(before, k);
            && e.Some?
            && Apply(before, e.value)
               == With(after, after.clock, k, d, Lessee(r, now, Some(CB.CircuitPermit(probe, true)), Permitted))
  {
    var place := Lessee(r, now, None, CircuitTry(CircuitOf(b, r.destination).item, probe));
    var permitted := Msg(ToDelivery(d), Lessee(r, now, Some(CB.CircuitPermit(probe, true)), Permitted));
    assert b.msgs[k := Msg(ToDelivery(d), place)][k := permitted] == b.msgs[k := permitted];
  }

  lemma AllowedBy(s: Sys, b: Sys, k: nat, d: DeliveryId, r: Delivery, now: Time, permit: CB.CircuitPermit)
    requires Leads(s, With(b, b.clock, k, d, Lessee(r, now, None, Holding)))
    requires var before := With(b, b.clock, k, d, Lessee(r, now, None, Holding));
             CircuitAsk(before, k) == Some(Move(before, k, Leased(r, now, Some(permit), Permitted)))
    ensures Leads(s, With(b, b.clock, k, d, Lessee(r, now, Some(permit), Permitted)))
  {
    Moves(s, b, k, d, Lessee(r, now, None, Holding), Permit(DoCircuitAsk(k)),
          CircuitAsk(With(b, b.clock, k, d, Lessee(r, now, None, Holding)), k), Leased(r, now, Some(permit), Permitted));
  }

  lemma ProbesWith(s: Sys, b: Sys, k: nat, d: DeliveryId, r: Delivery, now: Time, probe: CB.Circuit)
    requires d in b.cells && Leads(s, With(b, b.clock, k, d, Lessee(r, now, None, Holding)))
    requires var before := With(b, b.clock, k, d, Lessee(r, now, None, Holding));
             CircuitAsk(before, k)
             == Some(Move(before, k, Leased(r, now, None, CircuitTry(CircuitOf(b, r.destination).item, probe))))
    ensures var after := Probed(b, d, r, now, probe);
            Leads(s, With(after, after.clock, k, d, Lessee(r, now, Some(CB.CircuitPermit(probe, true)), Permitted)))
  {
    Moves(s, b, k, d, Lessee(r, now, None, Holding), Permit(DoCircuitAsk(k)),
          CircuitAsk(With(b, b.clock, k, d, Lessee(r, now, None, Holding)), k),
          Leased(r, now, None, CircuitTry(CircuitOf(b, r.destination).item, probe)));
    CommitsProbe(s, b, k, d, r, now, probe);
  }

  /** The circuit lets the task pass, as it is or with a probe. */
  lemma PassesCircuit(s: Sys, b: Sys, k: nat, d: DeliveryId, r: Delivery, now: Time)
    returns (after: Sys, permit: CB.CircuitPermit)
    requires d in b.cells && CircuitFree(b, r.destination, now)
    requires Leads(s, With(b, b.clock, k, d, Lessee(r, now, None, Holding)))
    ensures after == b.(circuits := after.circuits)
    ensures permit.state.version == CircuitOf(after, r.destination).item.version
    ensures Leads(s, With(after, after.clock, k, d, Lessee(r, now, Some(permit), Permitted)))
  {
    var item := CircuitOf(b, r.destination).item;
    CircuitAsked(b, k, d, r, now);
    match CB.AskCircuit(item, b.policies[r.destination].circuit, HolderOf(d, r), now)
    case Allowed =>
      after, permit := b, CB.CircuitPermit(item, false);
      AllowedBy(s, b, k, d, r, now, permit);
    case MayProbe(probe) =>
      after, permit := Probed(b, d, r, now, probe), CB.CircuitPermit(probe, true);
      ProbesWith(s, b, k, d, r, now, probe);
  }

  lemma CommitsProbe(s: Sys, b: Sys, k: nat, d: DeliveryId, r: Delivery, now: Time, probe: CB.Circuit)
    requires d in b.cells
    requires Leads(s, With(b, b.clock, k, d, Lessee(r, now, None, CircuitTry(CircuitOf(b, r.destination).item, probe))))
    ensures var after := Probed(b, d, r, now, probe);
            Leads(s, With(after, after.clock, k, d, Lessee(r, now, Some(CB.CircuitPermit(probe, true)), Permitted)))
  {
    var after := Probed(b, d, r, now, probe);
    var before := With(b, b.clock, k, d, Lessee(r, now, None, CircuitTry(CircuitOf(b, r.destination).item, probe)));
    ProbeCommitted(b, k, d, r, now, probe);
    LeadsOn(s, before, Permit(DoCircuitCommit(k)), CircuitCommit(before, k),
            With(after, after.clock, k, d, Lessee(r, now, Some(CB.CircuitPermit(probe, true)), Permitted)));
  }

  function RateTaken(b: Sys, k: nat, x: DestinationId, now: Time, tat: Time): Sys {
    b.(rates := b.rates[x := RateRecord(
      Some(RL.RateState(tat, RateVersion(RateOf(b, x).item) + 1)), RateOf(b, x).log + [RL.Permit(k, now)])])
  }

  lemma RateAsked(b: Sys, k: nat, d: DeliveryId, r: Delivery, now: Time, permit: CB.CircuitPermit) returns (tat: Time)
    requires d in b.cells && RateFree(b, r.destination, now)
    ensures var before := With(b, b.clock, k, d, Lessee(r, now, Some(permit), Permitted));
            RateAsk(before, k) == Some(Move(before, k, Leased(r, now, Some(permit), RateTry(RateOf(b, r.destination).item, tat))))
  {
    tat := RL.RateLimitDecision(RateOf(b, r.destination).item, b.policies[r.destination].rate, now).tat;
  }

  lemma RateCommitted(b: Sys, k: nat, d: DeliveryId, r: Delivery, now: Time, permit: CB.CircuitPermit, tat: Time)
    requires d in b.cells
    ensures var place := Lessee(r, now, Some(permit), RateTry(RateOf(b, r.destination).item, tat));
            var before, after := With(b, b.clock, k, d, place), RateTaken(b, k, r.destination, now, tat);
            var e := RateCommit(before, k);
            e.Some? && Apply(before, e.value) == With(after, after.clock, k, d, Lessee(r, now, Some(permit), Ready))
  {
    var place := Lessee(r, now, Some(permit), RateTry(RateOf(b, r.destination).item, tat));
    var ready := Msg(ToDelivery(d), Lessee(r, now, Some(permit), Ready));
    assert b.msgs[k := Msg(ToDelivery(d), place)][k := ready] == b.msgs[k := ready];
  }

  lemma PassesRate(s: Sys, b: Sys, k: nat, d: DeliveryId, r: Delivery, now: Time, permit: CB.CircuitPermit)
    returns (after: Sys)
    requires d in b.cells && RateFree(b, r.destination, now)
    requires Leads(s, With(b, b.clock, k, d, Lessee(r, now, Some(permit), Permitted)))
    ensures after == b.(rates := after.rates)
    ensures Leads(s, With(after, after.clock, k, d, Lessee(r, now, Some(permit), Ready)))
  {
    var tat := RateAsked(b, k, d, r, now, permit);
    var permitted := With(b, b.clock, k, d, Lessee(r, now, Some(permit), Permitted));
    var trying := Leased(r, now, Some(permit), RateTry(RateOf(b, r.destination).item, tat));
    Moves(s, b, k, d, Lessee(r, now, Some(permit), Permitted), Permit(DoRateAsk(k)), RateAsk(permitted, k), trying);
    after := CommitsRate(s, b, k, d, r, now, permit, tat);
  }

  lemma CommitsRate(s: Sys, b: Sys, k: nat, d: DeliveryId, r: Delivery, now: Time, permit: CB.CircuitPermit, tat: Time)
    returns (after: Sys)
    requires d in b.cells
    requires Leads(s, With(b, b.clock, k, d, Lessee(r, now, Some(permit), RateTry(RateOf(b, r.destination).item, tat))))
    ensures after == b.(rates := after.rates)
    ensures Leads(s, With(after, after.clock, k, d, Lessee(r, now, Some(permit), Ready)))
  {
    after := RateTaken(b, k, r.destination, now, tat);
    var before := With(b, b.clock, k, d, Lessee(r, now, Some(permit), RateTry(RateOf(b, r.destination).item, tat)));
    RateCommitted(b, k, d, r, now, permit, tat);
    LeadsOn(s, before, Permit(DoRateCommit(k)), RateCommit(before, k),
            With(after, after.clock, k, d, Lessee(r, now, Some(permit), Ready)));
  }

  // ---------------------------------------------------------------- the attempt

  /** The attempt that is about to start. */
  function Beginning(now: Time): Attempt {
    Attempt(0, now, None, 0, AttemptStarted, None)
  }

  lemma Prepares(s: Sys, b: Sys, k: nat, d: DeliveryId, r: Delivery, now: Time, permit: CB.CircuitPermit)
    requires d in b.cells && Leads(s, With(b, b.clock, k, d, Lessee(r, now, Some(permit), Ready)))
    ensures Leads(s, With(b, b.clock, k, d, Lessee(r, now, Some(permit), Starting(Beginning(b.clock)))))
  {
    Moves(s, b, k, d, Lessee(r, now, Some(permit), Ready), Attempted(DoPrepare(k, 0)),
          Prepare(With(b, b.clock, k, d, Lessee(r, now, Some(permit), Ready)), k, 0),
          Leased(r, now, Some(permit), Starting(Beginning(b.clock))));
  }

  lemma StartLocal(b: Sys, k: nat, d: DeliveryId, r: Delivery, now: Time, permit: CB.CircuitPermit) returns (c: Cell)
    requires d in b.cells && b.cells[d].d.version == r.version
    requires Local(With(b, b.clock, k, d, Lessee(r, now, Some(permit), Starting(Beginning(b.clock)))), k)
    ensures c.d == r.(attemptCount := r.attemptCount + 1, activeAttempt := Some(0), version := r.version + 1,
                      updatedAt := b.clock)
    ensures var before := With(b, b.clock, k, d, Lessee(r, now, Some(permit), Starting(Beginning(b.clock))));
            StartCommit(before, k)
            == Some(Move(before, k, Attempting(c.d, permit, Beginning(b.clock), false)).(cell := Some((d, c))))
  {
    var before := With(b, b.clock, k, d, Lessee(r, now, Some(permit), Starting(Beginning(b.clock))));
    StartIsExact(before, k);
    c := StartCommit(before, k).value.cell.value.1;
  }

  lemma StartFrom(s: Sys, b: Sys, k: nat, d: DeliveryId, r: Delivery, now: Time, permit: CB.CircuitPermit)
    returns (c: Cell)
    requires d in b.cells && b.cells[d].d.version == r.version
    requires Leads(s, With(b, b.clock, k, d, Lessee(r, now, Some(permit), Starting(Beginning(b.clock)))))
    ensures c.d == r.(attemptCount := r.attemptCount + 1, activeAttempt := Some(0), version := r.version + 1,
                      updatedAt := b.clock)
    ensures var before := With(b, b.clock, k, d, Lessee(r, now, Some(permit), Starting(Beginning(b.clock))));
            StartCommit(before, k)
            == Some(Move(before, k, Attempting(c.d, permit, Beginning(b.clock), false)).(cell := Some((d, c))))
  {
    LeadsLocal(s, With(b, b.clock, k, d, Lessee(r, now, Some(permit), Starting(Beginning(b.clock)))), k);
    c := StartLocal(b, k, d, r, now, permit);
  }

  lemma Starts(s: Sys, b: Sys, k: nat, d: DeliveryId, r: Delivery, now: Time, permit: CB.CircuitPermit) returns (c: Cell)
    requires d in b.cells && b.cells[d].d.version == r.version
    requires Leads(s, With(b, b.clock, k, d, Lessee(r, now, Some(permit), Ready)))
    ensures c.d == r.(attemptCount := r.attemptCount + 1, activeAttempt := Some(0), version := r.version + 1,
                      updatedAt := b.clock)
    ensures Leads(s, With(b.(cells := b.cells[d := c]), b.clock, k, d,
                          Held(Attempting(c.d, permit, Beginning(b.clock), false))))
  {
    var place := Lessee(r, now, Some(permit), Starting(Beginning(b.clock)));
    Prepares(s, b, k, d, r, now, permit);
    c := StartFrom(s, b, k, d, r, now, permit);
    Writes(s, b, k, d, place, Attempted(DoStartCommit(k)), StartCommit(With(b, b.clock, k, d, place), k),
           Attempting(c.d, permit, Beginning(b.clock), false), c);
  }

  // ---------------------------------------------------------------- the end of an attempt

  /** A plan that can be committed in this state. */
  predicate Committable(b: Sys, k: nat, d: DeliveryId, plan: FinalPlan, write: Option<CircuitWrite>, n: nat) {
    && d in b.cells && b.cells[d].d.version == plan.snap.version && plan.final.updatedAt != plan.snap.updatedAt
    && (write.Some? ==> CircuitOf(b, plan.snap.destination).item.version == write.value.permit.state.version)
    && (plan.notBefore.Some? ==> (if plan.recovery then RecoveryRow(d, plan.snap.version) else Generated(n)) !in b.rows)
  }

  lemma FinalReads(s: Sys, b: Sys, k: nat, d: DeliveryId, plan: FinalPlan, write: Option<CircuitWrite>)
    returns (known: Reads)
    requires d in b.cells && Leads(s, With(b, b.clock, k, d, Held(Finalizing(plan, write, NoReads))))
    ensures plan.snap.event in b.events && known == ReadBoth(b.cells[d].d, b.events[plan.snap.event])
    ensures Leads(s, With(b, b.clock, k, d, Held(Finalizing(plan, write, known))))
  {
    var x := b.cells[d].d;
    var place0, place1 := Held(Finalizing(plan, write, NoReads)), Held(Finalizing(plan, write, ReadDelivery(x)));
    Moves(s, b, k, d, place0, Finish(DoFinalFetch(k)), FinalFetch(With(b, b.clock, k, d, place0), k), place1.task);
    EventThere(s, b, k, d, plan, write);
    known := ReadBoth(x, b.events[plan.snap.event]);
    Moves(s, b, k, d, place1, Finish(DoFinalFetchEvent(k)), FinalFetchEvent(With(b, b.clock, k, d, place1), k),
          Finalizing(plan, write, known));
  }

  lemma EventLocal(t: Sys, k: nat)
    requires Local(t, k) && TaskOf(t, k).Finalizing?
    ensures TaskOf(t, k).plan.snap.event in t.events
  {
  }

  lemma EventThere(s: Sys, b: Sys, k: nat, d: DeliveryId, plan: FinalPlan, write: Option<CircuitWrite>)
    requires d in b.cells && Leads(s, With(b, b.clock, k, d, Held(Finalizing(plan, write, NoReads))))
    ensures plan.snap.event in b.events
  {
    LeadsLocal(s, With(b, b.clock, k, d, Held(Finalizing(plan, write, NoReads))), k);
    EventLocal(With(b, b.clock, k, d, Held(Finalizing(plan, write, NoReads))), k);
  }

  lemma FinalEnabled(b: Sys, k: nat, d: DeliveryId, plan: FinalPlan, write: Option<CircuitWrite>, known: Reads, n: nat)
    requires Committable(b, k, d, plan, write, n) && plan.snap.event in b.events
    requires known == ReadBoth(b.cells[d].d, b.events[plan.snap.event])
    requires var t := With(b, b.clock, k, d, Held(Finalizing(plan, write, known))); Local(t, k) && Exact(t)
    ensures FinalCommit(With(b, b.clock, k, d, Held(Finalizing(plan, write, known))), k, n, 0).Some?
  {
    var before := With(b, b.clock, k, d, Held(Finalizing(plan, write, known)));
    FinalIsExact(before, k, n, 0);
    assert FinalItemsCurrent(before, k, n);
  }

  lemma FinalLeaves(t: Sys, k: nat, n: nat)
    requires FinalCommit(t, k, n, 0).Some?
    ensures var e := FinalCommit(t, k, n, 0).value;
            e.clock == t.clock && e.cell.Some? && e.cell.value.0 == Id(t, k) && e.cell.value.1.d == TaskOf(t, k).plan.final
  {
  }

  lemma FinalLocal(b: Sys, k: nat, d: DeliveryId, plan: FinalPlan, write: Option<CircuitWrite>, known: Reads, n: nat)
    returns (e: Effect)
    requires Committable(b, k, d, plan, write, n) && plan.snap.event in b.events
    requires known == ReadBoth(b.cells[d].d, b.events[plan.snap.event])
    requires var t := With(b, b.clock, k, d, Held(Finalizing(plan, write, known))); Local(t, k) && Exact(t)
    ensures FinalCommit(With(b, b.clock, k, d, Held(Finalizing(plan, write, known))), k, n, 0) == Some(e)
    ensures e.clock == b.clock && e.cell.Some? && e.cell.value.0 == d && e.cell.value.1.d == plan.final
  {
    var before := With(b, b.clock, k, d, Held(Finalizing(plan, write, known)));
    FinalEnabled(b, k, d, plan, write, known, n);
    FinalLeaves(before, k, n);
    e := FinalCommit(before, k, n, 0).value;
  }

  lemma FinalFrom(s: Sys, b: Sys, k: nat, d: DeliveryId, plan: FinalPlan, write: Option<CircuitWrite>, known: Reads, n: nat)
    returns (e: Effect)
    requires Committable(b, k, d, plan, write, n) && plan.snap.event in b.events
    requires known == ReadBoth(b.cells[d].d, b.events[plan.snap.event])
    requires Leads(s, With(b, b.clock, k, d, Held(Finalizing(plan, write, known))))
    ensures FinalCommit(With(b, b.clock, k, d, Held(Finalizing(plan, write, known))), k, n, 0) == Some(e)
    ensures e.clock == b.clock && e.cell.Some? && e.cell.value.0 == d && e.cell.value.1.d == plan.final
  {
    LeadsLocal(s, With(b, b.clock, k, d, Held(Finalizing(plan, write, known))), k);
    e := FinalLocal(b, k, d, plan, write, known, n);
  }

  /** The finalization is committed. */
  lemma Finalizes(s: Sys, b: Sys, k: nat, d: DeliveryId, plan: FinalPlan, write: Option<CircuitWrite>, n: nat)
    returns (t: Sys)
    requires Committable(b, k, d, plan, write, n)
    requires Leads(s, With(b, b.clock, k, d, Held(Finalizing(plan, write, NoReads))))
    ensures Leads(s, t) && d in t.cells && t.cells[d].d == plan.final && t.policies == b.policies && t.clock == b.clock
  {
    var known := FinalReads(s, b, k, d, plan, write);
    var e := FinalFrom(s, b, k, d, plan, write, known, n);
    t := Commits(s, With(b, b.clock, k, d, Held(Finalizing(plan, write, known))), k, n, d, e);
  }

  lemma Commits(s: Sys, before: Sys, k: nat, n: nat, d: DeliveryId, e: Effect) returns (t: Sys)
    requires Leads(s, before) && FinalCommit(before, k, n, 0) == Some(e) && e.cell.Some? && e.cell.value.0 == d
    ensures Leads(s, t) && d in t.cells && t.cells[d] == e.cell.value.1 && t.policies == before.policies && t.clock == e.clock
  {
    t := Apply(before, e);
    LeadsOn(s, before, Finish(DoFinalCommit(k, n, 0)), Some(e), t);
  }

  /** Time passes. */
  lemma Waits(s: Sys, b: Sys, k: nat, d: DeliveryId, place: Place, now: Time)
    requires Leads(s, With(b, b.clock, k, d, place)) && now >= b.clock
    ensures Leads(s, With(b.(clock := now), now, k, d, place))
  {
    var before := With(b, b.clock, k, d, place);
    LeadsOn(s, before, Queue(DoTick(now)), Tick(before, now), With(b.(clock := now), now, k, d, place));
  }

  lemma CallIs(b: Sys, k: nat, d: DeliveryId, x: Delivery, permit: CB.CircuitPermit, a: Attempt)
    requires d in b.cells
    ensures var before := With(b, b.clock, k, d, Held(Attempting(x, permit, a, false)));
            var after := b.(sends := b.sends + [(d, x.attemptCount)]);
            && Send(before, k).Some?
            && Apply(before, Send(before, k).value) == With(after, after.clock, k, d, Held(Attempting(x, permit, a, true)))
  {
    var before := With(b, b.clock, k, d, Held(Attempting(x, permit, a, false)));
    var sent := Msg(ToDelivery(d), Held(Attempting(x, permit, a, true)));
    assert before.msgs[k := sent] == b.msgs[k := sent];
  }

  lemma Calls(s: Sys, b: Sys, k: nat, d: DeliveryId, x: Delivery, permit: CB.CircuitPermit, a: Attempt)
    requires d in b.cells && Leads(s, With(b, b.clock, k, d, Held(Attempting(x, permit, a, false))))
    ensures var after := b.(sends := b.sends + [(d, x.attemptCount)]);
            Leads(s, With(after, after.clock, k, d, Held(Attempting(x, permit, a, true))))
  {
    var before, after := With(b, b.clock, k, d, Held(Attempting(x, permit, a, false))), b.(sends := b.sends + [(d, x.attemptCount)]);
    CallIs(b, k, d, x, permit, a);
    LeadsOn(s, before, Attempted(DoSend(k)), Send(before, k),
            With(after, after.clock, k, d, Held(Attempting(x, permit, a, true))));
  }

  lemma AnswerLocal(b: Sys, k: nat, d: DeliveryId, x: Delivery, permit: CB.CircuitPermit, a: Attempt) returns (plan: FinalPlan)
    requires d in b.cells && Local(With(b, b.clock, k, d, Held(Attempting(x, permit, a, true))), k)
    ensures plan.snap == x && plan.final.state == Succeeded && plan.final.updatedAt == b.clock && plan.notBefore.None?
    ensures var before := With(b, b.clock, k, d, Held(Attempting(x, permit, a, true)));
            Respond(before, k, Status(200), 0.0, None)
            == Some(Move(before, k, Finalizing(plan, Some(CircuitWrite(permit, true, false, b.clock)), NoReads)))
  {
    PlanResultOk(x, a, b.clock, Status(200), 0.0, None);
    plan := PlanResult(x, a, b.clock, ClassifyDeliveryResult(Status(200)), 0.0, None).value;
  }

  lemma Answered(s: Sys, b: Sys, k: nat, d: DeliveryId, x: Delivery, permit: CB.CircuitPermit, a: Attempt)
    returns (plan: FinalPlan)
    requires d in b.cells && Leads(s, With(b, b.clock, k, d, Held(Attempting(x, permit, a, true))))
    ensures plan.snap == x && plan.final.state == Succeeded && plan.final.updatedAt == b.clock && plan.notBefore.None?
    ensures var before := With(b, b.clock, k, d, Held(Attempting(x, permit, a, true)));
            Respond(before, k, Status(200), 0.0, None)
            == Some(Move(before, k, Finalizing(plan, Some(CircuitWrite(permit, true, false, b.clock)), NoReads)))
  {
    LeadsLocal(s, With(b, b.clock, k, d, Held(Attempting(x, permit, a, true))), k);
    plan := AnswerLocal(b, k, d, x, permit, a);
  }

  /** The partner is called and answers that all is well. */
  lemma Succeeds(s: Sys, b: Sys, k: nat, d: DeliveryId, x: Delivery, permit: CB.CircuitPermit, a: Attempt) returns (t: Sys)
    requires d in b.cells && b.cells[d].d == x && x.updatedAt <= b.clock
    requires CircuitOf(b, x.destination).item.version == permit.state.version
    requires Leads(s, With(b, b.clock, k, d, Held(Attempting(x, permit, a, false))))
    ensures Leads(s, t) && d in t.cells && t.cells[d].d.state == Succeeded
  {
    var called := b.(sends := b.sends + [(d, x.attemptCount)]);
    Calls(s, b, k, d, x, permit, a);
    Waits(s, called, k, d, Held(Attempting(x, permit, a, true)), b.clock + 1);
    var later := called.(clock := b.clock + 1);
    var plan := Answered(s, later, k, d, x, permit, a);
    var write := Some(CircuitWrite(permit, true, false, later.clock));
    Responds(s, later, k, d, x, permit, a, plan, write);
    t := Finalizes(s, later, k, d, plan, write, 0);
  }

  lemma Responds(
    s: Sys, b: Sys, k: nat, d: DeliveryId, x: Delivery, permit: CB.CircuitPermit, a: Attempt,
    plan: FinalPlan, write: Option<CircuitWrite>)
    requires Leads(s, With(b, b.clock, k, d, Held(Attempting(x, permit, a, true))))
    requires var before := With(b, b.clock, k, d, Held(Attempting(x, permit, a, true)));
             Respond(before, k, Status(200), 0.0, None) == Some(Move(before, k, Finalizing(plan, write, NoReads)))
    ensures Leads(s, With(b, b.clock, k, d, Held(Finalizing(plan, write, NoReads))))
  {
    var place := Held(Attempting(x, permit, a, true));
    Moves(s, b, k, d, place, Attempted(DoRespond(k, Status(200), 0.0, None)),
          Respond(With(b, b.clock, k, d, place), k, Status(200), 0.0, None), Finalizing(plan, write, NoReads));
  }

  lemma FreeFrame(b: Sys, c: Sys, x: DestinationId, now: Time)
    requires c.policies == b.policies && x in b.policies
    ensures c.circuits == b.circuits && CircuitFree(b, x, now) ==> CircuitFree(c, x, now)
    ensures c.rates == b.rates && RateFree(b, x, now) ==> RateFree(c, x, now)
  {
  }

  /** From the lease to the permission to start an attempt. */
  lemma PassesPermits(s: Sys, b: Sys, k: nat, d: DeliveryId, r: Delivery, now: Time)
    returns (after: Sys, permit: CB.CircuitPermit)
    requires d in b.cells && CircuitFree(b, r.destination, now) && RateFree(b, r.destination, now)
    requires Leads(s, With(b, b.clock, k, d, Lessee(r, now, None, Holding)))
    ensures after == b.(circuits := after.circuits, rates := after.rates)
    ensures permit.state.version == CircuitOf(after, r.destination).item.version
    ensures Leads(s, With(after, after.clock, k, d, Lessee(r, now, Some(permit), Ready)))
  {
    var passed;
    passed, permit := PassesCircuit(s, b, k, d, r, now);
    FreeFrame(b, passed, r.destination, now);
    after := PassesRate(s, passed, k, d, r, now, permit);
  }

  /** From there to the success of the attempt. */
  lemma Attempts(s: Sys, b: Sys, k: nat, d: DeliveryId, r: Delivery, permit: CB.CircuitPermit) returns (t: Sys)
    requires d in b.cells && b.cells[d].d.version == r.version
    requires permit.state.version == CircuitOf(b, r.destination).item.version
    requires Leads(s, With(b, b.clock, k, d, Lessee(r, b.clock, Some(permit), Ready)))
    ensures Leads(s, t) && d in t.cells && t.cells[d].d.state == Succeeded
  {
    var c := Starts(s, b, k, d, r, b.clock, permit);
    t := Succeeds(s, b.(cells := b.cells[d := c]), k, d, c.d, permit, Beginning(b.clock));
  }

  /** From a visible message of a delivery that is due to its success, if nobody is in the way. */
  lemma Delivers(s: Sys, b: Sys, k: nat, d: DeliveryId) returns (t: Sys)
    requires Leaseable(b, d) && Leads(s, With(b, b.clock, k, d, Visible))
    requires CircuitFree(b, b.cells[d].d.destination, b.clock) && RateFree(b, b.cells[d].d.destination, b.clock)
    ensures Leads(s, t) && d in t.cells && t.cells[d].d.state == Succeeded
  {
    var r, c := Leases(s, b, k, d);
    var leased := b.(cells := b.cells[d := c]);
    FreeFrame(b, leased, r.destination, b.clock);
    var ready, permit := PassesPermits(s, leased, k, d, r, b.clock);
    t := Attempts(s, ready, k, d, r, permit);
  }

  // ---------------------------------------------------------------- a message, and the right time

  function Max(a: Time, b: Time): Time {
    if a >= b then a else b
  }

  /** From some time on the circuit and the rate limiter let everybody pass, if nothing is written to them. */
  lemma FreeFrom(s: Sys, x: DestinationId) returns (from: Time)
    requires DestinationOk(s, x) && x in s.policies
    ensures forall now :: now >= from ==> CircuitFree(s, x, now) && RateFree(s, x, now)
  {
    var item, g := CircuitOf(s, x).item, s.policies[x].rate;
    var cooled := if item.nextProbeAt.Some? then item.nextProbeAt.value else 0;
    var expired := if item.probeExpiresAt.Some? then item.probeExpiresAt.value else 0;
    var tat := if RateOf(s, x).item.Some? then RateOf(s, x).item.value.tat else 0;
    from := Max(Max(cooled, expired), tat);
    RL.StepsAdd(g, 0, g.burst - 1);
    forall now | now >= from ensures CircuitFree(s, x, now) && RateFree(s, x, now) {
      RL.AbsentIsGranted(g, now);
    }
  }

  lemma RowIsSent(b: Sys, r: RowId, k: nat, d: DeliveryId)
    requires r in b.rows && k !in b.msgs && b.rows[r].target == ToDelivery(d)
    requires b.rows[r].schedule.Some? ==> b.rows[r].schedule.value - b.clock <= 900_000
    ensures var after := b.(rows := b.rows[r := b.rows[r].(sent := true)]);
            SendRow(b, r, k).Some? && Apply(b, SendRow(b, r, k).value) == With(after, after.clock, k, d, Visible)
  {
  }

  lemma WorkIsSent(b: Sys, r: RowId, k: nat, d: DeliveryId)
    requires r in b.work && k !in b.msgs && b.work[r].d == d && b.work[r].notBefore <= b.clock
    ensures var after := b.(work := b.work[r := b.work[r].(sent := true)]);
            SendWork(b, r, k).Some? && Apply(b, SendWork(b, r, k).value) == With(after, after.clock, k, d, Visible)
  {
  }

  lemma CopyIsMade(b: Sys, m: nat, k: nat, d: DeliveryId)
    requires m in b.msgs && b.msgs[m].target == ToDelivery(d) && k !in b.msgs
    ensures Duplicate(b, m, k).Some? && Apply(b, Duplicate(b, m, k).value) == With(b, b.clock, k, d, Visible)
  {
  }

  /** Nothing is different but the time, the messages and what has been sent. */
  predicate SameRecords(t: Sys, b: Sys) {
    && b.cells == t.cells && b.events == t.events && b.policies == t.policies
    && b.circuits == t.circuits && b.rates == t.rates && b.clock >= t.clock
  }

  lemma Ticks(s: Sys, t: Sys, now: Time)
    requires Leads(s, t) && now >= t.clock
    ensures Leads(s, t.(clock := now))
  {
    LeadsOn(s, t, Queue(DoTick(now)), Tick(t, now), t.(clock := now));
  }

  lemma SendsRowNow(s: Sys, b: Sys, r: RowId, d: DeliveryId, k: nat)
    requires Leads(s, b) && r in b.rows && b.rows[r].target == ToDelivery(d) && k !in b.msgs
    requires b.rows[r].schedule.Some? ==> b.rows[r].schedule.value - b.clock <= 900_000
    ensures var after := b.(rows := b.rows[r := b.rows[r].(sent := true)]);
            Leads(s, With(after, after.clock, k, d, Visible))
  {
    var after := b.(rows := b.rows[r := b.rows[r].(sent := true)]);
    RowIsSent(b, r, k, d);
    LeadsOn(s, b, Publish(DoSendRow(r, k)), SendRow(b, r, k), With(after, after.clock, k, d, Visible));
  }

  lemma SendsRowAt(s: Sys, t: Sys, r: RowId, d: DeliveryId, k: nat, now: Time) returns (b: Sys)
    requires Leads(s, t) && r in t.rows && t.rows[r].target == ToDelivery(d) && k !in t.msgs && now >= t.clock
    requires t.rows[r].schedule.Some? ==> t.rows[r].schedule.value <= now
    ensures SameRecords(t, b) && Leads(s, With(b, b.clock, k, d, Visible))
  {
    Ticks(s, t, now);
    SendsRowNow(s, t.(clock := now), r, d, k);
    b := t.(clock := now, rows := t.rows[r := t.rows[r].(sent := true)]);
  }

  lemma SendsRow(s: Sys, t: Sys, r: RowId, d: DeliveryId, k: nat) returns (b: Sys)
    requires Leads(s, t) && r in t.rows && t.rows[r].target == ToDelivery(d) && k !in t.msgs
    ensures SameRecords(t, b) && Leads(s, With(b, b.clock, k, d, Visible))
  {
    b := SendsRowAt(s, t, r, d, k, if t.rows[r].schedule.Some? then Max(t.clock, t.rows[r].schedule.value) else t.clock);
  }

  lemma SendsWork(s: Sys, t: Sys, r: RowId, d: DeliveryId, k: nat) returns (b: Sys)
    requires Leads(s, t) && r in t.work && t.work[r].d == d && k !in t.msgs
    ensures SameRecords(t, b) && Leads(s, With(b, b.clock, k, d, Visible))
  {
    var later := t.(clock := Max(t.clock, t.work[r].notBefore));
    Ticks(s, t, later.clock);
    WorkIsSent(later, r, k, d);
    b := later.(work := later.work[r := later.work[r].(sent := true)]);
    LeadsOn(s, later, Publish(DoSendWork(r, k)), SendWork(later, r, k), With(b, b.clock, k, d, Visible));
  }

  lemma Copies(s: Sys, t: Sys, m: nat, d: DeliveryId, k: nat)
    requires Leads(s, t) && m in t.msgs && t.msgs[m].target == ToDelivery(d) && k !in t.msgs
    ensures Leads(s, With(t, t.clock, k, d, Visible))
  {
    CopyIsMade(t, m, k, d);
    LeadsOn(s, t, Queue(DoDuplicate(m, k)), Duplicate(t, m, k), With(t, t.clock, k, d, Visible));
  }

  lemma SomeCarrier(s: Sys, t: Sys, d: DeliveryId) returns (w: Witness)
    requires Leads(s, t) && d in t.cells && !Terminal(t.cells[d].d.state)
    ensures Carries(t, d, w)
  {
    LeadsToReachable(s, t);
    ReachableIsSound(t);
    assert Carried(t, d);
    w :| Carries(t, d, w);
  }

  /** Whatever carries a delivery can become a message that a worker may receive. */
  lemma Woken(s: Sys, t: Sys, d: DeliveryId) returns (b: Sys, k: nat)
    requires Leads(s, t) && d in t.cells && !Terminal(t.cells[d].d.state)
    ensures SameRecords(t, b) && Leads(s, With(b, b.clock, k, d, Visible))
  {
    var w := SomeCarrier(s, t, d);
    k := Unused(t.msgs.Keys);
    match w
    case ByRow(r) => b := SendsRow(s, t, r, d, k);
    case ByWork(r) => b := SendsWork(s, t, r, d, k);
    case ByMsg(m) =>
      b := t;
      Copies(s, t, m, d, k);
  }

  /** It can be received as late as one likes. */
  lemma WokenLate(s: Sys, t: Sys, d: DeliveryId, now: Time) returns (b: Sys, k: nat)
    requires Leads(s, t) && d in t.cells && !Terminal(t.cells[d].d.state)
    ensures SameRecords(t, b) && b.clock >= now && Leads(s, With(b, b.clock, k, d, Visible))
  {
    var a;
    a, k := Woken(s, t, d);
    var at := Max(a.clock, now);
    Waits(s, a, k, d, Visible, at);
    b := a.(clock := at);
  }

  // ---------------------------------------------------------------- recovery

  lemma FindsLapse(s: Sys, b: Sys, k: nat, d: DeliveryId)
    requires d in b.cells && LeaseExpired(b.cells[d].d, b.clock) && Leads(s, With(b, b.clock, k, d, Visible))
    ensures Leads(s, With(b, b.clock, k, d, Held(Recovering(b.cells[d].d, b.clock, false))))
  {
    var fetched := Held(Fetched(Some(b.cells[d].d)));
    Reads(s, b, k, d);
    Moves(s, b, k, d, fetched, Read(DoBranch(k)), Branch(With(b, b.clock, k, d, fetched), k),
          Recovering(b.cells[d].d, b.clock, false));
  }

  lemma SeesLapse(s: Sys, b: Sys, k: nat, d: DeliveryId)
    requires d in b.cells && LeaseExpired(b.cells[d].d, b.clock) && Leads(s, With(b, b.clock, k, d, Visible))
    ensures Leads(s, With(b, b.clock, k, d, Held(Recovering(b.cells[d].d, b.clock, true))))
  {
    var outside := Held(Recovering(b.cells[d].d, b.clock, false));
    FindsLapse(s, b, k, d);
    Moves(s, b, k, d, outside, Read(DoRecoverFetch(k)), RecoverFetch(With(b, b.clock, k, d, outside), k),
          Recovering(b.cells[d].d, b.clock, true));
  }

  lemma NextRowFree(t: Sys, d: DeliveryId)
    requires RowsInv(t) && d in t.cells
    ensures RecoveryRow(d, t.cells[d].d.version) !in t.rows
  {
    assert forall r :: r in t.rows ==> RowIdOk(t, r);
  }

  lemma LeadsRows(s: Sys, t: Sys)
    requires Leads(s, t)
    ensures RowsInv(t)
  {
    LeadsToReachable(s, t);
    ReachableIsSound(t);
  }

  lemma RecoveryRowFree(s: Sys, b: Sys, k: nat, d: DeliveryId, place: Place)
    requires Leads(s, With(b, b.clock, k, d, place)) && d in b.cells
    ensures RecoveryRow(d, b.cells[d].d.version) !in b.rows
  {
    LeadsRows(s, With(b, b.clock, k, d, place));
    NextRowFree(With(b, b.clock, k, d, place), d);
  }

  lemma PlansReturn(s: Sys, b: Sys, k: nat, d: DeliveryId)
    requires Lapsed(b, d) && Leads(s, With(b, b.clock, k, d, Held(Recovering(b.cells[d].d, b.clock, true))))
    ensures Leads(s, With(b, b.clock, k, d, Held(Deferring(BackPlan(b.cells[d].d, b.clock), None))))
  {
    var inside := Held(Recovering(b.cells[d].d, b.clock, true));
    InspectPlans(b, k, d);
    Moves(s, b, k, d, inside, Read(DoRecoverInspect(k, 0.0)),
          Some(Move(With(b, b.clock, k, d, inside), k, Deferring(BackPlan(b.cells[d].d, b.clock), None))),
          Deferring(BackPlan(b.cells[d].d, b.clock), None));
  }

  lemma ReadsReturn(s: Sys, b: Sys, k: nat, d: DeliveryId, plan: DeferPlan)
    requires d in b.cells && Leads(s, With(b, b.clock, k, d, Held(Deferring(plan, None))))
    ensures Leads(s, With(b, b.clock, k, d, Held(Deferring(plan, Some(b.cells[d].d)))))
  {
    Moves(s, b, k, d, Held(Deferring(plan, None)), Finish(DoDeferFetch(k)),
          DeferFetch(With(b, b.clock, k, d, Held(Deferring(plan, None))), k), Deferring(plan, Some(b.cells[d].d)));
  }

  lemma CommitsReturn(s: Sys, b: Sys, k: nat, d: DeliveryId) returns (t: Sys)
    requires Lapsed(b, d) && b.cells[d].d.updatedAt < b.clock && RecoveryRow(d, b.cells[d].d.version) !in b.rows
    requires Leads(s, With(b, b.clock, k, d, Held(Deferring(BackPlan(b.cells[d].d, b.clock), Some(b.cells[d].d)))))
    ensures Leads(s, t) && d in t.cells && t.policies == b.policies && t.cells[d].d == BackPlan(b.cells[d].d, b.clock).next
  {
    var before := With(b, b.clock, k, d, Held(Deferring(BackPlan(b.cells[d].d, b.clock), Some(b.cells[d].d))));
    BackCommits(b, k, d);
    var e := StepEffect(before, Finish(DoDeferCommit(k, 0)));
    t := Apply(before, e.value);
    LeadsOn(s, before, Finish(DoDeferCommit(k, 0)), e, t);
  }

  /** A lease without an attempt is given back. */
  lemma RecoversIdle(s: Sys, b: Sys, k: nat, d: DeliveryId) returns (t: Sys)
    requires Lapsed(b, d) && b.cells[d].d.updatedAt < b.clock && Leads(s, With(b, b.clock, k, d, Visible))
    ensures Leads(s, t) && d in t.cells && t.policies == b.policies && t.cells[d].d == BackPlan(b.cells[d].d, b.clock).next
  {
    RecoveryRowFree(s, b, k, d, Visible);
    SeesLapse(s, b, k, d);
    PlansReturn(s, b, k, d);
    ReadsReturn(s, b, k, d, BackPlan(b.cells[d].d, b.clock));
    t := CommitsReturn(s, b, k, d);
  }

  lemma TimeoutLocal(b: Sys, k: nat, d: DeliveryId) returns (plan: FinalPlan)
    requires d in b.cells && Local(With(b, b.clock, k, d, Held(Recovering(b.cells[d].d, b.clock, true))), k)
    requires b.cells[d].d.state == InProgress && b.cells[d].d.activeAttempt.Some?
    ensures plan.snap == b.cells[d].d && plan.recovery && plan.final.updatedAt == b.clock
    ensures plan.final.destination == plan.snap.destination && plan.final.lease.None? && plan.final.activeAttempt.None?
    ensures plan.final.state == if plan.snap.attemptCount == plan.snap.maxAttempts then DeadLettered else RetryScheduled
    ensures var before := With(b, b.clock, k, d, Held(Recovering(b.cells[d].d, b.clock, true)));
            RecoverInspect(before, k, 0.0) == Some(Move(before, k, Finalizing(plan, None, NoReads)))
  {
    var c := b.cells[d];
    assert CellInv(c, b.clock);
    PlanTimeoutOk(c.d, c.attempts[c.d.attemptCount], b.clock, 0.0);
    plan := PlanTimeout(c.d, c.attempts[c.d.attemptCount], b.clock, 0.0).value;
  }

  lemma TimesOut(s: Sys, b: Sys, k: nat, d: DeliveryId) returns (plan: FinalPlan)
    requires d in b.cells && Leads(s, With(b, b.clock, k, d, Held(Recovering(b.cells[d].d, b.clock, true))))
    requires b.cells[d].d.state == InProgress && b.cells[d].d.activeAttempt.Some?
    ensures plan.snap == b.cells[d].d && plan.recovery && plan.final.updatedAt == b.clock
    ensures plan.final.destination == plan.snap.destination && plan.final.lease.None? && plan.final.activeAttempt.None?
    ensures plan.final.state == if plan.snap.attemptCount == plan.snap.maxAttempts then DeadLettered else RetryScheduled
    ensures var before := With(b, b.clock, k, d, Held(Recovering(b.cells[d].d, b.clock, true)));
            RecoverInspect(before, k, 0.0) == Some(Move(before, k, Finalizing(plan, None, NoReads)))
  {
    LeadsLocal(s, With(b, b.clock, k, d, Held(Recovering(b.cells[d].d, b.clock, true))), k);
    plan := TimeoutLocal(b, k, d);
  }

  /** An attempt that nobody finished is finished as a timeout. */
  lemma RecoversActive(s: Sys, b: Sys, k: nat, d: DeliveryId) returns (t: Sys)
    requires d in b.cells && LeaseExpired(b.cells[d].d, b.clock) && b.cells[d].d.activeAttempt.Some?
    requires b.cells[d].d.updatedAt < b.clock && Leads(s, With(b, b.clock, k, d, Visible))
    ensures Leads(s, t) && d in t.cells && t.policies == b.policies
    ensures t.cells[d].d.destination == b.cells[d].d.destination
    ensures t.cells[d].d.state == if b.cells[d].d.attemptCount == b.cells[d].d.maxAttempts then DeadLettered else RetryScheduled
  {
    var inside := Held(Recovering(b.cells[d].d, b.clock, true));
    RecoveryRowFree(s, b, k, d, Visible);
    SeesLapse(s, b, k, d);
    var plan := TimesOut(s, b, k, d);
    Moves(s, b, k, d, inside, Read(DoRecoverInspect(k, 0.0)), RecoverInspect(With(b, b.clock, k, d, inside), k, 0.0),
          Finalizing(plan, None, NoReads));
    t := Finalizes(s, b, k, d, plan, None, 0);
  }

  // ---------------------------------------------------------------- the theorem

  /** The time from which on a delivery that waits can be leased. */
  function DueFrom(x: Delivery): Time {
    Max(x.updatedAt + 1, if x.nextEligibleAt.Some? then x.nextEligibleAt.value else 0)
  }

  /** A delivery that waits, for its first attempt or a retry, can be made to succeed. */
  lemma WaitingSucceeds(s: Sys, t: Sys, d: DeliveryId) returns (u: Sys)
    requires Leads(s, t) && d in t.cells && t.cells[d].d.destination in t.policies
    requires t.cells[d].d.state == Scheduled || t.cells[d].d.state == RetryScheduled
    ensures Leads(s, u) && d in u.cells && u.cells[d].d.state == Succeeded
  {
    var x := t.cells[d].d.destination;
    LeadsDestination(s, t, x);
    var from := FreeFrom(t, x);
    var b, k := WokenLate(s, t, d, Max(from, DueFrom(t.cells[d].d)));
    FreeFrame(t, b, x, b.clock);
    u := Delivers(s, b, k, d);
  }

  /** A leased delivery can be taken back. */
  lemma LeasedReturns(s: Sys, t: Sys, d: DeliveryId) returns (u: Sys)
    requires Leads(s, t) && d in t.cells && t.cells[d].d.state == InProgress && t.cells[d].d.lease.Some?
    ensures Leads(s, u) && d in u.cells && u.policies == t.policies
    ensures u.cells[d].d.destination == t.cells[d].d.destination
    ensures u.cells[d].d.state
            == if t.cells[d].d.activeAttempt.None? then Scheduled
               else if t.cells[d].d.attemptCount == t.cells[d].d.maxAttempts then DeadLettered
               else RetryScheduled
  {
    var x := t.cells[d].d;
    var b, k := WokenLate(s, t, d, Max(x.lease.value.expiresAt, x.updatedAt + 1));
    if x.activeAttempt.None? {
      u := RecoversIdle(s, b, k, d);
    } else {
      u := RecoversActive(s, b, k, d);
    }
  }

  lemma StatesOf(s: Sys, d: DeliveryId)
    requires Reachable(s) && d in s.cells && !Terminal(s.cells[d].d.state)
    ensures s.cells[d].d.state in {Scheduled, RetryScheduled, RateLimited, InProgress}
    ensures s.cells[d].d.state == InProgress ==> s.cells[d].d.lease.Some?
    ensures s.cells[d].d.activeAttempt.Some? ==> s.cells[d].d.state == InProgress
  {
    ReachableIsSound(s);
    assert CellInv(s.cells[d], s.clock);
  }

  /** Whatever has happened so far, races, crashes and lost leases included: every delivery that is neither
      finished nor rate-limited can still be finished. It can still succeed, unless its last attempt is under
      way and would have to be recovered. */
  lemma CanFinish(s: Sys, d: DeliveryId) returns (steps: seq<Step>, t: Sys)
    requires Reachable(s) && d in s.cells && !Terminal(s.cells[d].d.state) && s.cells[d].d.state != RateLimited
    requires s.cells[d].d.destination in s.policies
    ensures Run(s, steps, t) && d in t.cells
    ensures t.cells[d].d.state
            == if s.cells[d].d.activeAttempt.Some? && s.cells[d].d.attemptCount == s.cells[d].d.maxAttempts
               then DeadLettered else Succeeded
  {
    LeadsHere(s);
    StatesOf(s, d);
    t := FinishesFrom(s, d);
    steps :| Run(s, steps, t);
  }

  lemma FinishesFrom(s: Sys, d: DeliveryId) returns (t: Sys)
    requires Leads(s, s) && d in s.cells && s.cells[d].d.state in {Scheduled, RetryScheduled, InProgress}
    requires s.cells[d].d.state == InProgress ==> s.cells[d].d.lease.Some?
    requires s.cells[d].d.destination in s.policies && (s.cells[d].d.activeAttempt.Some? ==> s.cells[d].d.state == InProgress)
    ensures Leads(s, t) && d in t.cells
    ensures t.cells[d].d.state
            == if s.cells[d].d.activeAttempt.Some? && s.cells[d].d.attemptCount == s.cells[d].d.maxAttempts
               then DeadLettered else Succeeded
  {
    if s.cells[d].d.state == InProgress {
      t := LeasedReturns(s, s, d);
      if t.cells[d].d.state != DeadLettered {
        t := WaitingSucceeds(s, t, d);
      }
    } else {
      t := WaitingSucceeds(s, s, d);
    }
  }

  /** Exact: a delivery to a known destination that is not finished can still be finished if and only if it is not
      rate-limited. */
  lemma FinishableIff(s: Sys, d: DeliveryId)
    requires Reachable(s) && d in s.cells && !Terminal(s.cells[d].d.state) && s.cells[d].d.destination in s.policies
    ensures (exists steps, t :: Run(s, steps, t) && d in t.cells && Terminal(t.cells[d].d.state))
            <==> s.cells[d].d.state != RateLimited
  {
    if s.cells[d].d.state != RateLimited {
      var steps, t := CanFinish(s, d);
    } else {
      ReachableIsSound(s);
      forall steps, t | Run(s, steps, t) ensures d in t.cells && t.cells[d] == s.cells[d] {
        RateLimitedIsStuck(s, steps, t, d);
      }
    }
  }
}
