/** Every step of the system does only what the invariant allows. Each lemma about one step needs
    only what the invariant says about the message, the delivery and the destination it touches. */
module Steps {
  import opened Domain
  import opened Cells
  import opened System
  import opened Invariants
  import RL = RateLimiter
  import CB = CircuitBreaker

  // ---------------------------------------------------------------- the invariant, seen locally

  /** A task on a delivery: its snapshots, and the stored cell. */
  ghost predicate Local(s: Sys, m: nat) {
    && AtCell(s, m)
    && DeliveryTaskOk(s, Id(s, m), TaskOf(s, m))
    && CellInv(CellOf(s, m), s.clock)
    && IdentityOk(Id(s, m), CellOf(s, m).d)
    && CellOf(s, m).d.event in s.events
  }

  ghost predicate LocalEvent(s: Sys, m: nat) {
    AtEvent(s, m) && s.msgs[m].target.e in s.events && EventTaskOk(s, s.msgs[m].target.e, TaskOf(s, m))
  }

  /** The runtime items of one destination. */
  ghost predicate DestinationOk(s: Sys, x: DestinationId) {
    x in s.policies ==>
      && RL.ValidLimits(s.policies[x].rate) && CB.ValidCircuitPolicy(s.policies[x].circuit)
      && CB.CircuitChain(s.policies[x].circuit, CircuitOf(s, x).log)
      && CircuitOf(s, x).item == CB.CircuitAfter(s.policies[x].circuit, CircuitOf(s, x).log)
      && RL.RateChain(s.policies[x].rate, RateOf(s, x).log)
      && RateOf(s, x).item == RL.RateAfter(s.policies[x].rate, RateOf(s, x).log)
  }

  lemma InvLocal(s: Sys, m: nat)
    requires Inv(s) && AtDelivery(s, m)
    ensures Local(s, m)
  {
    assert MsgOk(s, s.msgs[m]);
  }

  lemma InvLocalEvent(s: Sys, m: nat)
    requires Inv(s) && AtEvent(s, m)
    ensures LocalEvent(s, m)
  {
    assert MsgOk(s, s.msgs[m]);
  }

  lemma InvDestination(s: Sys, x: DestinationId)
    requires Inv(s)
    ensures DestinationOk(s, x)
  {
  }

  lemma CircuitVersion(s: Sys, x: DestinationId)
    requires DestinationOk(s, x) && x in s.policies
    ensures CircuitOf(s, x).item.version == |CircuitOf(s, x).log|
  {
    CB.CircuitFold(s.policies[x].circuit, CircuitOf(s, x).log);
  }

  lemma RateItemVersion(s: Sys, x: DestinationId)
    requires DestinationOk(s, x) && x in s.policies
    ensures RateVersion(RateOf(s, x).item) == |RateOf(s, x).log|
    ensures RateOf(s, x).item.None? <==> RateOf(s, x).log == []
  {
    RL.ChainVersion(s.policies[x].rate, RateOf(s, x).log);
  }

  // ---------------------------------------------------------------- moves

  /** A step that only moves a task on is fine when the new task is. */
  lemma MoveOk(s: Sys, m: nat, t: Task)
    requires m in s.msgs && TargetOk(s, s.msgs[m].target) && TaskOk(s, s.msgs[m].target, t)
    ensures EffectOk(s, Move(s, m, t))
  {
    TaskFrame(s, Move(s, m, t), s.msgs[m].target, t);
  }

  lemma DeferralOk(snap: Delivery, to: DeliveryState, at: Time, notBefore: Time, reason: Option<FailureCategory>, recovery: bool)
    requires snap.state == InProgress && snap.activeAttempt.None?
    requires to == Scheduled || (to == RateLimited && reason != Some(DestinationDisabled))
    ensures PlanDefer(snap, to, at, notBefore, reason, recovery).Some?
    ensures DeferPlanOk(PlanDefer(snap, to, at, notBefore, reason, recovery).value)
    ensures PlanDefer(snap, to, at, notBefore, reason, recovery).value.snap == snap
  {
    var plan := PlanDefer(snap, to, at, notBefore, reason, recovery).value;
    assert PlanDefer(plan.snap, plan.next.state, at, plan.notBefore, reason, plan.recovery) == Some(plan);
  }

  /** Giving the lease back plans a deferral. */
  lemma GiveBackOk(s: Sys, m: nat, to: DeliveryState, at: Time, reason: FailureCategory)
    requires Local(s, m) && TaskOf(s, m).Leased?
    requires to == Scheduled || (to == RateLimited && reason != DestinationDisabled)
    ensures GiveBack(s, m, to, at, reason).Some?
    ensures EffectOk(s, GiveBack(s, m, to, at, reason).value)
  {
    var t := TaskOf(s, m);
    DeferralOk(t.snap, to, t.now, at, Some(reason), false);
    MoveOk(s, m, Deferring(PlanDefer(t.snap, to, t.now, at, Some(reason), false).value, None));
  }

  lemma FetchOk(s: Sys, m: nat)
    requires Local(s, m) && Fetch(s, m).Some?
    ensures EffectOk(s, Fetch(s, m).value)
  {
    MoveOk(s, m, Fetched(Some(CellOf(s, m).d)));
  }

  lemma BranchOk(s: Sys, m: nat)
    requires Local(s, m) && Branch(s, m).Some?
    ensures EffectOk(s, Branch(s, m).value)
  {
    var found := TaskOf(s, m).found;
    if found.None? || Terminal(found.value.state) {
      MoveOk(s, m, Acking);
    } else if LeaseExpired(found.value, s.clock) {
      MoveOk(s, m, Recovering(found.value, s.clock, false));
    } else if EligibleAt(found.value, s.clock) {
      MoveOk(s, m, Acquiring(found.value, s.clock, None));
    }
  }

  lemma RecoverFetchOk(s: Sys, m: nat)
    requires Local(s, m) && RecoverFetch(s, m).Some?
    ensures EffectOk(s, RecoverFetch(s, m).value)
  {
    var now := TaskOf(s, m).now;
    if LeaseExpired(CellOf(s, m).d, now) {
      MoveOk(s, m, Recovering(CellOf(s, m).d, now, true));
    } else {
      MoveOk(s, m, Acking);
    }
  }

  /** Recovery of a started attempt: the stored attempt is the one the snapshot knows. */
  lemma TimeoutPlanOk(s: Sys, c: Cell, d: DeliveryId, snap: Delivery, now: Time, random: real)
    requires CellInv(c, s.clock) && SnapOk(c, snap) && snap.state == InProgress && snap.activeAttempt.Some?
    requires snap.attemptCount in c.attempts && c.attempts[snap.attemptCount].id == snap.activeAttempt.value
    ensures PlanTimeout(snap, c.attempts[snap.attemptCount], now, random).Some?
    ensures FinalOk(s, c, d, PlanTimeout(snap, c.attempts[snap.attemptCount], now, random).value, None, NoReads)
  {
    PlanTimeoutOk(snap, c.attempts[snap.attemptCount], now, random);
  }

  lemma RecoverStartedOk(s: Sys, m: nat, random: real)
    requires Local(s, m) && RecoverInspect(s, m, random).Some? && TaskOf(s, m).snap.activeAttempt.Some?
    ensures EffectOk(s, RecoverInspect(s, m, random).value)
  {
    var snap, now, c := TaskOf(s, m).snap, TaskOf(s, m).now, CellOf(s, m);
    var n := snap.attemptCount;
    if n in c.attempts && c.attempts[n].id == snap.activeAttempt.value {
      TimeoutPlanOk(s, c, Id(s, m), snap, now, random);
      MoveOk(s, m, Finalizing(PlanTimeout(snap, c.attempts[n], now, random).value, None, NoReads));
    } else {
      MoveOk(s, m, Acking);
    }
  }

  lemma RecoverInspectOk(s: Sys, m: nat, random: real)
    requires Local(s, m) && RecoverInspect(s, m, random).Some?
    ensures EffectOk(s, RecoverInspect(s, m, random).value)
  {
    var snap, now := TaskOf(s, m).snap, TaskOf(s, m).now;
    if snap.activeAttempt.Some? {
      RecoverStartedOk(s, m, random);
    } else {
      DeferralOk(snap, Scheduled, now, now, None, true);
      MoveOk(s, m, Deferring(PlanDefer(snap, Scheduled, now, now, None, true).value, None));
    }
  }

  lemma LeaseIsPlanned(s: Sys, d: Delivery, now: Time, lease: Lease)
    requires Leasable(d.state) && EligibleAt(d, s.clock) && lease.acquiredAt == s.clock
    requires LeaseTransition(d, lease).Some?
    ensures AcquireOk(s, d, now, LeaseTransition(d, lease))
  {
  }

  lemma AcquiringOk(s: Sys, m: nat, now: Time, lease: Lease)
    requires Local(s, m) && Leasable(CellOf(s, m).d.state)
    requires EligibleAt(CellOf(s, m).d, s.clock) && lease.acquiredAt == s.clock
    requires LeaseTransition(CellOf(s, m).d, lease).Some?
    ensures DeliveryTaskOk(s, Id(s, m), Acquiring(CellOf(s, m).d, now, LeaseTransition(CellOf(s, m).d, lease)))
  {
    LeaseIsPlanned(s, CellOf(s, m).d, now, lease);
  }

  lemma AcquireFetchOk(s: Sys, m: nat, token: LeaseToken, owner: nat)
    requires Local(s, m) && AcquireFetch(s, m, token, owner).Some?
    ensures EffectOk(s, AcquireFetch(s, m, token, owner).value)
  {
    var t, d := TaskOf(s, m), CellOf(s, m).d;
    if d.version != t.snap.version || !Leasable(d.state) || !EligibleAt(d, s.clock) {
      assert AcquireFetch(s, m, token, owner) == Some(Move(s, m, Acking));
      MoveOk(s, m, Acking);
    } else {
      var lease := Lease(owner, token, s.clock, t.now + t.snap.timeoutMs + 5000);
      var next := Acquiring(d, t.now, LeaseTransition(d, lease));
      assert AcquireFetch(s, m, token, owner) == Some(Move(s, m, next));
      AcquiringOk(s, m, t.now, lease);
      MoveOk(s, m, next);
    }
  }

  lemma AcquireCommitOk(s: Sys, m: nat)
    requires Local(s, m) && AcquireCommit(s, m).Some?
    ensures EffectOk(s, AcquireCommit(s, m).value)
  {
    var t, c := TaskOf(s, m), CellOf(s, m);
    LeaseKeeps(c, c.d, t.leased.value.lease.value, s.clock);
  }

  lemma AcquireLostOk(s: Sys, m: nat)
    requires Local(s, m) && AcquireLost(s, m).Some?
    ensures EffectOk(s, AcquireLost(s, m).value)
  {
    MoveOk(s, m, Acking);
  }

  lemma StartLostOk(s: Sys, m: nat)
    requires Local(s, m) && StartLost(s, m).Some?
    ensures EffectOk(s, StartLost(s, m).value)
  {
    MoveOk(s, m, Acking);
  }

  lemma FinalGiveUpOk(s: Sys, m: nat)
    requires Local(s, m) && FinalGiveUp(s, m).Some?
    ensures EffectOk(s, FinalGiveUp(s, m).value)
  {
    MoveOk(s, m, Acking);
  }

  lemma DeferLostOk(s: Sys, m: nat)
    requires Local(s, m) && DeferLost(s, m).Some?
    ensures EffectOk(s, DeferLost(s, m).value)
  {
    MoveOk(s, m, Acking);
  }

  lemma CircuitLostOk(s: Sys, m: nat)
    requires Local(s, m) && CircuitLost(s, m).Some?
    ensures EffectOk(s, CircuitLost(s, m).value)
  {
    MoveOk(s, m, TaskOf(s, m).(phase := Holding));
  }

  lemma RateLostOk(s: Sys, m: nat)
    requires Local(s, m) && RateLost(s, m).Some?
    ensures EffectOk(s, RateLost(s, m).value)
  {
    MoveOk(s, m, TaskOf(s, m).(phase := Permitted));
  }

  lemma FinalRetryOk(s: Sys, m: nat)
    requires Local(s, m) && FinalRetry(s, m).Some?
    ensures EffectOk(s, FinalRetry(s, m).value)
  {
    MoveOk(s, m, TaskOf(s, m).(known := NoReads));
  }

  lemma DestinationOffOk(s: Sys, m: nat)
    requires Local(s, m) && DestinationOff(s, m).Some?
    ensures EffectOk(s, DestinationOff(s, m).value)
  {
    assert DestinationOff(s, m) == GiveBack(s, m, Scheduled, TaskOf(s, m).now + 300_000, DestinationDisabled);
    GiveBackOk(s, m, Scheduled, TaskOf(s, m).now + 300_000, DestinationDisabled);
  }

  lemma CircuitExhaustedOk(s: Sys, m: nat)
    requires Local(s, m) && CircuitExhausted(s, m).Some?
    ensures EffectOk(s, CircuitExhausted(s, m).value)
  {
    assert CircuitExhausted(s, m) == GiveBack(s, m, Scheduled, TaskOf(s, m).now + 5000, FailureCategory.CircuitOpen);
    GiveBackOk(s, m, Scheduled, TaskOf(s, m).now + 5000, FailureCategory.CircuitOpen);
  }

  lemma RateExhaustedOk(s: Sys, m: nat)
    requires Local(s, m) && RateExhausted(s, m).Some?
    ensures EffectOk(s, RateExhausted(s, m).value)
  {
    assert RateExhausted(s, m) == GiveBack(s, m, RateLimited, TaskOf(s, m).now + 5000, RateLimitFailure);
    GiveBackOk(s, m, RateLimited, TaskOf(s, m).now + 5000, RateLimitFailure);
  }

  lemma CircuitAskOk(s: Sys, m: nat)
    requires Local(s, m) && CircuitAsk(s, m).Some?
    requires DestinationOk(s, CellOf(s, m).d.destination)
    ensures EffectOk(s, CircuitAsk(s, m).value)
  {
    var t := TaskOf(s, m);
    var x := t.snap.destination;
    var log := CircuitOf(s, x).log;
    CircuitVersion(s, x);
    assert log[..|log|] == log;
    match CB.AskCircuit(CircuitOf(s, x).item, s.policies[x].circuit, HolderOf(Id(s, m), t.snap), t.now)
    case Allowed => MoveOk(s, m, t.(permit := Some(CB.CircuitPermit(CircuitOf(s, x).item, false)), phase := Permitted));
    case Refused(at) => GiveBackOk(s, m, Scheduled, at, FailureCategory.CircuitOpen);
    case MayProbe(probe) => MoveOk(s, m, t.(phase := CircuitTry(CircuitOf(s, x).item, probe)));
  }

  lemma CircuitCommitOk(s: Sys, m: nat)
    requires Local(s, m) && CircuitCommit(s, m).Some?
    requires DestinationOk(s, CellOf(s, m).d.destination)
    ensures EffectOk(s, CircuitCommit(s, m).value)
  {
    var t := TaskOf(s, m);
    var x := t.snap.destination;
    var log := CircuitOf(s, x).log;
    CircuitVersion(s, x);
    assert log[..|log|] == log;
    CB.CommitProbe(s.policies[x].circuit, log, HolderOf(Id(s, m), t.snap), t.now);
  }

  lemma RateAskOk(s: Sys, m: nat)
    requires Local(s, m) && RateAsk(s, m).Some?
    requires DestinationOk(s, CellOf(s, m).d.destination)
    ensures EffectOk(s, RateAsk(s, m).value)
  {
    var t := TaskOf(s, m);
    var x := t.snap.destination;
    var log := RateOf(s, x).log;
    RateItemVersion(s, x);
    assert log[..|log|] == log;
    match RL.RateLimitDecision(RateOf(s, x).item, s.policies[x].rate, t.now)
    case Denied(at) => GiveBackOk(s, m, RateLimited, at, RateLimitFailure);
    case Granted(tat) => MoveOk(s, m, t.(phase := RateTry(RateOf(s, x).item, tat)));
  }

  /** One more granted permit extends the chain. */
  lemma RateAppend(g: RL.Limits, log: seq<RL.Permit>, p: RL.Permit, tat: Time)
    requires RL.ValidLimits(g) && RL.RateChain(g, log)
    requires RL.RateLimitDecision(RL.RateAfter(g, log), g, p.now) == RL.Granted(tat)
    ensures RL.RateChain(g, log + [p])
    ensures RL.RateAfter(g, log + [p]) == Some(RL.RateState(tat, |log| + 1))
  {
    assert (log + [p])[..|log + [p]| - 1] == log;
  }

  /** The permit is added to the log its decision was made on. */
  lemma RateCommitLog(s: Sys, m: nat)
    requires Local(s, m) && RateCommit(s, m).Some?
    requires DestinationOk(s, CellOf(s, m).d.destination)
    ensures RateChangeOk(s, RateCommit(s, m).value)
  {
    var t := TaskOf(s, m);
    var x := t.snap.destination;
    var g, log := s.policies[x].rate, RateOf(s, x).log;
    RateItemVersion(s, x);
    assert RateVersion(t.phase.rate) == |log|;
    assert log[..|log|] == log;
    RateAppend(g, log, RL.Permit(m, t.now), t.phase.tat);
  }

  lemma RateCommitOk(s: Sys, m: nat)
    requires Local(s, m) && RateCommit(s, m).Some?
    requires DestinationOk(s, CellOf(s, m).d.destination)
    ensures EffectOk(s, RateCommit(s, m).value)
  {
    RateCommitLog(s, m);
    TaskFrame(s, RateCommit(s, m).value, s.msgs[m].target, TaskOf(s, m).(phase := Ready));
  }

  /** A clock reading taken under the lease is late enough for the next attempt. */
  lemma NowIsDue(c: Cell, a: Attempt, clock: Time)
    requires CellInv(c, clock) && c.d.state == InProgress && c.d.activeAttempt.None?
    requires a.startedAt == clock
    ensures StartDue(c, a)
  {
  }

  lemma PrepareOk(s: Sys, m: nat, id: AttemptId)
    requires Local(s, m) && Prepare(s, m, id).Some?
    ensures EffectOk(s, Prepare(s, m, id).value)
  {
    var t, a := TaskOf(s, m), Attempt(id, s.clock, None, 0, AttemptStarted, None);
    if Fresh(CellOf(s, m), t.snap) {
      NowIsDue(CellOf(s, m), a, s.clock);
    }
    MoveOk(s, m, t.(phase := Starting(a)));
  }

  lemma StartCommitOk(s: Sys, m: nat)
    requires Local(s, m) && StartCommit(s, m).Some?
    ensures EffectOk(s, StartCommit(s, m).value)
  {
    var t, c := TaskOf(s, m), CellOf(s, m);
    StartKeeps(c, t.phase.attempt, s.clock);
    PermitFrame(s, StartCommit(s, m).value, t.snap.destination, t.permit.value, HolderOf(Id(s, m), t.snap));
  }

  lemma SendOk(s: Sys, m: nat)
    requires Local(s, m) && Send(s, m).Some?
    ensures EffectOk(s, Send(s, m).value)
  {
    var t := TaskOf(s, m);
    TaskFrame(s, Send(s, m).value, s.msgs[m].target, t.(sent := true));
  }

  lemma RespondOk(s: Sys, m: nat, response: Response, random: real, retryAfter: Option<real>)
    requires Local(s, m) && Respond(s, m, response, random, retryAfter).Some?
    ensures EffectOk(s, Respond(s, m, response, random, retryAfter).value)
  {
    var t := TaskOf(s, m);
    var r := ClassifyDeliveryResult(response);
    PlanResultOk(t.snap, t.attempt, s.clock, response, random, retryAfter);
    MoveOk(s, m, Finalizing(
      PlanResult(t.snap, t.attempt, s.clock, r, random, retryAfter).value,
      Some(CircuitWrite(t.granted, r.success, r.countsTowardCircuit, s.clock)), NoReads));
  }

  lemma FinalFetchOk(s: Sys, m: nat)
    requires Local(s, m) && FinalFetch(s, m).Some?
    ensures EffectOk(s, FinalFetch(s, m).value)
  {
    MoveOk(s, m, TaskOf(s, m).(known := ReadDelivery(CellOf(s, m).d)));
  }

  lemma FinalFetchEventOk(s: Sys, m: nat)
    requires Local(s, m) && FinalFetchEvent(s, m).Some?
    ensures EffectOk(s, FinalFetchEvent(s, m).value)
  {
    var t := TaskOf(s, m);
    MoveOk(s, m, t.(known := ReadBoth(t.known.current, s.events[t.plan.snap.event])));
  }

  lemma DeferFetchOk(s: Sys, m: nat)
    requires Local(s, m) && DeferFetch(s, m).Some?
    ensures EffectOk(s, DeferFetch(s, m).value)
  {
    MoveOk(s, m, TaskOf(s, m).(read := Some(CellOf(s, m).d)));
  }

  lemma FinalCircuitOk(s: Sys, d: DeliveryId, plan: FinalPlan, w: CircuitWrite)
    requires plan.snap.version >= 1 && DestinationOk(s, plan.snap.destination)
    requires PermitGood(s, plan.snap.destination, w.permit, CB.Holder(d, plan.snap.version - 1))
    requires CircuitOf(s, plan.snap.destination).item.version == w.permit.state.version
    ensures CircuitOf(s, plan.snap.destination).log <= FinalCircuit(s, d, plan, w).log
    ensures |FinalCircuit(s, d, plan, w).log| == |CircuitOf(s, plan.snap.destination).log| + 1
    ensures CB.CircuitChain(s.policies[plan.snap.destination].circuit, FinalCircuit(s, d, plan, w).log)
    ensures FinalCircuit(s, d, plan, w).item
            == CB.CircuitAfter(s.policies[plan.snap.destination].circuit, FinalCircuit(s, d, plan, w).log)
  {
    var x := plan.snap.destination;
    CB.CommitResult(s.policies[x].circuit, CircuitOf(s, x).log, w.permit,
                    CB.Holder(d, plan.snap.version - 1), w.success, w.counts, w.now);
  }

  /** When the version condition holds, everything the task has read is the current record. */
  lemma FinalCurrent(s: Sys, m: nat)
    requires Local(s, m) && InFinal(s, m) && Fresh(CellOf(s, m), TaskOf(s, m).plan.snap)
    ensures TaskOf(s, m).plan.snap == CellOf(s, m).d && TaskOf(s, m).known.current == CellOf(s, m).d
  {
  }

  lemma FinalCommitCell(s: Sys, m: nat, n: nat, shard: nat)
    requires Local(s, m) && FinalCommit(s, m, n, shard).Some?
    ensures CellChangeOk(s, FinalCommit(s, m, n, shard).value)
  {
    FinalCurrent(s, m);
    FinalKeeps(CellOf(s, m), TaskOf(s, m).plan, s.clock);
  }

  lemma FinalCommitCircuit(s: Sys, m: nat, n: nat, shard: nat)
    requires Local(s, m) && FinalCommit(s, m, n, shard).Some?
    requires DestinationOk(s, CellOf(s, m).d.destination)
    ensures CircuitChangeOk(s, FinalCommit(s, m, n, shard).value)
  {
    FinalCurrent(s, m);
    var t := TaskOf(s, m);
    if t.write.Some? {
      FinalCircuitOk(s, Id(s, m), t.plan, t.write.value);
    }
  }

  lemma FinalCommitEvent(s: Sys, m: nat, n: nat, shard: nat)
    requires Local(s, m) && FinalCommit(s, m, n, shard).Some?
    ensures EventChangeOk(s, FinalCommit(s, m, n, shard).value)
  {
  }

  lemma FinalCommitRow(s: Sys, m: nat, n: nat, shard: nat)
    requires Local(s, m) && FinalCommit(s, m, n, shard).Some?
    requires CellChangeOk(s, FinalCommit(s, m, n, shard).value)
    ensures RowChangeOk(s, FinalCommit(s, m, n, shard).value)
  {
  }

  lemma FinalCommitMsg(s: Sys, m: nat, n: nat, shard: nat)
    requires Local(s, m) && FinalCommit(s, m, n, shard).Some?
    ensures MsgChangeOk(s, FinalCommit(s, m, n, shard).value)
  {
  }

  lemma FinalCommitOk(s: Sys, m: nat, n: nat, shard: nat)
    requires Local(s, m) && FinalCommit(s, m, n, shard).Some?
    requires DestinationOk(s, CellOf(s, m).d.destination)
    ensures EffectOk(s, FinalCommit(s, m, n, shard).value)
  {
    FinalCommitCell(s, m, n, shard);
    FinalCommitCircuit(s, m, n, shard);
    FinalCommitEvent(s, m, n, shard);
    FinalCommitRow(s, m, n, shard);
    FinalCommitMsg(s, m, n, shard);
  }

  lemma DeferCellOk(c: Cell, plan: DeferPlan, clock: Time)
    requires CellInv(c, clock) && DeferPlanOk(plan) && plan.snap == c.d && CommitDefer(c, plan, c.d).Some?
    ensures CellInv(CommitDefer(c, plan, c.d).value, clock)
    ensures Advances(c, CommitDefer(c, plan, c.d).value)
  {
    var at, reason: Option<FailureCategory> :|
      && (reason == Some(DestinationDisabled) ==> plan.next.state == Scheduled)
      && PlanDefer(plan.snap, plan.next.state, at, plan.notBefore, reason, plan.recovery) == Some(plan);
    DeferKeeps(c, plan, at, reason, clock);
  }

  lemma DeferCommitOk(s: Sys, m: nat, n: nat)
    requires Local(s, m) && DeferCommit(s, m, n).Some?
    ensures EffectOk(s, DeferCommit(s, m, n).value)
  {
    DeferCellOk(CellOf(s, m), TaskOf(s, m).defer, s.clock);
  }

  lemma RouteFetchOk(s: Sys, m: nat)
    requires LocalEvent(s, m) && RouteFetch(s, m).Some?
    ensures EffectOk(s, RouteFetch(s, m).value)
  {
  }

  lemma RouteRetryOk(s: Sys, m: nat)
    requires LocalEvent(s, m) && RouteRetry(s, m).Some?
    ensures EffectOk(s, RouteRetry(s, m).value)
  {
  }

  lemma CompleteReadOk(s: Sys, m: nat)
    requires LocalEvent(s, m) && CompleteRead(s, m).Some?
    ensures EffectOk(s, CompleteRead(s, m).value)
  {
  }

  lemma CompleteCommitOk(s: Sys, m: nat)
    requires LocalEvent(s, m) && CompleteCommit(s, m).Some?
    ensures EffectOk(s, CompleteCommit(s, m).value)
  {
  }

  lemma RouteReadOk(s: Sys, m: nat, x: Delivery)
    requires LocalEvent(s, m) && RouteRead(s, m, x).Some?
    ensures EffectOk(s, RouteRead(s, m, x).value)
  {
  }

  lemma RouteCommitOk(s: Sys, m: nat, shard: nat)
    requires LocalEvent(s, m) && RouteCommit(s, m, shard).Some?
    ensures EffectOk(s, RouteCommit(s, m, shard).value)
  {
    NewCellOk(TaskOf(s, m).created, s.clock);
  }

  lemma QueueStepOk(s: Sys, step: QueueStep)
    requires TasksInv(s) && QueueEffect(s, step).Some?
    ensures EffectOk(s, QueueEffect(s, step).value)
  {
  }

  lemma PublishStepOk(s: Sys, step: PublishStep)
    requires RowsInv(s) && PublishEffect(s, step).Some?
    ensures EffectOk(s, PublishEffect(s, step).value)
  {
    assert step.r in s.rows ==> TargetOk(s, s.rows[step.r].target);
  }

  lemma ResumeOk(s: Sys, d: DeliveryId, now: Time)
    requires Resume(s, d, now).Some?
    requires CellInv(s.cells[d], s.clock) && IdentityOk(d, s.cells[d].d) && s.cells[d].d.event in s.events
    ensures EffectOk(s, Resume(s, d, now).value)
  {
    ResumeKeeps(s.cells[d], now, s.clock);
  }

  lemma AcceptOk(s: Sys, ev: EventId, k: AcceptKey, hash: nat, shard: nat)
    requires AcceptEvent(s, ev, k, hash, shard).Some?
    ensures EffectOk(s, AcceptEvent(s, ev, k, hash, shard).value)
  {
  }

  lemma ReplayOk(
    s: Sys, original: DeliveryId, corrected: bool, id: nat, x: Delivery, key: nat, hash: nat, n: nat, shard: nat)
    requires CreateReplay(s, original, corrected, id, x, key, hash, n, shard).Some?
    requires s.cells[original].d.event in s.events
    ensures EffectOk(s, CreateReplay(s, original, corrected, id, x, key, hash, n, shard).value)
  {
    NewCellOk(x, s.clock);
  }

  // ---------------------------------------------------------------- all steps

  lemma ReadStepOk(s: Sys, step: ReadStep)
    requires Inv(s) && ReadEffect(s, step).Some?
    ensures EffectOk(s, ReadEffect(s, step).value)
  {
    InvLocal(s, step.m);
    match step
    case DoFetch(m) => FetchOk(s, m);
    case DoBranch(m) => BranchOk(s, m);
    case DoRecoverFetch(m) => RecoverFetchOk(s, m);
    case DoRecoverInspect(m, random) => RecoverInspectOk(s, m, random);
  }

  lemma LeaseStepOk(s: Sys, step: LeaseStep)
    requires Inv(s) && LeaseEffect(s, step).Some?
    ensures EffectOk(s, LeaseEffect(s, step).value)
  {
    InvLocal(s, step.m);
    match step
    case DoAcquireFetch(m, token, owner) => AcquireFetchOk(s, m, token, owner);
    case DoAcquireCommit(m) => AcquireCommitOk(s, m);
    case DoAcquireLost(m) => AcquireLostOk(s, m);
    case DoDestinationOff(m) => DestinationOffOk(s, m);
  }

  lemma PermitStepOk(s: Sys, step: PermitStep)
    requires Inv(s) && PermitEffect(s, step).Some?
    ensures EffectOk(s, PermitEffect(s, step).value)
  {
    InvLocal(s, step.m);
    InvDestination(s, CellOf(s, step.m).d.destination);
    match step
    case DoCircuitAsk(m) => CircuitAskOk(s, m);
    case DoCircuitCommit(m) => CircuitCommitOk(s, m);
    case DoCircuitLost(m) => CircuitLostOk(s, m);
    case DoCircuitExhausted(m) => CircuitExhaustedOk(s, m);
    case DoRateAsk(m) => RateAskOk(s, m);
    case DoRateCommit(m) => RateCommitOk(s, m);
    case DoRateLost(m) => RateLostOk(s, m);
    case DoRateExhausted(m) => RateExhaustedOk(s, m);
  }

  lemma AttemptStepOk(s: Sys, step: AttemptStep)
    requires Inv(s) && AttemptEffect(s, step).Some?
    ensures EffectOk(s, AttemptEffect(s, step).value)
  {
    InvLocal(s, step.m);
    match step
    case DoPrepare(m, id) => PrepareOk(s, m, id);
    case DoStartCommit(m) => StartCommitOk(s, m);
    case DoStartLost(m) => StartLostOk(s, m);
    case DoSend(m) => SendOk(s, m);
    case DoRespond(m, response, random, retryAfter) => RespondOk(s, m, response, random, retryAfter);
  }

  lemma FinishStepOk(s: Sys, step: FinishStep)
    requires Inv(s) && FinishEffect(s, step).Some?
    ensures EffectOk(s, FinishEffect(s, step).value)
  {
    InvLocal(s, step.m);
    InvDestination(s, CellOf(s, step.m).d.destination);
    match step
    case DoFinalFetch(m) => FinalFetchOk(s, m);
    case DoFinalFetchEvent(m) => FinalFetchEventOk(s, m);
    case DoFinalCommit(m, n, shard) => FinalCommitOk(s, m, n, shard);
    case DoFinalRetry(m) => FinalRetryOk(s, m);
    case DoFinalGiveUp(m) => FinalGiveUpOk(s, m);
    case DoDeferFetch(m) => DeferFetchOk(s, m);
    case DoDeferCommit(m, n) => DeferCommitOk(s, m, n);
    case DoDeferLost(m) => DeferLostOk(s, m);
  }

  lemma RouteStepOk(s: Sys, step: RouteStep)
    requires Inv(s) && RouteEffect(s, step).Some?
    ensures EffectOk(s, RouteEffect(s, step).value)
  {
    InvLocalEvent(s, step.m);
    match step
    case DoRouteFetch(m) => RouteFetchOk(s, m);
    case DoRouteRead(m, x) => RouteReadOk(s, m, x);
    case DoRouteCommit(m, shard) => RouteCommitOk(s, m, shard);
    case DoRouteRetry(m) => RouteRetryOk(s, m);
    case DoCompleteRead(m) => CompleteReadOk(s, m);
    case DoCompleteCommit(m) => CompleteCommitOk(s, m);
  }

  lemma IntakeStepOk(s: Sys, step: IntakeStep)
    requires Inv(s) && IntakeEffect(s, step).Some?
    ensures EffectOk(s, IntakeEffect(s, step).value)
  {
    match step
    case DoAccept(e, k, hash, shard) => AcceptOk(s, e, k, hash, shard);
    case DoResume(d, now) => ResumeOk(s, d, now);
    case DoReplay(original, corrected, id, x, key, hash, n, shard) =>
      ReplayOk(s, original, corrected, id, x, key, hash, n, shard);
  }

  lemma StepOk(s: Sys, step: Step)
    requires Inv(s) && Enabled(s, step)
    ensures EffectOk(s, StepEffect(s, step).value)
  {
    match step
    case Queue(q) => QueueStepOk(s, q);
    case Read(r) => ReadStepOk(s, r);
    case Acquire(l) => LeaseStepOk(s, l);
    case Permit(p) => PermitStepOk(s, p);
    case Attempted(a) => AttemptStepOk(s, a);
    case Finish(f) => FinishStepOk(s, f);
    case Publish(p) => PublishStepOk(s, p);
    case Route(r) => RouteStepOk(s, r);
    case Intake(i) => IntakeStepOk(s, i);
  }

  lemma StepKeepsInv(s: Sys, step: Step)
    requires Inv(s) && Enabled(s, step)
    ensures Inv(Next(s, step))
  {
    StepOk(s, step);
    KeepInv(s, StepEffect(s, step).value);
  }

  lemma InitialInv(s: Sys)
    requires Initial(s)
    ensures Inv(s)
  {
  }

  lemma {:induction false} RunKeepsInv(s: Sys, steps: seq<Step>, t: Sys)
    requires Inv(s) && Run(s, steps, t)
    ensures Inv(t)
    decreases |steps|
  {
    if steps != [] {
      FirstStep(s, steps, t);
      StepKeepsInv(s, steps[0]);
      RunKeepsInv(Next(s, steps[0]), steps[1..], t);
    }
  }
}
