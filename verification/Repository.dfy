/** The repository's methods as programs: each performs single steps of the protocol and lets any number
    of other workers' steps happen in between. What they do is therefore a run of the transition system,
    and every theorem about runs holds for them. */
module Repository {
  import opened Domain
  import opened Cells
  import opened System
  import opened Invariants
  import opened Steps
  import opened Footprints
  import opened Accounting
  import opened Answers

  lemma ReachableLocal(s: Sys, steps: seq<Step>, t: Sys, m: nat)
    requires Initial(s) && Run(s, steps, t) && AtDelivery(t, m)
    ensures Local(t, m)
  {
    InitialInv(s);
    RunKeepsInv(s, steps, t);
    InvLocal(t, m);
  }

  lemma ReachableLocalEvent(s: Sys, steps: seq<Step>, t: Sys, m: nat)
    requires Initial(s) && Run(s, steps, t) && AtEvent(t, m)
    ensures LocalEvent(t, m)
  {
    InitialInv(s);
    RunKeepsInv(s, steps, t);
    InvLocalEvent(t, m);
  }

  lemma AfterCommit(s: Sys, m: nat, n: nat, shard: nat)
    requires FinalCommit(s, m, n, shard).Some?
    ensures Enabled(s, Finish(DoFinalCommit(m, n, shard)))
    ensures var t := Next(s, Finish(DoFinalCommit(m, n, shard)));
            AtCell(t, m) && Id(t, m) == Id(s, m) && CellOf(t, m).d == TaskOf(s, m).plan.final && TaskOf(t, m) == Acking
  {
    assert StepEffect(s, Finish(DoFinalCommit(m, n, shard))) == FinalCommit(s, m, n, shard);
  }

  lemma AfterRetry(s: Sys, m: nat)
    requires InFinal(s, m)
    ensures Enabled(s, Finish(DoFinalRetry(m)))
    ensures var t := Next(s, Finish(DoFinalRetry(m)));
            AtDelivery(t, m) && Id(t, m) == Id(s, m) && TaskOf(t, m) == TaskOf(s, m).(known := NoReads)
  {
    assert StepEffect(s, Finish(DoFinalRetry(m))) == FinalRetry(s, m);
  }

  datatype Creation = Created | Duplicate | RoutingConflict

  class Store {
    var s: Sys
    ghost const start: Sys
    ghost var trace: seq<Step>
    /** The states in which a conditional transaction was lost. */
    ghost var lost: seq<Sys>

    /** The state has been reached from an initial one by the steps of the trace. */
    ghost predicate Valid()
      reads this
    {
      Initial(start) && Run(start, trace, s)
    }

    constructor (initial: Sys)
      requires Initial(initial)
      ensures Valid() && s == initial && trace == [] && lost == []
    {
      s, start, trace, lost := initial, initial, [], [];
      NoStep(initial);
    }

    /** One step. */
    method Take(step: Step)
      requires Valid() && Enabled(s, step)
      modifies this
      ensures Valid() && s == Next(old(s), step) && trace == old(trace) + [step] && lost == old(lost)
    {
      OneMoreStep(start, trace, s, step);
      s := Next(s, step);
      trace := trace + [step];
    }

    /** Any steps whatever of the other workers, publishers and callers: those of their own runs of the
        methods below included. Nobody else moves a held message. */
    method Others(m: nat)
      requires Valid() && m in s.msgs
      modifies this
      ensures Valid() && NotSince(old(trace), trace, m) && lost == old(lost)
      ensures m in s.msgs && s.msgs[m] == old(s.msgs[m])
    {
      var rounds: int := *;
      var i := 0;
      while i < rounds
        invariant Valid() && NotSince(old(trace), trace, m) && lost == old(lost)
        invariant m in s.msgs && s.msgs[m] == old(s.msgs[m])
      {
        var step: Step := *;
        if Enabled(s, step) && !TakenBy(step, m) {
          OthersLeaveMessage(s, step, m);
          Take(step);
        }
        i := i + 1;
      }
    }

    /** The task of `m` is about to read, or has read, for the finalization it was called with. */
    ghost predicate Finalizes(m: nat, d: DeliveryId, task: Task)
      reads this
    {
      && AtDelivery(s, m) && Id(s, m) == d
      && TaskOf(s, m).Finalizing? && TaskOf(s, m).(known := NoReads) == task
    }

    method ReadDelivery(m: nat, ghost d: DeliveryId, ghost task: Task)
      requires Valid() && Finalizes(m, d, task) && TaskOf(s, m).known.NoReads?
      modifies this
      ensures Valid() && OnlyReadsSince(old(trace), trace, m) && lost == old(lost)
      ensures Finalizes(m, d, task) && TaskOf(s, m).known.ReadDelivery?
    {
      Others(m);
      ReachableLocal(start, trace, s, m);
      Take(Finish(DoFinalFetch(m)));
    }

    method ReadEvent(m: nat, ghost d: DeliveryId, ghost task: Task)
      requires Valid() && Finalizes(m, d, task) && TaskOf(s, m).known.ReadDelivery?
      modifies this
      ensures Valid() && OnlyReadsSince(old(trace), trace, m) && lost == old(lost)
      ensures Finalizes(m, d, task) && TaskOf(s, m).known.ReadBoth?
    {
      Others(m);
      ReachableLocal(start, trace, s, m);
      Take(Finish(DoFinalFetchEvent(m)));
    }

    /** The transaction of one round; the delivery written is the planned one. */
    method TryFinal(m: nat, n: nat, shard: nat, ghost d: DeliveryId, ghost task: Task) returns (ok: bool)
      requires Valid() && Finalizes(m, d, task) && InFinal(s, m)
      modifies this
      ensures Valid()
      ensures ok ==> Committed(old(trace), trace, m, n, shard)
                     && AtCell(s, m) && Id(s, m) == d && CellOf(s, m).d == task.plan.final && TaskOf(s, m) == Acking
      ensures !ok ==> OnlyReadsSince(old(trace), trace, m) && Finalizes(m, d, task) && TaskOf(s, m).known.NoReads?
      ensures !ok ==> LostOnce(old(lost), lost) && LostFinal(lost[|lost| - 1], m, n, shard)
    {
      ok := FinalCommit(s, m, n, shard).Some?;
      if ok {
        AfterCommit(s, m, n, shard);
        Take(Finish(DoFinalCommit(m, n, shard)));
      } else {
        lost := lost + [s];
        AfterRetry(s, m);
        Take(Finish(DoFinalRetry(m)));
      }
    }

    /** One round of `finalizeAttempt`. */
    method FinalRound(m: nat, n: nat, shard: nat, ghost d: DeliveryId, ghost task: Task) returns (ok: bool)
      requires Valid() && Finalizes(m, d, task) && TaskOf(s, m).known.NoReads?
      modifies this
      ensures Valid()
      ensures ok ==> Committed(old(trace), trace, m, n, shard)
                     && AtCell(s, m) && Id(s, m) == d && CellOf(s, m).d == task.plan.final && TaskOf(s, m) == Acking
      ensures !ok ==> OnlyReadsSince(old(trace), trace, m) && Finalizes(m, d, task) && TaskOf(s, m).known.NoReads?
      ensures !ok ==> LostOnce(old(lost), lost) && LostFinal(lost[|lost| - 1], m, n, shard)
    {
      ghost var t0 := trace;
      ReadDelivery(m, d, task);
      ghost var t1 := trace;
      ReadEvent(m, d, task);
      ReadsFurther(t0, t1, trace, m);
      ghost var t2 := trace;
      Others(m);
      ReadsFurther(t0, t2, trace, m);
      ReachableLocal(start, trace, s, m);
      ghost var t3 := trace;
      ok := TryFinal(m, n, shard, d, task);
      ThenCommits(t0, t3, trace, m, n, shard);
    }

    /** `finalizeAttempt`: eight rounds of read, read and conditional transaction. It reports success exactly
        when its own transaction has been committed, in which case the delivery now is what was planned;
        otherwise it has only read, and eight transactions have been lost. */
    method FinalizeAttempt(m: nat, n: nat, shard: nat) returns (ok: bool)
      requires Valid() && AtDelivery(s, m) && TaskOf(s, m).Finalizing? && TaskOf(s, m).known.NoReads?
      modifies this
      ensures Valid()
      ensures ok ==> Committed(old(trace), trace, m, n, shard)
                     && AtCell(s, m) && Id(s, m) == old(Id(s, m))
                     && CellOf(s, m).d == old(TaskOf(s, m).plan.final) && TaskOf(s, m) == Acking
      ensures !ok ==> OnlyReadsSince(old(trace), trace, m)
                      && AtDelivery(s, m) && TaskOf(s, m) == old(TaskOf(s, m))
      ensures !ok ==> FinalsLost(old(lost), lost, m, n, shard, 8)
    {
      ghost var d, task, before, lostBefore := Id(s, m), TaskOf(s, m), trace, lost;
      for retry := 0 to 8
        invariant Valid() && Finalizes(m, d, task) && TaskOf(s, m).known.NoReads?
        invariant OnlyReadsSince(before, trace, m)
        invariant FinalsLost(lostBefore, lost, m, n, shard, retry)
      {
        ghost var t0, l0 := trace, lost;
        ok := FinalRound(m, n, shard, d, task);
        ThenCommits(before, t0, trace, m, n, shard);
        if ok {
          return;
        }
        OneMoreFinal(lostBefore, l0, lost, m, n, shard, retry);
      }
      return false;
    }

    /** The task of `m` routes event `e`. */
    ghost predicate Routes(m: nat, e: EventId)
      reads this
    {
      AtEvent(s, m) && s.msgs[m].target.e == e && e in s.events
    }

    method OthersWhileRouting(m: nat, ghost e: EventId)
      requires Valid() && Routes(m, e)
      modifies this
      ensures Valid() && NotSince(old(trace), trace, m) && lost == old(lost)
      ensures Routes(m, e) && TaskOf(s, m) == old(TaskOf(s, m)) && EventTaskOk(s, e, TaskOf(s, m))
    {
      Others(m);
      ReachableLocalEvent(start, trace, s, m);
    }

    /** The lookup of the identifier and the read of the event. */
    method ReadForCreate(m: nat, x: Delivery) returns (exists_: bool)
      requires Valid() && Routes(m, x.event) && TaskOf(s, m).Routing? && NewOriginal(x, x.event)
      modifies this
      ensures Valid() && Routes(m, x.event) && CommitsNothing(old(trace), trace, m) && lost == old(lost)
      ensures exists_ ==> OriginalId(x.event, x.destination) in s.cells && TaskOf(s, m).Routing?
      ensures !exists_ ==> TaskOf(s, m).RouteTry? && TaskOf(s, m).created == x
    {
      OthersWhileRouting(m, x.event);
      exists_ := OriginalId(x.event, x.destination) in s.cells;
      if !exists_ {
        Take(Route(DoRouteRead(m, x)));
      }
    }

    /** The transaction. */
    method TryCreate(m: nat, x: Delivery, shard: nat) returns (ok: bool)
      requires Valid() && Routes(m, x.event) && TaskOf(s, m).RouteTry? && TaskOf(s, m).created == x
      modifies this
      ensures Valid() && Routes(m, x.event) && TaskOf(s, m).Routing?
      ensures ok ==>
                && trace == old(trace) + [Route(DoRouteCommit(m, shard))]
                && OriginalId(x.event, x.destination) in s.cells
                && s.cells[OriginalId(x.event, x.destination)] == NewCell(x)
      ensures !ok ==> CommitsNothing(old(trace), trace, m)
      ensures !ok ==> LostOnce(old(lost), lost) && LostCreate(lost[|lost| - 1], m, shard)
    {
      ok := RouteCommit(s, m, shard).Some?;
      if ok {
        Take(Route(DoRouteCommit(m, shard)));
      } else {
        lost := lost + [s];
        Take(Route(DoRouteRetry(m)));
      }
    }

    /** One round of `createDelivery`; None when the transaction lost. */
    method CreateRound(m: nat, x: Delivery, shard: nat) returns (r: Option<Creation>)
      requires Valid() && Routes(m, x.event) && TaskOf(s, m).Routing? && NewOriginal(x, x.event)
      modifies this
      ensures Valid() && Routes(m, x.event) && TaskOf(s, m).Routing?
      ensures r == Some(Created) ==>
                && CommitsLast(old(trace), trace, m, DoRouteCommit(m, shard))
                && OriginalId(x.event, x.destination) in s.cells
                && s.cells[OriginalId(x.event, x.destination)] == NewCell(x)
      ensures r == Some(Duplicate) ==> OriginalId(x.event, x.destination) in s.cells
      ensures r != Some(Created) ==> CommitsNothing(old(trace), trace, m)
      ensures r != Some(RoutingConflict)
      ensures r.None? ==> LostOnce(old(lost), lost) && LostCreate(lost[|lost| - 1], m, shard)
    {
      ghost var t0 := trace;
      var duplicate := ReadForCreate(m, x);
      if duplicate {
        return Some(Duplicate);
      }
      ghost var t1 := trace;
      OthersWhileRouting(m, x.event);
      NothingFurther(t0, t1, trace, m);
      ghost var t2 := trace;
      var ok := TryCreate(m, x, shard);
      if ok {
        assert trace[..|trace| - 1] == t2;
        return Some(Created);
      }
      NothingFurther(t0, t2, trace, m);
      return None;
    }

    /** `createDelivery`: eight rounds. Created means that this call has stored the delivery as given,
        Duplicate that it was there already; in all other cases the call has changed nothing. A conflict means
        that eight transactions have been lost. */
    method CreateDelivery(m: nat, x: Delivery, shard: nat) returns (r: Creation)
      requires Valid() && Routes(m, x.event) && TaskOf(s, m).Routing? && NewOriginal(x, x.event)
      modifies this
      ensures Valid() && Routes(m, x.event) && TaskOf(s, m).Routing?
      ensures r == Created ==>
                && CommitsLast(old(trace), trace, m, DoRouteCommit(m, shard))
                && OriginalId(x.event, x.destination) in s.cells
                && s.cells[OriginalId(x.event, x.destination)] == NewCell(x)
      ensures r == Duplicate ==> OriginalId(x.event, x.destination) in s.cells
      ensures r != Created ==> CommitsNothing(old(trace), trace, m)
      ensures r == RoutingConflict ==>
                CreatesLost(old(lost), lost, m, shard, 8)
    {
      ghost var before, lostBefore := trace, lost;
      for attempt := 0 to 8
        invariant Valid() && Routes(m, x.event) && TaskOf(s, m).Routing?
        invariant CommitsNothing(before, trace, m)
        invariant CreatesLost(lostBefore, lost, m, shard, attempt)
      {
        ghost var t0, l0 := trace, lost;
        var round := CreateRound(m, x, shard);
        NothingThenLast(before, t0, trace, m, DoRouteCommit(m, shard));
        if round.Some? {
          return round.value;
        }
        OneMoreCreate(lostBefore, l0, lost, m, shard, attempt);
      }
      return RoutingConflict;
    }

    /** The read of one round; an event that is completely routed already needs no write. */
    method ReadForComplete(m: nat, e: EventId) returns (already: bool)
      requires Valid() && Routes(m, e) && TaskOf(s, m).Routing?
      modifies this
      ensures Valid() && Routes(m, e) && CommitsNothing(old(trace), trace, m) && lost == old(lost)
      ensures if already then s.events[e].outcome.routingComplete && TaskOf(s, m).Acking? else TaskOf(s, m).RouteDone?
    {
      OthersWhileRouting(m, e);
      Take(Route(DoCompleteRead(m)));
      already := TaskOf(s, m).Acking?;
    }

    method TryComplete(m: nat, e: EventId) returns (ok: bool)
      requires Valid() && Routes(m, e) && TaskOf(s, m).RouteDone?
      modifies this
      ensures Valid() && Routes(m, e)
      ensures ok ==> s.events[e].outcome.routingComplete && TaskOf(s, m).Acking?
      ensures !ok ==> CommitsNothing(old(trace), trace, m) && TaskOf(s, m).Routing?
      ensures !ok ==> LostOnce(old(lost), lost) && LostComplete(lost[|lost| - 1], m)
    {
      ok := CompleteCommit(s, m).Some?;
      if ok {
        Take(Route(DoCompleteCommit(m)));
      } else {
        lost := lost + [s];
        Take(Route(DoRouteRetry(m)));
      }
    }

    method CompleteRound(m: nat, e: EventId) returns (ok: bool)
      requires Valid() && Routes(m, e) && TaskOf(s, m).Routing?
      modifies this
      ensures Valid() && Routes(m, e)
      ensures ok ==> s.events[e].outcome.routingComplete && TaskOf(s, m).Acking?
      ensures !ok ==> CommitsNothing(old(trace), trace, m) && TaskOf(s, m).Routing?
      ensures !ok ==> LostOnce(old(lost), lost) && LostComplete(lost[|lost| - 1], m)
    {
      ghost var t0 := trace;
      ok := ReadForComplete(m, e);
      if ok {
        return;
      }
      ghost var t1 := trace;
      OthersWhileRouting(m, e);
      NothingFurther(t0, t1, trace, m);
      ghost var t2 := trace;
      ok := TryComplete(m, e);
      if !ok {
        NothingFurther(t0, t2, trace, m);
      }
    }

    /** `completeRouting`: eight rounds; true once the event is known to be completely routed, false when eight
        transactions have been lost. */
    method CompleteRouting(m: nat, e: EventId) returns (ok: bool)
      requires Valid() && Routes(m, e) && TaskOf(s, m).Routing?
      modifies this
      ensures Valid() && Routes(m, e)
      ensures ok ==> s.events[e].outcome.routingComplete && TaskOf(s, m).Acking?
      ensures !ok ==> CommitsNothing(old(trace), trace, m) && TaskOf(s, m).Routing?
      ensures !ok ==> CompletesLost(old(lost), lost, m, 8)
    {
      ghost var before, lostBefore := trace, lost;
      for attempt := 0 to 8
        invariant Valid() && Routes(m, e) && TaskOf(s, m).Routing?
        invariant CommitsNothing(before, trace, m)
        invariant CompletesLost(lostBefore, lost, m, attempt)
      {
        ghost var t0, l0 := trace, lost;
        ok := CompleteRound(m, e);
        if ok {
          return;
        }
        NothingFurther(before, t0, trace, m);
        OneMoreComplete(lostBefore, l0, lost, m, attempt);
      }
      return false;
    }
  }

  // ---------------------------------------------------------------- lost transactions

  ghost predicate LostOnce(before: seq<Sys>, after: seq<Sys>) {
    |after| == |before| + 1 && before <= after
  }

  /** A reachable state in which the finalization of `m` was refused by a condition. */
  ghost predicate LostFinal(s: Sys, m: nat, n: nat, shard: nat) {
    Reachable(s) && InFinal(s, m) && FinalCommit(s, m, n, shard).None?
  }

  ghost predicate LostCreate(s: Sys, m: nat, shard: nat) {
    Reachable(s) && AtEvent(s, m) && TaskOf(s, m).RouteTry? && RouteCommit(s, m, shard).None?
  }

  ghost predicate LostComplete(s: Sys, m: nat) {
    Reachable(s) && AtEvent(s, m) && TaskOf(s, m).RouteDone? && CompleteCommit(s, m).None?
  }

  /** So many finalizations have been lost since then. */
  ghost predicate FinalsLost(before: seq<Sys>, after: seq<Sys>, m: nat, n: nat, shard: nat, times: nat) {
    |after| == |before| + times && forall i :: |before| <= i < |after| ==> LostFinal(after[i], m, n, shard)
  }

  ghost predicate CreatesLost(before: seq<Sys>, after: seq<Sys>, m: nat, shard: nat, times: nat) {
    |after| == |before| + times && forall i :: |before| <= i < |after| ==> LostCreate(after[i], m, shard)
  }

  ghost predicate CompletesLost(before: seq<Sys>, after: seq<Sys>, m: nat, times: nat) {
    |after| == |before| + times && forall i :: |before| <= i < |after| ==> LostComplete(after[i], m)
  }

  lemma OneMoreFinal(first: seq<Sys>, before: seq<Sys>, after: seq<Sys>, m: nat, n: nat, shard: nat, times: nat)
    requires FinalsLost(first, before, m, n, shard, times)
    requires LostOnce(before, after) && LostFinal(after[|after| - 1], m, n, shard)
    ensures FinalsLost(first, after, m, n, shard, times + 1)
  {
  }

  lemma OneMoreCreate(first: seq<Sys>, before: seq<Sys>, after: seq<Sys>, m: nat, shard: nat, times: nat)
    requires CreatesLost(first, before, m, shard, times)
    requires LostOnce(before, after) && LostCreate(after[|after| - 1], m, shard)
    ensures CreatesLost(first, after, m, shard, times + 1)
  {
  }

  lemma OneMoreComplete(first: seq<Sys>, before: seq<Sys>, after: seq<Sys>, m: nat, times: nat)
    requires CompletesLost(first, before, m, times)
    requires LostOnce(before, after) && LostComplete(after[|after| - 1], m)
    ensures CompletesLost(first, after, m, times + 1)
  {
  }

  lemma ReachableFacts(s: Sys)
    requires Reachable(s)
    ensures Inv(s) && Exact(s)
  {
    var first, steps :| Initial(first) && Run(first, steps, s);
    InitialInv(first);
    RunKeepsInv(first, steps, s);
    RunKeepsExact(first, steps, s);
  }

  /** A finalization is lost only to another writer of the delivery, the event, the circuit or the row, or because
      the instant is the one of the last write. */
  lemma FinalLostTo(s: Sys, m: nat, n: nat, shard: nat)
    requires LostFinal(s, m, n, shard)
    ensures var plan := TaskOf(s, m).plan;
            || !AtCell(s, m) || CellOf(s, m).d.version != plan.snap.version
            || plan.final.updatedAt == plan.snap.updatedAt || !FinalItemsCurrent(s, m, n)
  {
    ReachableFacts(s);
    InvLocal(s, m);
    FinalIsExact(s, m, n, shard);
  }

  /** A creation is lost only to another router that has created the delivery or written the event. */
  lemma CreateLostTo(s: Sys, m: nat, shard: nat)
    requires LostCreate(s, m, shard)
    ensures var x, ev := TaskOf(s, m).created, TaskOf(s, m).ev;
            || OriginalId(x.event, x.destination) in s.cells
            || (x.event in s.events && s.events[x.event].version != ev.version)
  {
    ReachableFacts(s);
    InvLocalEvent(s, m);
    CreateIsExact(s, m, shard);
  }

  /** A completion is lost only to another writer of the event. */
  lemma CompleteLostTo(s: Sys, m: nat)
    requires LostComplete(s, m)
    ensures s.msgs[m].target.e in s.events && s.events[s.msgs[m].target.e].version != TaskOf(s, m).ev.version
  {
    ReachableFacts(s);
    InvLocalEvent(s, m);
    CompleteIsExact(s, m);
  }

  predicate ReadsOnly(step: Step) {
    step.Finish? && (step.finish.DoFinalFetch? || step.finish.DoFinalFetchEvent? || step.finish.DoFinalRetry?)
  }

  /** Since then the task of `m` has done nothing. */
  ghost predicate NotSince(before: seq<Step>, after: seq<Step>, m: nat) {
    before <= after && forall i :: |before| <= i < |after| ==> !TakenBy(after[i], m)
  }

  /** Since then the task of `m` has only read. */
  ghost predicate OnlyReadsSince(before: seq<Step>, after: seq<Step>, m: nat) {
    before <= after && forall i :: |before| <= i < |after| && TakenBy(after[i], m) ==> ReadsOnly(after[i])
  }

  /** The task of `m` has only read until its last step, which commits the finalization. */
  ghost predicate Committed(before: seq<Step>, after: seq<Step>, m: nat, n: nat, shard: nat) {
    && |after| > 0 && after[|after| - 1] == Finish(DoFinalCommit(m, n, shard))
    && OnlyReadsSince(before, after[..|after| - 1], m)
  }

  lemma ThenCommits(first: seq<Step>, before: seq<Step>, after: seq<Step>, m: nat, n: nat, shard: nat)
    requires OnlyReadsSince(first, before, m)
    ensures OnlyReadsSince(before, after, m) ==> OnlyReadsSince(first, after, m)
    ensures Committed(before, after, m, n, shard) ==> Committed(first, after, m, n, shard)
  {
  }

  lemma ReadsFurther(first: seq<Step>, before: seq<Step>, after: seq<Step>, m: nat)
    requires OnlyReadsSince(first, before, m) && OnlyReadsSince(before, after, m)
    ensures OnlyReadsSince(first, after, m)
  {
  }

  predicate RouteCommits(step: Step) {
    step.Route? && (step.route.DoRouteCommit? || step.route.DoCompleteCommit?)
  }

  /** Since then the task of `m` has written no delivery and no event. */
  ghost predicate CommitsNothing(before: seq<Step>, after: seq<Step>, m: nat) {
    before <= after && forall i :: |before| <= i < |after| && TakenBy(after[i], m) ==> !RouteCommits(after[i])
  }

  /** Nothing until the last step, which is this one. */
  ghost predicate CommitsLast(before: seq<Step>, after: seq<Step>, m: nat, step: RouteStep) {
    |after| > 0 && after[|after| - 1] == Route(step) && CommitsNothing(before, after[..|after| - 1], m)
  }

  lemma NothingFurther(first: seq<Step>, before: seq<Step>, after: seq<Step>, m: nat)
    requires CommitsNothing(first, before, m) && CommitsNothing(before, after, m)
    ensures CommitsNothing(first, after, m)
  {
  }

  lemma NothingThenLast(first: seq<Step>, before: seq<Step>, after: seq<Step>, m: nat, step: RouteStep)
    requires CommitsNothing(first, before, m)
    ensures CommitsNothing(before, after, m) ==> CommitsNothing(first, after, m)
    ensures CommitsLast(before, after, m, step) ==> CommitsLast(first, after, m, step)
  {
  }
}
