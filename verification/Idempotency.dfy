/** Exactly-once effects of at-least-once requests: the guarded create of `accept` and `createReplay`,
    and what guards mean over whole runs of the protocol. */
module Idempotency {
  import opened Domain
  import opened Cells
  import opened System
  import opened Invariants
  import opened Steps
  import opened Footprints

  /** Keys and records correspond one to one. */
  ghost predicate OneEach<K(!new), R(!new)>(names: map<K, R>, records: set<R>) {
    && (forall k :: k in names ==> names[k] in records)
    && (forall r :: r in records ==> exists k :: k in names && names[k] == r)
    && (forall j, k :: j in names && k in names && names[j] == names[k] ==> j == k)
  }

  lemma AddOne<K(!new), R(!new)>(names: map<K, R>, records: set<R>, k: K, r: R)
    requires OneEach(names, records) && k !in names && r !in records
    ensures OneEach(names[k := r], records + {r})
  {
    var names', records' := names[k := r], records + {r};
    forall x | x in records' ensures exists j :: j in names' && names'[j] == x {
      if x == r {
        assert names'[k] == x;
      } else {
        var j :| j in names && names[j] == x;
        assert names'[j] == x;
      }
    }
  }

  ghost predicate Extends<K(!new), V(!new)>(before: map<K, V>, after: map<K, V>) {
    forall k :: k in before ==> k in after && after[k] == before[k]
  }

  // ---------------------------------------------------------------- one request among others

  datatype Guard = Guard(hash: nat, id: nat)

  /** What a caller is told. */
  datatype Answer = Created(id: nat) | Duplicate(id: nat) | Conflict

  /** The answer that the guard of a request demands, whoever wrote it. */
  predicate Demanded(g: Guard, hash: nat, mine: nat, answer: Answer) {
    if g.hash != hash then answer == Conflict
    else if g.id == mine then answer == Created(mine)
    else answer == Duplicate(g.id)
  }

  ghost function Names<K(!new)>(guards: map<K, Guard>): map<K, nat> {
    map k | k in guards :: guards[k].id
  }

  /** The guards and the records they name: accepted events by producer key, or replay deliveries by
      replay key. */
  class GuardedStore<K(!new,==)> {
    var guards: map<K, Guard>
    var records: set<nat>

    ghost predicate Valid()
      reads this
    {
      OneEach(Names(guards), records)
    }

    constructor ()
      ensures Valid() && guards == map[] && records == {}
    {
      guards, records := map[], {};
    }

    /** Between two requests other callers may create anything, but not under an identifier that was
        generated for a caller still `pending`. What is relied on here is what `Create` guarantees, in its
        first two clauses, of every call with an identifier that is not pending elsewhere. */
    method Interfere(ghost pending: set<nat>)
      requires Valid()
      modifies this
      ensures Valid() && Extends(old(guards), guards)
      ensures old(records) <= records && (records - old(records)) !! pending
    {
    }

    /** Guard read, transaction, and the second look after a failed condition. For the callers whose
        identifiers are `pending` the whole call is interference. */
    method Create(k: K, hash: nat, mine: nat, ghost pending: set<nat>) returns (answer: Answer)
      requires Valid() && mine !in records && mine !in pending
      modifies this
      ensures Valid() && Extends(old(guards), guards)
      ensures old(records) <= records && (records - old(records)) !! pending
      ensures k in guards && Demanded(guards[k], hash, mine, answer)
      ensures k in old(guards) ==> !answer.Created?
      ensures answer.Created? <==> mine in records
    {
      ghost var all := pending + {mine};
      Interfere(all);
      if k in guards {
        answer := Look(k, hash, mine, all);
        return;
      }
      Interfere(all);
      if k !in guards && mine !in records {
        AddOne(Names(guards), records, k, mine);
        ghost var names := Names(guards)[k := mine];
        guards, records := guards[k := Guard(hash, mine)], records + {mine};
        assert Names(guards) == names;
        return Created(mine);
      }
      Interfere(all);
      answer := Look(k, hash, mine, all);
    }

    /** Reads the guard and then the record it names. */
    method Look(k: K, hash: nat, mine: nat, ghost pending: set<nat>) returns (answer: Answer)
      requires Valid() && k in guards && mine !in records && mine in pending
      modifies this
      ensures Valid() && Extends(old(guards), guards)
      ensures old(records) <= records && (records - old(records)) !! pending && mine !in records
      ensures k in guards && Demanded(guards[k], hash, mine, answer) && !answer.Created?
    {
      var g := guards[k];
      assert Names(guards)[k] == g.id;
      if g.hash != hash {
        return Conflict;
      }
      Interfere(pending);
      answer := if g.id in records then Duplicate(g.id) else Conflict;
    }
  }

  // ---------------------------------------------------------------- guards over runs

  ghost function EventNames(s: Sys): map<AcceptKey, EventId> {
    map k | k in s.accepted :: s.accepted[k].event
  }

  ghost function ReplayNames(s: Sys): map<nat, DeliveryId> {
    map k | k in s.replays :: s.replays[k].replay
  }

  ghost function ReplayIds(s: Sys): set<DeliveryId> {
    set d | d in s.cells && d.ReplayId?
  }

  /** Every event is named by exactly one producer key, every replay delivery by exactly one replay key. */
  ghost predicate OnceInv(s: Sys) {
    OneEach(EventNames(s), s.events.Keys) && OneEach(ReplayNames(s), ReplayIds(s))
  }

  /** Guards are only written together with the record they name. */
  predicate GuardsOk(s: Sys, e: Effect) {
    && (if e.accepted.Some? then
          && e.accepted.value.0 !in s.accepted
          && e.event.Some? && e.event.value.0 == e.accepted.value.1.event && e.event.value.0 !in s.events
        else e.event.Some? ==> e.event.value.0 in s.events)
    && (if e.replay.Some? then
          && e.replay.value.0 !in s.replays
          && e.cell.Some? && e.cell.value.0 == e.replay.value.1.replay && e.cell.value.0 !in s.cells
          && e.cell.value.0.ReplayId?
        else e.cell.Some? && e.cell.value.0.ReplayId? ==> e.cell.value.0 in s.cells)
  }

  lemma KeepAcceptedOnce(s: Sys, e: Effect)
    requires OneEach(EventNames(s), s.events.Keys) && GuardsOk(s, e)
    ensures OneEach(EventNames(Apply(s, e)), Apply(s, e).events.Keys)
    ensures Extends(s.accepted, Apply(s, e).accepted)
  {
    var s' := Apply(s, e);
    if e.accepted.Some? {
      var (k, x) := (e.accepted.value.0, e.event.value.0);
      AddOne(EventNames(s), s.events.Keys, k, x);
      assert EventNames(s') == EventNames(s)[k := x];
      assert s'.events.Keys == s.events.Keys + {x};
    } else {
      assert s'.events.Keys == s.events.Keys;
    }
  }

  lemma KeepReplaysOnce(s: Sys, e: Effect)
    requires OneEach(ReplayNames(s), ReplayIds(s)) && GuardsOk(s, e)
    ensures OneEach(ReplayNames(Apply(s, e)), ReplayIds(Apply(s, e)))
    ensures Extends(s.replays, Apply(s, e).replays)
  {
    var s' := Apply(s, e);
    if e.replay.Some? {
      var (k, d) := (e.replay.value.0, e.cell.value.0);
      AddOne(ReplayNames(s), ReplayIds(s), k, d);
      assert ReplayNames(s') == ReplayNames(s)[k := d];
      assert ReplayIds(s') == ReplayIds(s) + {d};
    } else {
      assert ReplayIds(s') == ReplayIds(s);
    }
  }

  lemma LeaseGuards(s: Sys, step: LeaseStep)
    requires Local(s, step.m) && LeaseEffect(s, step).Some?
    ensures GuardsOk(s, LeaseEffect(s, step).value)
  {
  }

  lemma AttemptGuards(s: Sys, step: AttemptStep)
    requires Local(s, step.m) && AttemptEffect(s, step).Some?
    ensures GuardsOk(s, AttemptEffect(s, step).value)
  {
  }

  lemma FinishGuards(s: Sys, step: FinishStep)
    requires Local(s, step.m) && FinishEffect(s, step).Some?
    ensures GuardsOk(s, FinishEffect(s, step).value)
  {
  }

  lemma RouteGuards(s: Sys, step: RouteStep)
    requires LocalEvent(s, step.m) && RouteEffect(s, step).Some?
    ensures GuardsOk(s, RouteEffect(s, step).value)
  {
  }

  lemma IntakeGuards(s: Sys, step: IntakeStep)
    requires IntakeEffect(s, step).Some?
    ensures GuardsOk(s, IntakeEffect(s, step).value)
  {
  }

  lemma StepGuards(s: Sys, step: Step)
    requires Inv(s) && Enabled(s, step)
    ensures GuardsOk(s, StepEffect(s, step).value)
  {
    match step
    case Queue(q) => QueueFootprint(s, q);
    case Read(r) => ReadFootprint(s, r);
    case Permit(p) => PermitFootprint(s, p);
    case Publish(p) => PublishFootprint(s, p);
    case Acquire(l) => InvLocal(s, l.m); LeaseGuards(s, l);
    case Attempted(a) => InvLocal(s, a.m); AttemptGuards(s, a);
    case Finish(f) => InvLocal(s, f.m); FinishGuards(s, f);
    case Route(r) => InvLocalEvent(s, r.m); RouteGuards(s, r);
    case Intake(i) => IntakeGuards(s, i);
  }

  /** A guard, once written, keeps naming the same record for the same request. */
  lemma {:induction false} RunKeepsOnce(s: Sys, steps: seq<Step>, t: Sys)
    requires Inv(s) && OnceInv(s) && Run(s, steps, t)
    ensures OnceInv(t) && Extends(s.accepted, t.accepted) && Extends(s.replays, t.replays)
    decreases |steps|
  {
    if steps != [] {
      FirstStep(s, steps, t);
      StepGuards(s, steps[0]);
      KeepAcceptedOnce(s, StepEffect(s, steps[0]).value);
      KeepReplaysOnce(s, StepEffect(s, steps[0]).value);
      StepKeepsInv(s, steps[0]);
      RunKeepsOnce(Next(s, steps[0]), steps[1..], t);
    }
  }

  /** The router derives the identifier of an original delivery, so in a reachable state an event has at
      most one original delivery per destination. */
  lemma OneOriginal(s: Sys, steps: seq<Step>, t: Sys, a: DeliveryId, b: DeliveryId)
    requires Initial(s) && Run(s, steps, t) && a in t.cells && b in t.cells
    requires t.cells[a].d.kind == Original && t.cells[b].d.kind == Original
    requires t.cells[a].d.event == t.cells[b].d.event && t.cells[a].d.destination == t.cells[b].d.destination
    ensures a == b
  {
    InitialInv(s);
    RunKeepsInv(s, steps, t);
    assert IdentityOk(a, t.cells[a].d) && IdentityOk(b, t.cells[b].d);
  }

  /** Exactly once: in every reachable state events correspond one to one to producer keys and replay
      deliveries one to one to replay keys; and from the moment a key is taken it names the same
      record for the same request, so every later request with it is answered alike. */
  lemma ExactlyOnce(s: Sys, before: seq<Step>, t: Sys, after: seq<Step>, u: Sys)
    requires Initial(s) && Run(s, before, t) && Run(t, after, u)
    ensures OneEach(EventNames(u), u.events.Keys) && OneEach(ReplayNames(u), ReplayIds(u))
    ensures Extends(t.accepted, u.accepted) && Extends(t.replays, u.replays)
  {
    InitialInv(s);
    RunKeepsInv(s, before, t);
    RunKeepsOnce(s, before, t);
    RunKeepsOnce(t, after, u);
  }
}
