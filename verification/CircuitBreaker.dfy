/** The per-destination circuit breaker: the read-decide-swap loop of `acquireCircuitPermit`
    and the state computed by `circuitAfterAttempt`, which `finalizeAttempt` commits. */
module CircuitBreaker {
  import opened Domain

  /** The policy in milliseconds. */
  datatype CircuitPolicy = CircuitPolicy(threshold: nat, cooldownMs: nat, probeLeaseMs: nat)

  predicate ValidCircuitPolicy(p: CircuitPolicy) {
    p.threshold > 0 && p.cooldownMs > 0 && p.probeLeaseMs > 0
  }

  datatype CircuitMode = Closed | Open | HalfOpen

  /** One lease of one delivery: the delivery and the version the lease was committed at. */
  datatype Holder = Holder(delivery: DeliveryId, version: nat)

  datatype Circuit = Circuit(
    mode: CircuitMode, failures: nat, nextProbeAt: Option<Time>,
    probeOwner: Option<Holder>, probeExpiresAt: Option<Time>, version: nat)

  /** What an absent runtime item stands for. */
  const INITIAL_CIRCUIT := Circuit(Closed, 0, None, None, None, 0)

  datatype CircuitAnswer = Allowed | Refused(nextEligibleAt: Time) | MayProbe(probe: Circuit)

  /** One round of `acquireCircuitPermit`, up to the conditional put. */
  function AskCircuit(current: Circuit, p: CircuitPolicy, owner: Holder, now: Time): CircuitAnswer {
    var nextProbe := if current.nextProbeAt.Some? then current.nextProbeAt.value else now;
    if current.mode == Closed then Allowed
    else if current.mode == Open && nextProbe > now then Refused(nextProbe)
    else if current.mode == HalfOpen && current.probeExpiresAt.Some?
            && current.probeExpiresAt.value > now then Refused(current.probeExpiresAt.value)
    else MayProbe(current.(mode := HalfOpen, probeOwner := Some(owner),
                           probeExpiresAt := Some(now + p.probeLeaseMs),
                           version := current.version + 1))
  }

  function CircuitAfterAttempt(
    current: Circuit, p: CircuitPolicy, now: Time, success: bool, counts: bool, probe: bool): Circuit
  {
    var version := current.version + 1;
    if success then Circuit(Closed, 0, None, None, None, version)
    else if !counts then current.(version := version)
    else
      var failures := current.failures + 1;
      if probe || failures >= p.threshold then
        Circuit(Open, failures, Some(now + p.cooldownMs), None, None, version)
      else Circuit(Closed, failures, None, None, None, version)
  }

  /** A refusal names the first instant at which the same item would not refuse. */
  lemma RefusalIsExact(c: Circuit, p: CircuitPolicy, owner: Holder, now: Time, later: Time)
    requires AskCircuit(c, p, owner, now).Refused?
    ensures now < AskCircuit(c, p, owner, now).nextEligibleAt
    ensures AskCircuit(c, p, owner, later).Refused? <==> later < AskCircuit(c, p, owner, now).nextEligibleAt
  {
  }

  // ---------------------------------------------------------------- committed writes

  datatype Entry =
    | Probe(holder: Holder, now: Time)
    | Result(holder: Holder, probe: bool, success: bool, counts: bool, now: Time)

  function CircuitAfter(p: CircuitPolicy, log: seq<Entry>): Circuit {
    if log == [] then INITIAL_CIRCUIT
    else EntryEffect(p, CircuitAfter(p, log[..|log| - 1]), log[|log| - 1])
  }

  function EntryEffect(p: CircuitPolicy, before: Circuit, e: Entry): Circuit {
    match e
    case Probe(h, now) =>
      (match AskCircuit(before, p, h, now) case MayProbe(c) => c case _ => before)
    case Result(_, probe, success, counts, now) =>
      CircuitAfterAttempt(before, p, now, success, counts, probe)
  }

  /** A probe was granted by the decision; a result was permitted by the item it replaces,
      either because that item was closed or because it was written by the same holder's probe. */
  ghost predicate EntryOk(p: CircuitPolicy, log: seq<Entry>, e: Entry) {
    match e
    case Probe(h, now) => AskCircuit(CircuitAfter(p, log), p, h, now).MayProbe?
    case Result(h, probe, _, _, _) =>
      if probe then log != [] && log[|log| - 1].Probe? && log[|log| - 1].holder == h
      else CircuitAfter(p, log).mode == Closed
  }

  ghost predicate CircuitChain(p: CircuitPolicy, log: seq<Entry>) {
    log != [] ==>
      CircuitChain(p, log[..|log| - 1]) && EntryOk(p, log[..|log| - 1], log[|log| - 1])
  }

  /** Counted failures since the last success. */
  function CountedFailures(log: seq<Entry>): nat {
    if log == [] then 0
    else
      var before := CountedFailures(log[..|log| - 1]);
      match log[|log| - 1]
      case Probe(_, _) => before
      case Result(_, _, success, counts, _) =>
        if success then 0 else if counts then before + 1 else before
  }

  lemma {:induction false} ChainPrefix(p: CircuitPolicy, log: seq<Entry>, n: nat)
    requires CircuitChain(p, log) && n <= |log|
    ensures CircuitChain(p, log[..n])
  {
    if n < |log| {
      ChainPrefix(p, log[..|log| - 1], n);
      assert log[..|log| - 1][..n] == log[..n];
    } else {
      assert log[..n] == log;
    }
  }

  /** The stored item as a fold of the committed outcomes. */
  lemma {:induction false} CircuitFold(p: CircuitPolicy, log: seq<Entry>)
    requires ValidCircuitPolicy(p) && CircuitChain(p, log)
    ensures CircuitAfter(p, log).version == |log|
    ensures CircuitAfter(p, log).failures == CountedFailures(log)
    ensures CircuitAfter(p, log).mode == Closed <==> CountedFailures(log) < p.threshold
    ensures CircuitAfter(p, log).mode == HalfOpen ==> CircuitAfter(p, log).probeExpiresAt.Some?
    ensures CircuitAfter(p, log).mode == Open ==> CircuitAfter(p, log).nextProbeAt.Some?
  {
    if log != [] {
      var init := log[..|log| - 1];
      CircuitFold(p, init);
      if log[|log| - 1].Result? && log[|log| - 1].probe {
        AfterProbe(p, init);
      }
    }
  }

  lemma {:induction false} AfterProbe(p: CircuitPolicy, log: seq<Entry>)
    requires CircuitChain(p, log) && log != [] && log[|log| - 1].Probe?
    ensures CircuitAfter(p, log).mode == HalfOpen
    ensures CircuitAfter(p, log).probeExpiresAt == Some(log[|log| - 1].now + p.probeLeaseMs)
  {
  }

  /** What may follow a probe in the chain of committed writes: the result of that very probe,
      or another probe once the lease of the first has run out. */
  lemma {:induction false} ProbeExclusion(p: CircuitPolicy, log: seq<Entry>, i: nat)
    requires CircuitChain(p, log) && i + 1 < |log| && log[i].Probe?
    ensures if log[i + 1].Result? then log[i + 1].probe && log[i + 1].holder == log[i].holder
            else log[i + 1].now >= log[i].now + p.probeLeaseMs
  {
    ChainPrefix(p, log, i + 2);
    var upTo := log[..i + 2];
    var before := log[..i + 1];
    assert upTo[..|upTo| - 1] == before;
    AfterProbe(p, before);
  }

  /** A result that neither closes nor opens the circuit leaves the probe lease in force. */
  lemma {:induction false} UncountedKeepsProbe(p: CircuitPolicy, log: seq<Entry>, i: nat)
    requires CircuitChain(p, log) && i + 2 < |log| && log[i].Probe?
    requires log[i + 1].Result? && !log[i + 1].success && !log[i + 1].counts
    ensures log[i + 2].Probe? && log[i + 2].now >= log[i].now + p.probeLeaseMs
  {
    ChainPrefix(p, log, i + 3);
    ChainPrefix(p, log, i + 2);
    var third, second, first := log[..i + 3], log[..i + 2], log[..i + 1];
    assert third[..|third| - 1] == second && second[..|second| - 1] == first;
    AfterProbe(p, first);
  }

  // ---------------------------------------------------------------- what a caller is told

  /** The last write that decided whether callers may pass: a probe, a success or a counted failure. */
  function Deciding(log: seq<Entry>): Option<Entry> {
    if log == [] then None
    else
      var e := log[|log| - 1];
      if e.Result? && !e.success && !e.counts then Deciding(log[..|log| - 1]) else Some(e)
  }

  /** Until when that write keeps callers away: the cooldown after a failure, the lease of a probe. */
  function BlocksUntil(p: CircuitPolicy, e: Entry): Time {
    if e.Probe? then e.now + p.probeLeaseMs else e.now + p.cooldownMs
  }

  /** Below the threshold the circuit is closed; from there on the item says which write decides. */
  lemma {:induction false} DecidingState(p: CircuitPolicy, log: seq<Entry>)
    requires ValidCircuitPolicy(p) && CircuitChain(p, log) && CountedFailures(log) >= p.threshold
    ensures Deciding(log).Some?
    ensures var c, e := CircuitAfter(p, log), Deciding(log).value;
            if e.Probe? then c.mode == HalfOpen && c.probeExpiresAt == Some(BlocksUntil(p, e))
            else !e.success && e.counts && c.mode == Open && c.nextProbeAt == Some(BlocksUntil(p, e))
  {
    var init, e := log[..|log| - 1], log[|log| - 1];
    CircuitFold(p, init);
    if e.Result? && !e.success && !e.counts {
      DecidingState(p, init);
    } else if e.Result? && e.probe {
      AfterProbe(p, init);
    }
  }

  /** What a caller is told, from the history alone: below the threshold it is allowed; otherwise it is refused
      until the cooldown of the last counted failure or the lease of the last probe has passed, and may probe
      from then on. */
  lemma AskFromHistory(p: CircuitPolicy, log: seq<Entry>, h: Holder, now: Time)
    requires ValidCircuitPolicy(p) && CircuitChain(p, log)
    ensures CountedFailures(log) < p.threshold ==> AskCircuit(CircuitAfter(p, log), p, h, now) == Allowed
    ensures CountedFailures(log) >= p.threshold ==>
              && Deciding(log).Some?
              && var answer, until := AskCircuit(CircuitAfter(p, log), p, h, now), BlocksUntil(p, Deciding(log).value);
                 && (now < until ==> answer == Refused(until))
                 && (now >= until ==>
                       && answer.MayProbe? && answer.probe.mode == HalfOpen && answer.probe.probeOwner == Some(h)
                       && answer.probe.probeExpiresAt == Some(now + p.probeLeaseMs)
                       && answer.probe.failures == CountedFailures(log) && answer.probe.version == |log| + 1)
  {
    CircuitFold(p, log);
    if CountedFailures(log) >= p.threshold {
      DecidingState(p, log);
    }
  }

  /** After the failure that opens the circuit nothing is written until the cooldown has passed, and then a
      probe; until then callers are told just that instant. */
  lemma {:induction false} CooldownExclusion(p: CircuitPolicy, log: seq<Entry>, i: nat, h: Holder, now: Time)
    requires ValidCircuitPolicy(p) && CircuitChain(p, log) && i < |log|
    requires log[i].Result? && !log[i].success && log[i].counts && CountedFailures(log[..i + 1]) >= p.threshold
    ensures now < log[i].now + p.cooldownMs ==>
              AskCircuit(CircuitAfter(p, log[..i + 1]), p, h, now) == Refused(log[i].now + p.cooldownMs)
    ensures i + 1 < |log| ==> log[i + 1].Probe? && log[i + 1].now >= log[i].now + p.cooldownMs
  {
    ChainPrefix(p, log, i + 1);
    AskFromHistory(p, log[..i + 1], h, now);
    if i + 1 < |log| {
      ChainPrefix(p, log, i + 2);
      assert log[..i + 2][..i + 1] == log[..i + 1];
      CircuitFold(p, log[..i + 1]);
      if log[i + 1].Probe? {
        AskFromHistory(p, log[..i + 1], log[i + 1].holder, log[i + 1].now);
      }
    }
  }

  // ---------------------------------------------------------------- permits

  /** What `deliver` keeps from `acquireCircuitPermit` until it finalizes. */
  datatype CircuitPermit = CircuitPermit(state: Circuit, probe: bool)

  /** The permit was handed out for a prefix of the log: a closed item, or this holder's own probe. */
  ghost predicate PermitOk(p: CircuitPolicy, log: seq<Entry>, permit: CircuitPermit, h: Holder) {
    var v := permit.state.version;
    && v <= |log|
    && permit.state == CircuitAfter(p, log[..v])
    && (if permit.probe then v > 0 && log[v - 1].Probe? && log[v - 1].holder == h
        else permit.state.mode == Closed)
  }

  lemma PermitStable(p: CircuitPolicy, log: seq<Entry>, e: Entry, permit: CircuitPermit, h: Holder)
    requires PermitOk(p, log, permit, h)
    ensures PermitOk(p, log + [e], permit, h)
  {
    var v := permit.state.version;
    assert (log + [e])[..v] == log[..v];
  }

  /** Committing a permitted result under the version condition extends the chain. */
  lemma {:induction false} CommitResult(
    p: CircuitPolicy, log: seq<Entry>, permit: CircuitPermit, h: Holder,
    success: bool, counts: bool, now: Time)
    requires ValidCircuitPolicy(p) && CircuitChain(p, log) && PermitOk(p, log, permit, h)
    requires CircuitAfter(p, log).version == permit.state.version
    ensures CircuitChain(p, log + [Result(h, permit.probe, success, counts, now)])
    ensures CircuitAfter(p, log + [Result(h, permit.probe, success, counts, now)])
            == CircuitAfterAttempt(permit.state, p, now, success, counts, permit.probe)
  {
    CircuitFold(p, log);
    assert log[..permit.state.version] == log;
    var next := log + [Result(h, permit.probe, success, counts, now)];
    assert next[..|next| - 1] == log;
  }

  lemma {:induction false} CommitProbe(p: CircuitPolicy, log: seq<Entry>, h: Holder, now: Time)
    requires ValidCircuitPolicy(p) && CircuitChain(p, log)
    requires AskCircuit(CircuitAfter(p, log), p, h, now).MayProbe?
    ensures CircuitChain(p, log + [Probe(h, now)])
    ensures CircuitAfter(p, log + [Probe(h, now)]) == AskCircuit(CircuitAfter(p, log), p, h, now).probe
    ensures PermitOk(p, log + [Probe(h, now)], CircuitPermit(CircuitAfter(p, log + [Probe(h, now)]), true), h)
  {
    CircuitFold(p, log);
    var next := log + [Probe(h, now)];
    assert next[..|next| - 1] == log;
    assert next[..|next|] == next;
  }

  // ---------------------------------------------------------------- the permit loop

  /** The circuit item of one destination, with every write committed so far. */
  class CircuitItem {
    const policy: CircuitPolicy
    var item: Circuit
    ghost var log: seq<Entry>

    ghost predicate Valid()
      reads this
    {
      ValidCircuitPolicy(policy) && CircuitChain(policy, log) && item == CircuitAfter(policy, log)
    }

    constructor (policy: CircuitPolicy)
      requires ValidCircuitPolicy(policy)
      ensures Valid() && this.policy == policy && log == []
    {
      this.policy := policy;
      item := INITIAL_CIRCUIT;
      log := [];
    }

    /** Other workers may commit probes and results between two requests of a holder. `idle` are the holders
        that are themselves between two requests. What is relied on here is what `AcquireCircuitPermit` and
        `PutResult` guarantee, in their first clauses, of every call by a holder that is not idle. */
    method Interfere(ghost idle: set<Holder>)
      requires Valid()
      modifies this
      ensures Valid() && OthersOnly(old(log), log, idle)
    {
    }

    /** The circuit part of the transaction of `finalizeAttempt`: a conditional put under the version of the
        permit. For the holders in `idle` it is interference. */
    method PutResult(
      h: Holder, permit: CircuitPermit, now: Time, success: bool, counts: bool, ghost idle: set<Holder>)
      returns (ok: bool)
      requires Valid() && PermitOk(policy, log, permit, h) && h !in idle
      modifies this
      ensures Valid() && OthersOnly(old(log), log, idle)
      ensures ok <==> old(item).version == permit.state.version
      ensures log == if ok then old(log) + [Result(h, permit.probe, success, counts, now)] else old(log)
    {
      ok := item.version == permit.state.version;
      if ok {
        CommitResult(policy, log, permit, h, success, counts, now);
        item := CircuitAfterAttempt(permit.state, policy, now, success, counts, permit.probe);
        log := log + [Result(h, permit.probe, success, counts, now)];
      }
    }

    /** The conditional put of a probe. */
    method PutProbe(h: Holder, now: Time, ghost seen: seq<Entry>, expected: nat, probe: Circuit) returns (ok: bool)
      requires Valid() && CircuitChain(policy, seen) && seen <= log && expected == CircuitAfter(policy, seen).version
      requires AskCircuit(CircuitAfter(policy, seen), policy, h, now) == MayProbe(probe)
      modifies this
      ensures Valid()
      ensures ok ==> log == old(log) + [Probe(h, now)] && PermitOk(policy, log, CircuitPermit(probe, true), h)
      ensures !ok ==> log == old(log) && |log| > |seen|
    {
      CircuitFold(policy, seen);
      CircuitFold(policy, log);
      ok := item.version == expected;
      if ok {
        assert log == seen;
        CommitProbe(policy, log, h, now);
        item := probe;
        log := log + [Probe(h, now)];
      }
    }

    /** `acquireCircuitPermit`. An allowed caller holds a permit that a later result can be
        committed under: its own probe, or the item as it is. The only thing the call may have written is that
        probe. A caller is turned away by a refusal, or when others have written in each of the eight rounds.
        For the holders in `idle` the whole call is interference. */
    method AcquireCircuitPermit(h: Holder, now: Time, ghost idle: set<Holder>)
      returns (allowed: bool, permit: CircuitPermit, nextEligibleAt: Time)
      requires Valid() && h !in idle
      modifies this
      ensures Valid() && OthersOnly(old(log), log, idle)
      ensures allowed ==> PermitOk(policy, log, permit, h)
      ensures allowed && permit.probe ==>
                && log != [] && log[|log| - 1] == Probe(h, now)
                && OthersOnly(old(log), log[..|log| - 1], idle + {h})
      ensures !(allowed && permit.probe) ==> OthersOnly(old(log), log, idle + {h})
      ensures allowed && !permit.probe ==> permit.state == item && AskCircuit(item, policy, h, now) == Allowed
      ensures !allowed ==> nextEligibleAt > now
      ensures !allowed ==> || AskCircuit(item, policy, h, now) == Refused(nextEligibleAt)
                           || (nextEligibleAt == now + 5000 && |log| >= |old(log)| + 8)
    {
      ghost var all := idle + {h};
      for attempt := 0 to 8
        invariant Valid() && OthersOnly(old(log), log, all) && |log| >= |old(log)| + attempt
      {
        Interfere(all);
        var current := item;
        ghost var seen := log;
        CircuitFold(policy, log);
        assert log[..|log|] == log;
        match AskCircuit(current, policy, h, now)
        case Allowed => return true, CircuitPermit(current, false), now;
        case Refused(at) => return false, CircuitPermit(current, false), at;
        case MayProbe(probe) =>
          Interfere(all);
          ghost var before := log;
          var ok := PutProbe(h, now, seen, current.version, probe);
          if ok {
            assert log[..|log| - 1] == before;
            return true, CircuitPermit(probe, true), now;
          }
      }
      return false, CircuitPermit(INITIAL_CIRCUIT, false), now + 5000;
    }
  }

  /** `after` extends `before` with writes of holders that are not idle. */
  ghost predicate OthersOnly(before: seq<Entry>, after: seq<Entry>, idle: set<Holder>) {
    before <= after && forall k :: |before| <= k < |after| ==> after[k].holder !in idle
  }
}
