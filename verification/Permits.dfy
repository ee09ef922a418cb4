/** The rate limiter and the circuit breaker inside the protocol: what their theorems say about the
    permits and outcomes that any interleaving of workers commits. */
module Permits {
  import opened Domain
  import opened Cells
  import opened System
  import opened Invariants
  import opened Steps
  import RL = RateLimiter
  import CB = CircuitBreaker

  lemma StepExtendsLogs(s: Sys, step: Step, x: DestinationId)
    requires Inv(s) && Enabled(s, step)
    ensures CircuitOf(s, x).log <= CircuitOf(Next(s, step), x).log
    ensures RateOf(s, x).log <= RateOf(Next(s, step), x).log
  {
    StepOk(s, step);
  }

  /** Committed permits and outcomes are never undone or reordered. */
  lemma {:induction false} RunExtendsLogs(s: Sys, steps: seq<Step>, t: Sys, x: DestinationId)
    requires Inv(s) && Run(s, steps, t)
    ensures CircuitOf(s, x).log <= CircuitOf(t, x).log
    ensures RateOf(s, x).log <= RateOf(t, x).log
    ensures s.policies == t.policies
    decreases |steps|
  {
    if steps != [] {
      FirstStep(s, steps, t);
      StepExtendsLogs(s, steps[0], x);
      StepKeepsInv(s, steps[0]);
      RunExtendsLogs(Next(s, steps[0]), steps[1..], t, x);
    }
  }

  /** The permits workers commit to one destination, in version order, obey the GCRA bound, so no window
      holds more than burst + length / increment of them. The clock readings are the workers' own. */
  lemma RateBoundOverRuns(s: Sys, steps: seq<Step>, t: Sys, x: DestinationId, from: Time, length: nat)
    requires Initial(s) && Run(s, steps, t) && x in t.rates
    ensures x in t.policies && RL.ValidLimits(t.policies[x].rate)
    ensures RateVersion(t.rates[x].item) == |t.rates[x].log|
    ensures |RL.InWindow(t.rates[x].log, from, length)| as real
            <= t.policies[x].rate.burst as real + length as real / t.policies[x].rate.increment
    ensures RL.Conforms(t.policies[x].rate, t.rates[x].log)
  {
    InitialInv(s);
    RunKeepsInv(s, steps, t);
    var g, log := t.policies[x].rate, t.rates[x].log;
    RL.ChainVersion(g, log);
    RL.WindowBound(g, log, from, length);
    RL.ChainConforms(g, log);
  }

  /** What a write of the circuit forces upon the next one. */
  ghost predicate NextWriteOk(p: CB.CircuitPolicy, log: seq<CB.Entry>, i: nat)
    requires i + 1 < |log|
  {
    match log[i]
    case Probe(h, now) =>
      if log[i + 1].Result? then log[i + 1].probe && log[i + 1].holder == h
      else log[i + 1].now >= now + p.probeLeaseMs
    case Result(_, _, success, counts, now) =>
      !success && counts && CB.CountedFailures(log[..i + 1]) >= p.threshold ==>
        log[i + 1].Probe? && log[i + 1].now >= now + p.cooldownMs
  }

  /** Circuit versions form one chain: the item is the fold of the committed outcomes, what follows a probe is
      its own result or a probe after its lease ran out, and what follows the failure that opens the circuit
      is a probe after the cooldown. */
  lemma CircuitOverRuns(s: Sys, steps: seq<Step>, t: Sys, x: DestinationId)
    requires Initial(s) && Run(s, steps, t) && x in t.circuits
    ensures x in t.policies
    ensures t.circuits[x].item.version == |t.circuits[x].log|
    ensures t.circuits[x].item.failures == CB.CountedFailures(t.circuits[x].log)
    ensures t.circuits[x].item.mode == CB.Closed
            <==> CB.CountedFailures(t.circuits[x].log) < t.policies[x].circuit.threshold
    ensures forall i: nat :: i + 1 < |t.circuits[x].log| ==> NextWriteOk(t.policies[x].circuit, t.circuits[x].log, i)
  {
    InitialInv(s);
    RunKeepsInv(s, steps, t);
    var p, log := t.policies[x].circuit, t.circuits[x].log;
    CB.CircuitFold(p, log);
    forall i: nat | i + 1 < |log| ensures NextWriteOk(p, log, i) {
      if log[i].Probe? {
        CB.ProbeExclusion(p, log, i);
      } else if !log[i].success && log[i].counts && CB.CountedFailures(log[..i + 1]) >= p.threshold {
        CB.CooldownExclusion(p, log, i, log[i].holder, log[i].now);
      }
    }
  }

  /** What a worker is told in a reachable state, from the writes committed so far. */
  lemma CircuitAnswers(s: Sys, steps: seq<Step>, t: Sys, x: DestinationId, h: CB.Holder, now: Time)
    requires Initial(s) && Run(s, steps, t) && x in t.policies
    ensures var p, log := t.policies[x].circuit, CircuitOf(t, x).log;
            var answer := CB.AskCircuit(CircuitOf(t, x).item, p, h, now);
            if CB.CountedFailures(log) < p.threshold then answer == CB.Allowed
            else
              && CB.Deciding(log).Some?
              && var until := CB.BlocksUntil(p, CB.Deciding(log).value);
                 if now < until then answer == CB.Refused(until) else answer.MayProbe?
  {
    InitialInv(s);
    RunKeepsInv(s, steps, t);
    InvDestination(t, x);
    CB.AskFromHistory(t.policies[x].circuit, CircuitOf(t, x).log, h, now);
  }

  lemma OldPermitLoses(t: Sys, m: nat, n: nat, shard: nat)
    requires InFinal(t, m) && TaskOf(t, m).write.Some?
    requires DestinationOk(t, TaskOf(t, m).plan.snap.destination)
    requires TaskOf(t, m).write.value.permit.state.version < |CircuitOf(t, TaskOf(t, m).plan.snap.destination).log|
    ensures FinalCommit(t, m, n, shard).None?
  {
    var x := TaskOf(t, m).plan.snap.destination;
    if x in t.policies {
      CircuitVersion(t, x);
    }
  }

  /** Once anything is committed on top of the circuit version a permit was handed out at, no worker
      can finalize with a result under such a permit any more: of several attempts permitted at one
      version at most one commits its real result. */
  lemma OneResultPerVersion(s: Sys, steps: seq<Step>, t: Sys, m: nat, n: nat, shard: nat)
    requires Inv(s) && Run(s, steps, t)
    requires InFinal(t, m) && TaskOf(t, m).write.Some?
    requires TaskOf(t, m).write.value.permit.state.version < |CircuitOf(s, TaskOf(t, m).plan.snap.destination).log|
    ensures FinalCommit(t, m, n, shard).None?
  {
    var x := TaskOf(t, m).plan.snap.destination;
    RunExtendsLogs(s, steps, t, x);
    RunKeepsInv(s, steps, t);
    InvDestination(t, x);
    OldPermitLoses(t, m, n, shard);
  }
}
