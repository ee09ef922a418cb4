/** The per-destination rate limiter: `rateLimitDecision` (GCRA in virtual-scheduling form)
    and the compare-and-swap loop of `acquireRatePermit` around it. */
module RateLimiter {
  import opened Domain

  datatype RatePolicy = RatePolicy(requests: nat, intervalSeconds: real, burst: nat, safetyFactor: real)

  predicate ValidRatePolicy(p: RatePolicy) {
    p.requests > 0 && p.intervalSeconds > 0.0 && p.burst > 0 && 0.0 < p.safetyFactor <= 1.0
  }

  datatype RateState = RateState(tat: Time, version: nat)

  datatype RateDecision = Denied(nextEligibleAt: Time) | Granted(tat: Time)

  /** A policy reduced to what the decision uses: the milliseconds one permit takes up, and the burst. */
  datatype Limits = Limits(increment: real, burst: nat)

  predicate ValidLimits(g: Limits) {
    g.increment > 0.0 && g.burst > 0
  }

  function LimitsOf(p: RatePolicy): (g: Limits)
    requires ValidRatePolicy(p)
    ensures ValidLimits(g)
  {
    assert p.requests as real * p.safetyFactor > 0.0;
    Limits(p.intervalSeconds * 1000.0 / (p.requests as real * p.safetyFactor), p.burst)
  }

  /** `n` increments. */
  function Steps(g: Limits, n: int): real {
    g.increment * n as real
  }

  /** How far ahead of schedule a permit may come. */
  function Tolerance(g: Limits): real {
    Steps(g, if g.burst >= 1 then g.burst - 1 else 0)
  }

  function RateLimitDecision(state: Option<RateState>, g: Limits, now: Time): RateDecision {
    var tat := if state.Some? then state.value.tat else now;
    var earliest := tat as real - Tolerance(g);
    if now as real < earliest then Denied(Ceil(earliest))
    else Granted(Ceil((if now >= tat then now else tat) as real + g.increment))
  }

  // ---------------------------------------------------------------- committed permits

  /** A committed permit: who asked and the clock reading it was granted at. */
  datatype Permit = Permit(owner: nat, now: Time)

  /** The stored item after the permits in `log`, oldest first. */
  function RateAfter(g: Limits, log: seq<Permit>): Option<RateState>
    requires ValidLimits(g)
  {
    if log == [] then None
    else
      var before := RateAfter(g, log[..|log| - 1]);
      match RateLimitDecision(before, g, log[|log| - 1].now)
      case Granted(tat) => Some(RateState(tat, |log|))
      case Denied(_) => before
  }

  /** Every permit in the log was granted against the item its predecessors left. */
  ghost predicate RateChain(g: Limits, log: seq<Permit>)
    requires ValidLimits(g)
  {
    log != [] ==>
      && RateChain(g, log[..|log| - 1])
      && RateLimitDecision(RateAfter(g, log[..|log| - 1]), g, log[|log| - 1].now).Granted?
  }

  lemma {:induction false} ChainVersion(g: Limits, log: seq<Permit>)
    requires ValidLimits(g) && RateChain(g, log)
    ensures log == [] <==> RateAfter(g, log).None?
    ensures log != [] ==> RateAfter(g, log).value.version == |log|
  {
  }

  lemma {:induction false} ChainPrefix(g: Limits, log: seq<Permit>, n: nat)
    requires ValidLimits(g) && RateChain(g, log) && n <= |log|
    ensures RateChain(g, log[..n])
  {
    if n < |log| {
      ChainPrefix(g, log[..|log| - 1], n);
      assert log[..|log| - 1][..n] == log[..n];
    } else {
      assert log[..n] == log;
    }
  }

  lemma StepsAdd(g: Limits, m: int, n: int)
    requires ValidLimits(g)
    ensures Steps(g, m + n) == Steps(g, m) + Steps(g, n)
    ensures m <= n ==> Steps(g, m) <= Steps(g, n)
    ensures Steps(g, 1) == g.increment && Tolerance(g) == Steps(g, g.burst - 1)
  {
    var i := g.increment;
    assert (m + n) as real == m as real + n as real;
    assert i * (m as real + n as real) == i * m as real + i * n as real;
    if m <= n {
      assert i * (n - m) as real >= 0.0;
      assert (n - m) as real == n as real - m as real;
      assert i * (n as real - m as real) == i * n as real - i * m as real;
    }
  }

  /** The theoretical arrival time has moved at least one increment per permit since `i`. */
  lemma {:induction false} TatGrows(g: Limits, log: seq<Permit>, i: nat)
    requires ValidLimits(g) && RateChain(g, log) && i < |log|
    ensures RateAfter(g, log).Some?
    ensures RateAfter(g, log).value.tat as real >= log[i].now as real + Steps(g, |log| - i)
  {
    var init := log[..|log| - 1];
    StepsAdd(g, |log| - i - 1, 1);
    if i < |log| - 1 {
      TatGrows(g, init, i);
      assert init[i] == log[i];
    }
  }

  /** GCRA bound between two permits, in commit order. The clock readings are the callers'
      own: nothing is assumed about their order. */
  lemma {:induction false} GcraBound(g: Limits, log: seq<Permit>, i: nat, j: nat)
    requires ValidLimits(g) && RateChain(g, log) && i < j < |log|
    ensures log[j].now as real >= log[i].now as real + Steps(g, j - i + 1 - g.burst)
  {
    ChainPrefix(g, log, j + 1);
    var upTo := log[..j + 1];
    var before := log[..j];
    assert upTo[..|upTo| - 1] == before && upTo[j] == log[j];
    TatGrows(g, before, i);
    assert before[i] == log[i];
    var tat := RateAfter(g, before).value.tat;
    assert log[j].now as real >= tat as real - Tolerance(g);
    StepsAdd(g, j - i, 1 - g.burst);
    StepsAdd(g, g.burst - 1, 1 - g.burst);
    assert (j - i) + (1 - g.burst) == j - i + 1 - g.burst;
  }

  /** The GCRA bound between any two permits of a log. */
  ghost predicate Conforms(g: Limits, log: seq<Permit>) {
    forall i: nat, j: nat :: i < j < |log| ==>
      log[j].now as real >= log[i].now as real + Steps(g, j - i + 1 - g.burst)
  }

  lemma ChainConforms(g: Limits, log: seq<Permit>)
    requires ValidLimits(g) && RateChain(g, log)
    ensures Conforms(g, log)
  {
    forall i: nat, j: nat | i < j < |log|
      ensures log[j].now as real >= log[i].now as real + Steps(g, j - i + 1 - g.burst)
    {
      GcraBound(g, log, i, j);
    }
  }

  /** The permits whose clock reading falls into the window that starts at `t`. */
  ghost function InWindow(log: seq<Permit>, t: Time, length: nat): set<nat> {
    set k: nat | k < |log| && t <= log[k].now <= t + length
  }

  /** A nonempty set of indices below `n` lies between two of its members, and is no larger
      than the distance between them allows. */
  lemma {:induction false} Extent(s: set<nat>, n: nat) returns (lo: nat, hi: nat)
    requires s != {} && forall k :: k in s ==> k < n
    ensures lo in s && hi in s && lo <= hi && |s| <= hi - lo + 1
    ensures forall k :: k in s ==> lo <= k <= hi
    decreases n
  {
    var some :| some in s;
    if n - 1 !in s {
      lo, hi := Extent(s, n - 1);
    } else if s == {n - 1} {
      lo, hi := n - 1, n - 1;
    } else {
      assert s == s - {n - 1} + {n - 1};
      lo, hi := Extent(s - {n - 1}, n - 1);
      hi := n - 1;
    }
  }

  lemma Quotient(x: real, i: real, n: real)
    requires i > 0.0 && x >= i * n
    ensures x / i >= n
  {
    assert (x / i) * i == x;
    Scale(i, n, x / i);
  }

  lemma Scale(i: real, a: real, b: real)
    requires i > 0.0
    ensures a <= b <==> a * i <= b * i
  {
    if a <= b {
      assert (b - a) * i >= 0.0;
    } else {
      assert (a - b) * i > 0.0;
    }
  }

  lemma SpanBound(g: Limits, span: int, length: real)
    requires ValidLimits(g) && length >= Steps(g, span - g.burst)
    ensures span as real <= g.burst as real + length / g.increment
  {
    Quotient(length, g.increment, (span - g.burst) as real);
  }

  /** No window of `length` ms holds more than burst + length/increment permits. */
  lemma WindowBound(g: Limits, log: seq<Permit>, t: Time, length: nat)
    requires ValidLimits(g) && RateChain(g, log)
    ensures |InWindow(log, t, length)| as real <= g.burst as real + length as real / g.increment
  {
    var s := InWindow(log, t, length);
    Quotient(length as real, g.increment, 0.0);
    if s != {} {
      var lo, hi := Extent(s, |log|);
      if lo < hi {
        GcraBound(g, log, lo, hi);
        SpanBound(g, hi - lo + 1, length as real);
      }
    }
  }

  lemma Reciprocal(x: real, interval: real, rate: real)
    requires interval > 0.0 && rate > 0.0
    ensures x / (interval / rate) == x * rate / interval
  {
    var i := interval / rate;
    assert i * rate == interval;
    var q := x / i;
    assert q * i == x;
    assert x * rate == q * (i * rate) == q * interval;
    assert q * interval / interval == q;
  }

  lemma MoreRate(x: real, interval: real, rate: real, more: real)
    requires x >= 0.0 && interval > 0.0 && rate <= more
    ensures x * rate / interval <= x * more / interval
  {
    assert x * (more - rate) >= 0.0;
    assert x * rate <= x * more;
    Scale(interval, x * rate / interval, x * more / interval);
    assert x * rate / interval * interval == x * rate && x * more / interval * interval == x * more;
  }

  /** `n` permits in `x` milliseconds are a burst and what falls due at `rate` permits per `interval`. */
  ghost predicate WithinShare(n: real, burst: real, x: real, interval: real, rate: real)
    requires interval > 0.0
  {
    n <= burst + x * rate / interval
  }

  lemma Share(n: real, burst: real, x: real, increment: real, interval: real, rate: real, more: real)
    requires x >= 0.0 && interval > 0.0 && 0.0 < rate <= more
    requires increment > 0.0 && increment == interval / rate && n <= burst + x / increment
    ensures WithinShare(n, burst, x, interval, rate) && WithinShare(n, burst, x, interval, more)
  {
    Reciprocal(x, interval, rate);
    MoreRate(x, interval, rate, more);
  }

  /** The milliseconds of an interval. */
  function IntervalMs(p: RatePolicy): real {
    p.intervalSeconds * 1000.0
  }

  /** The rate at which permits are given, in requests per interval. */
  function SafeRate(p: RatePolicy): real {
    p.requests as real * p.safetyFactor
  }

  lemma SafeRateBounds(p: RatePolicy)
    requires ValidRatePolicy(p)
    ensures IntervalMs(p) > 0.0 && 0.0 < SafeRate(p) <= p.requests as real
    ensures LimitsOf(p).increment == IntervalMs(p) / SafeRate(p)
  {
    assert p.requests as real * (1.0 - p.safetyFactor) >= 0.0;
  }

  /** In terms of the policy: a window of `length` ms holds at most its burst plus the share of `requests`
      per interval that falls into the window, reduced by the safety factor; never more than agreed. */
  lemma PolicyBound(p: RatePolicy, log: seq<Permit>, t: Time, length: nat)
    requires ValidRatePolicy(p) && RateChain(LimitsOf(p), log)
    ensures IntervalMs(p) > 0.0
    ensures WithinShare(|InWindow(log, t, length)| as real, p.burst as real, length as real, IntervalMs(p), SafeRate(p))
    ensures WithinShare(
              |InWindow(log, t, length)| as real, p.burst as real, length as real, IntervalMs(p), p.requests as real)
  {
    SafeRateBounds(p);
    WindowBound(LimitsOf(p), log, t, length);
    Share(|InWindow(log, t, length)| as real, p.burst as real, length as real,
          LimitsOf(p).increment, IntervalMs(p), SafeRate(p), p.requests as real);
  }

  // ---------------------------------------------------------------- exactness

  /** A denial names the first instant at which the same item would permit. */
  lemma DenialIsExact(s: RateState, g: Limits, now: Time, later: Time)
    requires ValidLimits(g)
    requires RateLimitDecision(Some(s), g, now).Denied?
    ensures now < RateLimitDecision(Some(s), g, now).nextEligibleAt
    ensures RateLimitDecision(Some(s), g, later).Granted?
            <==> later >= RateLimitDecision(Some(s), g, now).nextEligibleAt
  {
    var earliest := s.tat as real - Tolerance(g);
    assert Ceil(earliest) - 1 < Ceil(earliest) && (Ceil(earliest) - 1) as real < earliest <= Ceil(earliest) as real;
  }

  /** `n` permits, all at instant `t`. */
  ghost function Simultaneous(t: Time, n: nat): seq<Permit> {
    seq(n, _ => Permit(0, t))
  }

  function Capacity(g: Limits): int
    requires ValidLimits(g)
  {
    (Tolerance(g) / Ceil(g.increment) as real).Floor + 1
  }

  lemma CeilPositive(g: Limits)
    requires ValidLimits(g)
    ensures Ceil(g.increment) as real >= g.increment > 0.0 && Ceil(g.increment) >= 1
  {
  }

  lemma CeilShift(n: int, x: real)
    ensures Ceil(n as real + x) == n + Ceil(x)
  {
    assert (n as real + x).Floor == n + x.Floor;
  }

  /** One permit at `t` against an item that is not behind `t`. */
  lemma StepAt(g: Limits, tat: Time, version: nat, t: Time)
    requires ValidLimits(g) && tat >= t
    ensures RateLimitDecision(Some(RateState(tat, version)), g, t).Granted?
            <==> (tat - t) as real <= Tolerance(g)
    ensures (tat - t) as real <= Tolerance(g) ==>
              RateLimitDecision(Some(RateState(tat, version)), g, t) == Granted(tat + Ceil(g.increment))
  {
    CeilShift(tat, g.increment);
  }

  lemma {:induction false} AppendAt(g: Limits, log: seq<Permit>, tat: Time, t: Time)
    requires ValidLimits(g) && RateChain(g, log) && tat >= t
    requires RateAfter(g, log) == Some(RateState(tat, |log|))
    ensures RateChain(g, log + [Permit(0, t)]) <==> (tat - t) as real <= Tolerance(g)
    ensures (tat - t) as real <= Tolerance(g) ==>
              RateAfter(g, log + [Permit(0, t)]) == Some(RateState(tat + Ceil(g.increment), |log| + 1))
  {
    StepAt(g, tat, |log|, t);
    var next := log + [Permit(0, t)];
    assert next[..|next| - 1] == log;
  }

  lemma {:induction false} SimultaneousTat(g: Limits, t: Time, n: nat)
    requires ValidLimits(g) && n >= 1 && RateChain(g, Simultaneous(t, n))
    ensures RateAfter(g, Simultaneous(t, n)) == Some(RateState(t + n * Ceil(g.increment), n))
  {
    var init := Simultaneous(t, n - 1);
    assert Simultaneous(t, n) == init + [Permit(0, t)];
    assert Simultaneous(t, n)[..n - 1] == init;
    if n == 1 {
      CeilShift(t, g.increment);
    } else {
      SimultaneousTat(g, t, n - 1);
      Ladder(g, n - 1, t);
      AppendAt(g, init, t + (n - 1) * Ceil(g.increment), t);
    }
  }

  lemma Ladder(g: Limits, k: nat, t: Time)
    requires ValidLimits(g)
    ensures t + k * Ceil(g.increment) >= t
    ensures t + k * Ceil(g.increment) + Ceil(g.increment) == t + (k + 1) * Ceil(g.increment)
    ensures (t + k * Ceil(g.increment) - t) as real == k as real * Ceil(g.increment) as real
  {
    CeilPositive(g);
  }

  lemma QuotientFloor(x: real, c: real, k: int)
    requires c > 0.0
    ensures k as real * c <= x <==> k <= (x / c).Floor
  {
    var q := x / c;
    assert q * c == x;
    Scale(c, k as real, q);
  }

  lemma CapacityMeans(g: Limits, k: nat, t: Time)
    requires ValidLimits(g)
    ensures (t + k * Ceil(g.increment) - t) as real <= Tolerance(g) <==> k + 1 <= Capacity(g)
  {
    CeilPositive(g);
    Ladder(g, k, t);
    QuotientFloor(Tolerance(g), Ceil(g.increment) as real, k);
  }

  lemma NextSimultaneous(g: Limits, t: Time, k: nat)
    requires ValidLimits(g) && k >= 1 && RateChain(g, Simultaneous(t, k))
    ensures RateChain(g, Simultaneous(t, k) + [Permit(0, t)]) <==> k + 1 <= Capacity(g)
  {
    SimultaneousTat(g, t, k);
    Ladder(g, k, t);
    AppendAt(g, Simultaneous(t, k), t + k * Ceil(g.increment), t);
    CapacityMeans(g, k, t);
  }

  lemma CapacityAtLeastOne(g: Limits)
    requires ValidLimits(g)
    ensures Capacity(g) >= 1
  {
    CeilPositive(g);
    StepsAdd(g, 0, g.burst - 1);
    QuotientFloor(Tolerance(g), Ceil(g.increment) as real, 0);
  }

  /** A fresh limiter grants exactly `Capacity` permits at one instant. */
  lemma {:induction false} FreshCapacity(g: Limits, t: Time, n: nat)
    requires ValidLimits(g)
    ensures RateChain(g, Simultaneous(t, n)) <==> n <= Capacity(g)
  {
    CapacityAtLeastOne(g);
    if n == 1 {
      StepsAdd(g, 0, g.burst - 1);
    } else if n > 1 {
      FreshCapacity(g, t, n - 1);
      if n - 1 <= Capacity(g) {
        NextSimultaneous(g, t, n - 1);
        assert Simultaneous(t, n) == Simultaneous(t, n - 1) + [Permit(0, t)];
      } else {
        assert Simultaneous(t, n)[..n - 1] == Simultaneous(t, n - 1);
      }
    }
  }

  /** When the increment is a whole number of milliseconds the capacity is the burst. */
  lemma WholeIncrementCapacity(g: Limits)
    requires ValidLimits(g) && Ceil(g.increment) as real == g.increment
    ensures Capacity(g) == g.burst
  {
    var i := g.increment;
    assert Tolerance(g) == i * (g.burst - 1) as real;
    assert Tolerance(g) / i == (g.burst - 1) as real;
  }

  /** The first caller is never refused. */
  lemma AbsentIsGranted(g: Limits, now: Time)
    requires ValidLimits(g)
    ensures RateLimitDecision(None, g, now).Granted?
  {
    StepsAdd(g, 0, g.burst - 1);
  }

  // ---------------------------------------------------------------- the permit loop

  /** The runtime item of one destination, with every permit committed so far. */
  class RateLimitItem {
    const limits: Limits
    var item: Option<RateState>
    ghost var log: seq<Permit>

    ghost predicate Valid()
      reads this
    {
      ValidLimits(limits) && RateChain(limits, log) && item == RateAfter(limits, log)
    }

    constructor (limits: Limits)
      requires ValidLimits(limits)
      ensures Valid() && this.limits == limits && log == [] && item == None
    {
      this.limits := limits;
      item := None;
      log := [];
    }

    /** Other workers may commit any number of permits between two of the caller's requests. `idle` are the
        callers that are themselves between two requests. What is relied on here is what `AcquireRatePermit`
        guarantees, in its first clause, of every call by a caller that is not idle. */
    method Interfere(ghost idle: set<nat>)
      requires Valid()
      modifies this
      ensures Valid() && OthersOnly(old(log), log, idle)
    {
    }

    /** The conditional put: `attribute_not_exists(PK) OR version = :version`. */
    method PutIfVersion(caller: nat, now: Time, next: RateState, expected: nat) returns (ok: bool)
      requires Valid() && next.version == expected + 1
      requires expected == 0 ==> RateLimitDecision(None, limits, now) == Granted(next.tat)
      requires item.Some? && item.value.version == expected ==>
                 RateLimitDecision(item, limits, now) == Granted(next.tat)
      requires item.None? ==> expected == 0
      modifies this
      ensures Valid()
      ensures ok <==> old(item).None? || old(item).value.version == expected
      ensures ok ==> log == old(log) + [Permit(caller, now)]
      ensures !ok ==> log == old(log)
    {
      ok := item.None? || item.value.version == expected;
      if ok {
        ChainVersion(limits, log);
        item := Some(next);
        log := log + [Permit(caller, now)];
        assert log[..|log| - 1] == old(log);
      }
    }

    /** One round: read, decide, swap. It is undecided when the swap was lost. */
    method Round(caller: nat, now: Time, ghost idle: set<nat>) returns (outcome: RoundOutcome)
      requires Valid() && caller in idle
      modifies this
      ensures Valid()
      ensures outcome == Permitted ==> PermittedLast(old(log), log, Permit(caller, now), idle)
      ensures outcome != Permitted ==> OthersOnly(old(log), log, idle)
      ensures outcome.Refused? ==> outcome.at > now && RateLimitDecision(item, limits, now) == Denied(outcome.at)
      ensures outcome == Undecided ==> |log| > |old(log)|
    {
      Interfere(idle);
      var current := item;
      ghost var seen := log;
      var decision := RateLimitDecision(current, limits, now);
      if decision.Denied? {
        DenialIsLater(current, limits, now);
        return Refused(decision.nextEligibleAt);
      }
      var expected := if current.Some? then current.value.version else 0;
      Interfere(idle);
      VersionTells(limits, seen, log, expected);
      ghost var before := log;
      var ok := PutIfVersion(caller, now, RateState(decision.tat, expected + 1), expected);
      if ok {
        assert log[..|log| - 1] == before;
        return Permitted;
      }
      return Undecided;
    }

    /** `acquireRatePermit`: eight rounds against whatever other workers do. A permit is reported exactly
        when this call committed one, and a refusal without a denial when others have committed one in each of
        the eight rounds. For the callers in `idle` the whole call is interference. */
    method AcquireRatePermit(caller: nat, now: Time, ghost idle: set<nat>)
      returns (permitted: bool, nextEligibleAt: Time)
      requires Valid() && caller !in idle
      modifies this
      ensures Valid() && OthersOnly(old(log), log, idle)
      ensures permitted ==>
                nextEligibleAt == now && PermittedLast(old(log), log, Permit(caller, now), idle + {caller})
      ensures !permitted ==> nextEligibleAt > now && OthersOnly(old(log), log, idle + {caller})
      ensures !permitted ==> || RateLimitDecision(item, limits, now) == Denied(nextEligibleAt)
                             || (nextEligibleAt == now + 5000 && |log| >= |old(log)| + 8)
    {
      ghost var first, all := log, idle + {caller};
      for attempt := 0 to 8
        invariant Valid() && OthersOnly(first, log, all) && |log| >= |first| + attempt
      {
        ghost var before := log;
        var outcome := Round(caller, now, all);
        OthersFurther(first, before, log, Permit(caller, now), all);
        match outcome
        case Permitted =>
          OwnIsOther(first, log, Permit(caller, now), idle);
          return true, now;
        case Refused(at) => return false, at;
        case Undecided =>
      }
      return false, now + 5000;
    }
  }

  lemma DenialIsLater(state: Option<RateState>, g: Limits, now: Time)
    requires ValidLimits(g) && RateLimitDecision(state, g, now).Denied?
    ensures RateLimitDecision(state, g, now).nextEligibleAt > now
  {
    AbsentIsGranted(g, now);
    DenialIsExact(state.value, g, now, now);
  }

  /** What the condition of the swap says about the permits committed since the item was read. */
  lemma VersionTells(g: Limits, seen: seq<Permit>, log: seq<Permit>, expected: nat)
    requires ValidLimits(g) && RateChain(g, seen) && RateChain(g, log) && seen <= log
    requires expected == if RateAfter(g, seen).Some? then RateAfter(g, seen).value.version else 0
    ensures expected == |seen|
    ensures RateAfter(g, log).None? ==> log == seen && expected == 0
    ensures RateAfter(g, log).Some? ==> (RateAfter(g, log).value.version == expected <==> log == seen)
  {
    ChainVersion(g, seen);
    ChainVersion(g, log);
  }

  datatype RoundOutcome = Permitted | Refused(at: Time) | Undecided

  /** `after` extends `before` with permits of callers that are not idle. */
  ghost predicate OthersOnly(before: seq<Permit>, after: seq<Permit>, idle: set<nat>) {
    before <= after && forall k :: |before| <= k < |after| ==> after[k].owner !in idle
  }

  /** The permit is the last one, and the idle callers have committed nothing before it. */
  ghost predicate PermittedLast(before: seq<Permit>, after: seq<Permit>, permit: Permit, idle: set<nat>) {
    after != [] && after[|after| - 1] == permit && OthersOnly(before, after[..|after| - 1], idle)
  }

  lemma OthersFurther(first: seq<Permit>, before: seq<Permit>, after: seq<Permit>, permit: Permit, idle: set<nat>)
    requires OthersOnly(first, before, idle)
    ensures OthersOnly(before, after, idle) ==> OthersOnly(first, after, idle)
    ensures PermittedLast(before, after, permit, idle) ==> PermittedLast(first, after, permit, idle)
  {
  }

  /** A permit of one's own is one of another caller to everybody else. */
  lemma OwnIsOther(before: seq<Permit>, after: seq<Permit>, permit: Permit, idle: set<nat>)
    requires PermittedLast(before, after, permit, idle + {permit.owner}) && permit.owner !in idle
    ensures OthersOnly(before, after, idle)
  {
    var init := after[..|after| - 1];
    forall k | |before| <= k < |after| ensures after[k].owner !in idle {
      if k < |init| {
        assert after[k] == init[k] && init[k].owner !in idle + {permit.owner};
      }
    }
  }

  /** Equal versions mean that nothing was committed in between. */
  lemma SameVersionSameLog(g: Limits, before: seq<Permit>, after: seq<Permit>)
    requires ValidLimits(g) && RateChain(g, before) && RateChain(g, after) && before <= after
    ensures RateAfter(g, before).Some? && RateAfter(g, after).Some?
            && RateAfter(g, before).value.version == RateAfter(g, after).value.version
            ==> before == after
    ensures RateAfter(g, after).None? ==> before == after
    ensures RateAfter(g, after).Some? ==> RateAfter(g, after).value.version > 0
  {
    ChainVersion(g, before);
    ChainVersion(g, after);
  }
}
