/** The rate limiter decides exactly by spacing: which sequences of requests are granted, and what is stored. */
module Spacing {
  import opened Domain
  import opened RateLimiter

  /** The whole milliseconds that `n` permits take up, `slot` each. */
  function Slots(slot: int, n: nat): int {
    if n == 0 then 0 else Slots(slot, n - 1) + slot
  }

  lemma {:induction false} SlotsIsProduct(slot: int, n: nat)
    ensures Slots(slot, n) == n * slot
  {
    if n > 0 {
      SlotsIsProduct(slot, n - 1);
    }
  }

  /** When the next permit is due on account of the `i`-th of `n` alone. */
  function Due(slot: int, log: seq<Permit>, i: nat, n: nat): int
    requires i < |log| && i <= n
  {
    log[i].now + Slots(slot, n - i)
  }

  /** The latest of them is what the limiter stores. */
  ghost predicate IsLatest(slot: int, log: seq<Permit>, tat: Time) {
    && (forall i: nat :: i < |log| ==> Due(slot, log, i, |log|) <= tat)
    && (exists i: nat :: i < |log| && Due(slot, log, i, |log|) == tat)
  }

  lemma LatestMoves(slot: int, init: seq<Permit>, before: Time, last: Permit, tat: Time)
    requires init != [] && IsLatest(slot, init, before)
    requires tat == (if last.now >= before then last.now else before) + slot
    ensures IsLatest(slot, init + [last], tat)
  {
    var log := init + [last];
    forall i: nat | i < |init| ensures Due(slot, log, i, |log|) == Due(slot, init, i, |init|) + slot {
      assert |log| - i == (|init| - i) + 1;
    }
    assert Slots(slot, 1) == Slots(slot, 0) + slot;
    assert Due(slot, log, |init|, |log|) == last.now + slot;
    var k: nat :| k < |init| && Due(slot, init, k, |init|) == before;
    assert Due(slot, log, if last.now >= before then |init| else k, |log|) == tat;
  }

  /** A granted permit moves the arrival time by the increment, rounded up. */
  lemma GrantedTat(g: Limits, state: Option<RateState>, now: Time)
    requires ValidLimits(g) && RateLimitDecision(state, g, now).Granted?
    ensures RateLimitDecision(state, g, now).tat
            == (if state.Some? && now < state.value.tat then state.value.tat else now) + Ceil(g.increment)
  {
    CeilShift(if state.Some? && now < state.value.tat then state.value.tat else now, g.increment);
  }

  lemma {:induction false} StoredIsLatest(g: Limits, log: seq<Permit>)
    requires ValidLimits(g) && RateChain(g, log) && log != []
    ensures RateAfter(g, log).Some? && IsLatest(Ceil(g.increment), log, RateAfter(g, log).value.tat)
  {
    var init, last, slot := log[..|log| - 1], log[|log| - 1], Ceil(g.increment);
    GrantedTat(g, RateAfter(g, init), last.now);
    if init == [] {
      assert Slots(slot, 1) == Slots(slot, 0) + slot;
      assert Due(slot, log, 0, 1) == last.now + slot;
    } else {
      StoredIsLatest(g, init);
      LatestMoves(slot, init, RateAfter(g, init).value.tat, last, RateAfter(g, log).value.tat);
      assert init + [last] == log;
    }
  }

  /** How far ahead of schedule a permit may come: all but one of the burst. */
  function Ahead(g: Limits): real {
    g.increment * (g.burst - 1) as real
  }

  /** The `j`-th permit is not too early on account of the `i`-th. */
  predicate Spaced(g: Limits, log: seq<Permit>, i: nat, j: nat)
    requires i < j < |log|
  {
    log[j].now as real >= Due(Ceil(g.increment), log, i, j) as real - Ahead(g)
  }

  lemma DecisionIs(g: Limits, state: RateState, now: Time)
    requires ValidLimits(g)
    ensures RateLimitDecision(Some(state), g, now).Granted? <==> now as real >= state.tat as real - Ahead(g)
  {
    StepsAdd(g, 0, g.burst - 1);
  }

  /** Late enough on account of the `i`-th permit alone. */
  predicate LateFor(slot: int, log: seq<Permit>, i: nat, now: Time, ahead: real)
    requires i < |log|
  {
    now as real >= Due(slot, log, i, |log|) as real - ahead
  }

  /** Being late enough for the latest is being late enough for all. */
  lemma LateEnough(slot: int, log: seq<Permit>, tat: Time, now: Time, ahead: real)
    requires log != [] && IsLatest(slot, log, tat)
    ensures now as real >= tat as real - ahead <==> forall i: nat :: i < |log| ==> LateFor(slot, log, i, now, ahead)
  {
    var k: nat :| k < |log| && Due(slot, log, k, |log|) == tat;
    assert LateFor(slot, log, k, now, ahead) <==> now as real >= tat as real - ahead;
  }

  lemma SpacedIsLate(g: Limits, log: seq<Permit>, i: nat, j: nat)
    requires i < j < |log|
    ensures Spaced(g, log, i, j) <==> LateFor(Ceil(g.increment), log[..j], i, log[j].now, Ahead(g))
  {
  }

  lemma LastIsGranted(g: Limits, log: seq<Permit>, j: nat)
    requires ValidLimits(g) && 0 < j < |log| && RateChain(g, log[..j])
    ensures RateLimitDecision(RateAfter(g, log[..j]), g, log[j].now).Granted?
            <==> forall i: nat :: i < j ==> Spaced(g, log, i, j)
  {
    var init := log[..j];
    StoredIsLatest(g, init);
    DecisionIs(g, RateAfter(g, init).value, log[j].now);
    LateEnough(Ceil(g.increment), init, RateAfter(g, init).value.tat, log[j].now, Ahead(g));
    forall i: nat | i < j
      ensures Spaced(g, log, i, j) <==> LateFor(Ceil(g.increment), init, i, log[j].now, Ahead(g))
    {
      SpacedIsLate(g, log, i, j);
    }
  }

  /** Exact: a sequence of requests is granted one by one if and only if every two of them are spaced, whatever
      the order of their clock readings. */
  lemma {:induction false} GrantedIsSpaced(g: Limits, log: seq<Permit>)
    requires ValidLimits(g)
    ensures RateChain(g, log) <==> forall i: nat, j: nat :: i < j < |log| ==> Spaced(g, log, i, j)
  {
    if log != [] {
      var init := log[..|log| - 1];
      GrantedIsSpaced(g, init);
      forall i: nat, j: nat | i < j < |init| ensures Spaced(g, init, i, j) <==> Spaced(g, log, i, j) {
      }
      if |log| == 1 {
        AbsentIsGranted(g, log[0].now);
      } else if RateChain(g, init) {
        LastIsGranted(g, log, |log| - 1);
      } else {
        var i: nat, j: nat :| i < j < |init| && !Spaced(g, init, i, j);
        assert !Spaced(g, log, i, j);
      }
    }
  }
}
