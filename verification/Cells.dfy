/** One delivery with everything that is stored under its key: the delivery record, its attempt
    records and its rows in the delivery indexes. Each `Commit…` function is the delivery's share
    of one conditional transaction; the invariant and the two-state relation below hold for every
    one of them. */
module Cells {
  import opened Domain

  datatype AttemptOutcome = AttemptStarted | AttemptSucceeded | AttemptFailed

  datatype Attempt = Attempt(
    id: AttemptId, startedAt: Time, completedAt: Option<Time>, durationMs: nat,
    outcome: AttemptOutcome, category: Option<FailureCategory>)

  datatype Category =
    | All | ByStatus(s: DeliveryState) | ByPartner(p: PartnerId)
    | ByDestination(x: DestinationId) | TerminalFailure

  /** `delays` is a history variable: the delay in seconds that was drawn when attempt n was
      finished with a retry. The source stores only the resulting nextEligibleAt. */
  datatype Cell = Cell(
    d: Delivery, attempts: map<nat, Attempt>, index: set<(Category, Time)>, delays: map<nat, real>)

  function Categories(d: Delivery): set<Category> {
    {All, ByStatus(d.state), ByPartner(d.partner), ByDestination(d.destination)}
    + (if d.state in {DeadLettered, FailedTerminal} then {TerminalFailure} else {})
  }

  function IndexRows(d: Delivery): set<(Category, Time)> {
    set c | c in Categories(d) :: (c, d.updatedAt)
  }

  /** The deletes and puts on the index; a transaction that would delete and put one and the
      same key is rejected by the store. */
  function MoveIndex(index: set<(Category, Time)>, from: Delivery, to: Delivery): set<(Category, Time)> {
    index - IndexRows(from) + IndexRows(to)
  }

  /** The lists a delivery belongs to. */
  predicate Belongs(k: Category, d: Delivery) {
    match k
    case All => true
    case ByStatus(state) => d.state == state
    case ByPartner(p) => d.partner == p
    case ByDestination(x) => d.destination == x
    case TerminalFailure => d.state == DeadLettered || d.state == FailedTerminal
  }

  /** Moving the index takes the rows of the old record at its time away, puts those of the new one at its time,
      and leaves all others. */
  lemma MoveIsExact(index: set<(Category, Time)>, from: Delivery, to: Delivery, k: Category, at: Time)
    ensures (k, at) in MoveIndex(index, from, to)
            <==> || (at == to.updatedAt && Belongs(k, to))
                 || ((k, at) in index && !(at == from.updatedAt && Belongs(k, from)))
  {
    assert (k, at) in IndexRows(from) <==> at == from.updatedAt && Belongs(k, from);
    assert (k, at) in IndexRows(to) <==> at == to.updatedAt && Belongs(k, to);
  }

  ghost predicate IndexMoved(index: set<(Category, Time)>, from: Delivery, to: Delivery, after: set<(Category, Time)>) {
    forall k, at :: (k, at) in after
      <==> || (at == to.updatedAt && Belongs(k, to))
           || ((k, at) in index && !(at == from.updatedAt && Belongs(k, from)))
  }

  lemma IndexIsMoved(index: set<(Category, Time)>, from: Delivery, to: Delivery)
    ensures IndexMoved(index, from, to, MoveIndex(index, from, to))
  {
    forall k, at
      ensures (k, at) in MoveIndex(index, from, to)
              <==> || (at == to.updatedAt && Belongs(k, to))
                   || ((k, at) in index && !(at == from.updatedAt && Belongs(k, from)))
    {
      MoveIsExact(index, from, to, k, at);
    }
  }

  predicate IndexClash(from: Delivery, to: Delivery) {
    from.updatedAt == to.updatedAt
  }

  // ---------------------------------------------------------------- acquireLease

  predicate Leasable(s: DeliveryState) {
    s in {Scheduled, RetryScheduled, RateLimited}
  }

  predicate EligibleAt(d: Delivery, at: Time) {
    d.nextEligibleAt.None? || d.nextEligibleAt.value <= at
  }

  function LeaseTransition(x: Delivery, lease: Lease): Option<Delivery> {
    TransitionDelivery(x, Transition(InProgress, lease.acquiredAt, x.version, None, None, None, Some(lease)))
  }

  predicate LeaseCondition(c: Cell, expected: nat, at: Time) {
    c.d.version == expected && Leasable(c.d.state) && EligibleAt(c.d, at)
  }

  function CommitLease(c: Cell, current: Delivery, leased: Delivery): Option<Cell> {
    if LeaseCondition(c, current.version, leased.updatedAt) && !IndexClash(current, leased) then
      Some(c.(d := leased, index := MoveIndex(c.index, current, leased)))
    else None
  }

  // ---------------------------------------------------------------- startAttempt

  function StartedDelivery(leased: Delivery, a: Attempt): Delivery {
    leased.(attemptCount := leased.attemptCount + 1, activeAttempt := Some(a.id),
            version := leased.version + 1, updatedAt := a.startedAt)
  }

  predicate StartCondition(c: Cell, leased: Delivery) {
    && c.d.version == leased.version
    && c.d.Token() == leased.Token()
    && c.d.activeAttempt.None?
    && leased.attemptCount + 1 !in c.attempts
  }

  /** The index rows are left alone although `updatedAt` changes. */
  function CommitStart(c: Cell, leased: Delivery, a: Attempt): Option<Cell> {
    if StartCondition(c, leased) then
      Some(c.(d := StartedDelivery(leased, a), attempts := c.attempts[leased.attemptCount + 1 := a]))
    else None
  }

  // ---------------------------------------------------------------- defer

  /** A lease given back without an attempt, by the worker or by recovery. */
  datatype DeferPlan = DeferPlan(snap: Delivery, next: Delivery, notBefore: Time, recovery: bool)

  function PlanDefer(
    snap: Delivery, to: DeliveryState, at: Time, notBefore: Time,
    reason: Option<FailureCategory>, recovery: bool): Option<DeferPlan>
  {
    var next := TransitionDelivery(snap, Transition(
      to, at, snap.version, snap.Token(), Some(notBefore), reason, None));
    if next.None? then None else Some(DeferPlan(snap, next.value, notBefore, recovery))
  }

  predicate DeferCondition(c: Cell, plan: DeferPlan) {
    c.d.version == plan.snap.version && c.d.Token() == plan.snap.Token()
  }

  function CommitDefer(c: Cell, plan: DeferPlan, current: Delivery): Option<Cell> {
    if DeferCondition(c, plan) && !IndexClash(current, plan.next) then
      Some(c.(d := plan.next, index := MoveIndex(c.index, current, plan.next)))
    else None
  }

  // ---------------------------------------------------------------- finalizeAttempt

  /** An attempt about to be finished, by the worker that made it or by recovery.
      `notBefore` is that of the outbox row written along, if any. */
  datatype FinalPlan = FinalPlan(
    snap: Delivery, final: Delivery, finished: Attempt, delay: Option<real>,
    notBefore: Option<Time>, recovery: bool)

  function DueAfter(completed: Time, delay: real): Time {
    completed + Ceil(1000.0 * delay)
  }

  function FinalState(r: Classification, attemptCount: nat, maxAttempts: nat): DeliveryState {
    if r.success then Succeeded
    else if r.retryable && attemptCount >= maxAttempts then DeadLettered
    else if r.retryable then RetryScheduled
    else FailedTerminal
  }

  /** What `deliver` computes after the partner call. The row is written for every retryable
      result, also when the delivery is dead-lettered. */
  function PlanResult(
    started: Delivery, a: Attempt, completed: Time, r: Classification,
    random: real, retryAfter: Option<real>): Option<FinalPlan>
    requires started.attemptCount >= 1
  {
    var delay := if r.retryable
                 then Some(RetryDelaySeconds(started.policy, started.attemptCount, random, retryAfter))
                 else None;
    var due := if delay.Some? then Some(DueAfter(completed, delay.value)) else None;
    var next := TransitionDelivery(started, Transition(
      FinalState(r, started.attemptCount, started.maxAttempts), completed, started.version,
      started.Token(), due, r.category, None));
    if next.None? then None
    else Some(FinalPlan(
      started, next.value.(activeAttempt := None),
      a.(completedAt := Some(completed),
         durationMs := if completed >= a.startedAt then completed - a.startedAt else 0,
         outcome := if r.success then AttemptSucceeded else AttemptFailed, category := r.category),
      delay, due, false))
  }

  /** What `recoverExpired` computes for an expired lease with an active attempt. */
  function PlanTimeout(snap: Delivery, a: Attempt, now: Time, random: real): Option<FinalPlan>
    requires snap.attemptCount >= 1
  {
    var delay := RetryDelaySeconds(snap.policy, snap.attemptCount, random, None);
    var exhausted := snap.attemptCount >= snap.maxAttempts;
    var due := if exhausted then None else Some(DueAfter(now, delay));
    var next := TransitionDelivery(snap, Transition(
      if exhausted then DeadLettered else RetryScheduled, now, snap.version,
      snap.Token(), due, Some(TimeoutFailure), None));
    if next.None? then None
    else Some(FinalPlan(
      snap, next.value.(activeAttempt := None),
      a.(completedAt := Some(now), durationMs := if now >= a.startedAt then now - a.startedAt else 0,
         outcome := AttemptFailed, category := Some(TimeoutFailure)),
      Some(delay), due, true))
  }

  predicate FinalCondition(c: Cell, plan: FinalPlan) {
    && c.d.version == plan.snap.version
    && c.d.Token() == plan.snap.Token()
    && c.d.activeAttempt == Some(plan.finished.id)
    && plan.snap.attemptCount in c.attempts
    && c.attempts[plan.snap.attemptCount].outcome == AttemptStarted
  }

  function CommitFinal(c: Cell, plan: FinalPlan, current: Delivery): Option<Cell> {
    if FinalCondition(c, plan) && !IndexClash(current, plan.final) then
      Some(Cell(plan.final, c.attempts[plan.snap.attemptCount := plan.finished],
                MoveIndex(c.index, current, plan.final),
                if plan.delay.Some? then c.delays[plan.snap.attemptCount := plan.delay.value] else c.delays))
    else None
  }

  // ---------------------------------------------------------------- resumeDestination

  predicate Resumable(d: Delivery, x: DestinationId) {
    d.destination == x && d.blockedReason == Some(DestinationDisabled) && !Terminal(d.state)
  }

  function ResumeTransition(current: Delivery, now: Time): Option<Delivery> {
    TransitionDelivery(current, Transition(Scheduled, now, current.version, None, Some(now), None, None))
  }

  function CommitResume(c: Cell, current: Delivery, now: Time): Option<Cell> {
    var next := ResumeTransition(current, now);
    if c.d.version == current.version && next.Some? && !IndexClash(current, next.value) then
      Some(c.(d := next.value, index := MoveIndex(c.index, current, next.value)))
    else None
  }

  // ---------------------------------------------------------------- creation

  function NewCell(d: Delivery): Cell {
    Cell(d, map[], IndexRows(d), map[])
  }

  // ---------------------------------------------------------------- the invariant

  predicate StateOk(d: Delivery) {
    && d.version >= 1
    && d.state !in {Pending, Cancelled}
    && (d.state == InProgress <==> d.lease.Some?)
    && (d.activeAttempt.Some? ==> d.state == InProgress && d.attemptCount >= 1)
    && ValidRetryPolicy(d.policy)
    && 1 <= d.maxAttempts && d.attemptCount <= d.maxAttempts
    && (!Terminal(d.state) && d.activeAttempt.None? ==> d.attemptCount < d.maxAttempts)
    && (Leasable(d.state) ==> d.nextEligibleAt.Some?)
    && (d.blockedReason == Some(DestinationDisabled) ==> d.state == Scheduled)
  }

  /** The stored attempts are exactly 1..attemptCount; only the last may be unfinished, and is so
      exactly while it is the active one. */
  ghost predicate LedgerOk(c: Cell) {
    && (forall n :: n in c.attempts <==> 1 <= n <= c.d.attemptCount)
    && (forall n :: n in c.attempts ==>
          && (c.attempts[n].outcome == AttemptStarted <==> n == c.d.attemptCount && c.d.activeAttempt.Some?)
          && (c.attempts[n].outcome == AttemptStarted <==> c.attempts[n].completedAt.None?))
    && (c.d.activeAttempt.Some? ==>
          c.d.attemptCount in c.attempts && c.attempts[c.d.attemptCount].id == c.d.activeAttempt.value)
  }

  /** Without an active attempt the delivery is listed under all its categories at its current time. */
  predicate IndexOk(c: Cell) {
    c.d.activeAttempt.None? ==> IndexRows(c.d) <= c.index
  }

  /** Attempt n was finished with a retry, and the retry is due at this time. */
  predicate RetryDrawn(c: Cell, n: nat) {
    && n >= 1 && n in c.attempts && n in c.delays
    && c.attempts[n].completedAt.Some?
    && DelayInBounds(c.d.policy, n, c.delays[n])
  }

  function DueTime(c: Cell, n: nat): Time
    requires RetryDrawn(c, n)
  {
    DueAfter(c.attempts[n].completedAt.value, c.delays[n])
  }

  /** Attempt n + 1 did not start before the retry of attempt n was due. */
  predicate Spaced(c: Cell, n: nat) {
    RetryDrawn(c, n) && n + 1 in c.attempts && c.attempts[n + 1].startedAt >= DueTime(c, n)
  }

  ghost predicate BackoffOk(c: Cell, clock: Time) {
    && (forall n: nat :: 1 <= n < c.d.attemptCount ==> Spaced(c, n))
    && (c.d.attemptCount >= 1 && c.d.activeAttempt.None? && !Terminal(c.d.state) ==>
          && RetryDrawn(c, c.d.attemptCount)
          && (if c.d.state == RetryScheduled
              then c.d.nextEligibleAt == Some(DueTime(c, c.d.attemptCount))
              else clock >= DueTime(c, c.d.attemptCount)))
    && (c.d.state == RetryScheduled ==> c.d.attemptCount >= 1)
  }

  ghost predicate CellInv(c: Cell, clock: Time) {
    StateOk(c.d) && LedgerOk(c) && IndexOk(c) && BackoffOk(c, clock)
  }

  predicate SameIdentity(a: Delivery, b: Delivery) {
    && a.event == b.event && a.destination == b.destination && a.partner == b.partner
    && a.kind == b.kind && a.maxAttempts == b.maxAttempts && a.policy == b.policy
    && a.timeoutMs == b.timeoutMs
  }

  /** What every committed write does to a delivery: it starts from a non-terminal state, raises the
      version by exactly one, never touches a finished attempt, and adds at most one attempt. */
  ghost predicate Advances(before: Cell, after: Cell) {
    && !Terminal(before.d.state)
    && SameIdentity(before.d, after.d)
    && after.d.version == before.d.version + 1
    && before.d.attemptCount <= after.d.attemptCount <= before.d.attemptCount + 1
    && (forall n :: n in before.attempts ==>
          n in after.attempts
          && (before.attempts[n].outcome != AttemptStarted ==> after.attempts[n] == before.attempts[n]))
    && (before.d.state == RateLimited ==> after.d.state == Scheduled)
  }

  lemma SpacedFrame(c: Cell, c': Cell)
    requires forall n: nat :: 1 <= n < c.d.attemptCount ==> Spaced(c, n)
    requires c'.d.policy == c.d.policy
    requires forall n :: n in c.attempts ==>
               && n in c'.attempts
               && c.attempts[n].startedAt == c'.attempts[n].startedAt
               && (n < c.d.attemptCount ==> c.attempts[n] == c'.attempts[n])
    requires forall n :: n in c.delays && n < c.d.attemptCount ==> n in c'.delays && c'.delays[n] == c.delays[n]
    ensures forall n: nat :: 1 <= n < c.d.attemptCount ==> Spaced(c', n)
  {
    forall n: nat | 1 <= n < c.d.attemptCount ensures Spaced(c', n) {
      assert Spaced(c, n);
    }
  }

  lemma LaterClock(c: Cell, clock: Time, later: Time)
    requires CellInv(c, clock) && clock <= later
    ensures CellInv(c, later)
  {
  }

  lemma NewCellOk(d: Delivery, clock: Time)
    requires d.version == 1 && d.attemptCount == 0 && d.activeAttempt.None? && d.lease.None?
    requires d.state == Scheduled || d.state == FailedTerminal
    requires d.state == Scheduled ==> d.nextEligibleAt.Some?
    requires ValidRetryPolicy(d.policy) && d.maxAttempts >= 1 && d.blockedReason != Some(DestinationDisabled)
    ensures CellInv(NewCell(d), clock)
  {
  }

  lemma LeaseKeeps(c: Cell, current: Delivery, lease: Lease, clock: Time)
    requires CellInv(c, clock) && current == c.d && lease.acquiredAt <= clock
    requires LeaseTransition(current, lease).Some?
    requires CommitLease(c, current, LeaseTransition(current, lease).value).Some?
    ensures CellInv(CommitLease(c, current, LeaseTransition(current, lease).value).value, clock)
    ensures Advances(c, CommitLease(c, current, LeaseTransition(current, lease).value).value)
  {
    SpacedFrame(c, CommitLease(c, current, LeaseTransition(current, lease).value).value);
  }

  lemma StartKeeps(c: Cell, a: Attempt, clock: Time)
    requires CellInv(c, clock) && c.d.state == InProgress
    requires CommitStart(c, c.d, a).Some?
    requires a.outcome == AttemptStarted && a.completedAt.None?
    requires c.d.attemptCount >= 1 && RetryDrawn(c, c.d.attemptCount) ==> a.startedAt >= DueTime(c, c.d.attemptCount)
    ensures CellInv(CommitStart(c, c.d, a).value, clock)
    ensures Advances(c, CommitStart(c, c.d, a).value)
  {
    var c' := CommitStart(c, c.d, a).value;
    SpacedFrame(c, c');
    if c.d.attemptCount >= 1 {
      assert Spaced(c', c.d.attemptCount);
    }
  }

  lemma DeferKeeps(c: Cell, plan: DeferPlan, at: Time, reason: Option<FailureCategory>, clock: Time)
    requires CellInv(c, clock) && plan.snap == c.d && c.d.state == InProgress && c.d.activeAttempt.None?
    requires plan.next.state in {Scheduled, RateLimited}
    requires PlanDefer(c.d, plan.next.state, at, plan.notBefore, reason, plan.recovery) == Some(plan)
    requires reason == Some(DestinationDisabled) ==> plan.next.state == Scheduled
    requires CommitDefer(c, plan, c.d).Some?
    ensures CellInv(CommitDefer(c, plan, c.d).value, clock)
    ensures Advances(c, CommitDefer(c, plan, c.d).value)
  {
    SpacedFrame(c, CommitDefer(c, plan, c.d).value);
  }

  lemma ResumeKeeps(c: Cell, now: Time, clock: Time)
    requires CellInv(c, clock) && Resumable(c.d, c.d.destination)
    requires CommitResume(c, c.d, now).Some?
    ensures CellInv(CommitResume(c, c.d, now).value, clock)
    ensures Advances(c, CommitResume(c, c.d, now).value)
  {
    SpacedFrame(c, CommitResume(c, c.d, now).value);
  }

  /** What a plan guarantees, however it was made. */
  ghost predicate FinalPlanOk(plan: FinalPlan) {
    var s, f := plan.snap, plan.final;
    && StateOk(s) && s.state == InProgress && s.attemptCount >= 1
    && s.activeAttempt == Some(plan.finished.id)
    && SameIdentity(s, f)
    && f.version == s.version + 1 && f.attemptCount == s.attemptCount
    && f.activeAttempt.None? && f.lease.None?
    && f.state in {Succeeded, FailedTerminal, DeadLettered, RetryScheduled}
    && f.blockedReason != Some(DestinationDisabled)
    && plan.finished.outcome != AttemptStarted && plan.finished.completedAt.Some?
    && (plan.finished.outcome == AttemptSucceeded <==> f.state == Succeeded)
    && (plan.delay.Some? ==> DelayInBounds(s.policy, s.attemptCount, plan.delay.value))
    && (f.state == RetryScheduled ==>
          && s.attemptCount < s.maxAttempts
          && plan.delay.Some?
          && f.nextEligibleAt == Some(DueAfter(plan.finished.completedAt.value, plan.delay.value))
          && plan.notBefore == f.nextEligibleAt)
  }

  /** A finished attempt keeps its identifier and start, and records when it was completed and how long it took. */
  predicate FinishedAs(after: Attempt, before: Attempt, completed: Time) {
    && after.id == before.id && after.startedAt == before.startedAt && after.completedAt == Some(completed)
    && (after.durationMs == completed - before.startedAt || (after.durationMs == 0 && completed < before.startedAt))
    && after.outcome != AttemptStarted
  }

  /** A 2xx answer succeeds, an answer that is not worth a retry fails for good, a retryable one is retried
      or, on the last attempt, dead-lettered. The delivery and its attempt keep the category, and every
      retryable answer leaves an eligibility time and an outbox row, a dead-lettered one included. */
  lemma PlanResultOk(
    started: Delivery, a: Attempt, completed: Time, response: Response, random: real, retryAfter: Option<real>)
    requires StateOk(started) && started.state == InProgress && started.activeAttempt == Some(a.id)
    ensures PlanResult(started, a, completed, ClassifyDeliveryResult(response), random, retryAfter).Some?
    ensures FinalPlanOk(PlanResult(started, a, completed, ClassifyDeliveryResult(response), random, retryAfter).value)
    ensures var r := ClassifyDeliveryResult(response);
            var plan := PlanResult(started, a, completed, r, random, retryAfter).value;
            && plan.snap == started && !plan.recovery && FinishedAs(plan.finished, a, completed)
            && (plan.finished.outcome == AttemptSucceeded <==> r.success)
            && (plan.final.state == Succeeded <==> response.Status? && 200 <= response.code < 300)
            && (plan.final.state == FailedTerminal <==> !r.success && !r.retryable)
            && (plan.final.state == DeadLettered <==> r.retryable && started.attemptCount == started.maxAttempts)
            && (plan.final.state == RetryScheduled <==> r.retryable && started.attemptCount < started.maxAttempts)
            && plan.finished.category == r.category && plan.final.blockedReason == r.category
            && (r.category.Some? ==> plan.final.lastFailure == r.category)
            && (plan.delay.Some? <==> r.retryable) && plan.final.nextEligibleAt == plan.notBefore
            && plan.notBefore == if plan.delay.Some? then Some(DueAfter(completed, plan.delay.value)) else None
  {
    DelayBounds(started.policy, started.attemptCount, random, retryAfter);
    ClassificationMeans(response);
  }

  /** A recovered attempt is finished as a timeout: retried or, on the last attempt, dead-lettered, and then
      without an eligibility time and an outbox row. */
  lemma PlanTimeoutOk(snap: Delivery, a: Attempt, now: Time, random: real)
    requires StateOk(snap) && snap.state == InProgress && snap.activeAttempt == Some(a.id)
    ensures PlanTimeout(snap, a, now, random).Some?
    ensures FinalPlanOk(PlanTimeout(snap, a, now, random).value)
    ensures var plan := PlanTimeout(snap, a, now, random).value;
            && plan.snap == snap && plan.recovery && FinishedAs(plan.finished, a, now)
            && plan.finished.outcome == AttemptFailed && plan.finished.category == Some(TimeoutFailure)
            && plan.final.blockedReason == Some(TimeoutFailure) && plan.final.lastFailure == Some(TimeoutFailure)
            && plan.delay.Some? && plan.final.nextEligibleAt == plan.notBefore
            && (if snap.attemptCount == snap.maxAttempts
                then plan.final.state == DeadLettered && plan.notBefore.None?
                else plan.final.state == RetryScheduled && plan.notBefore == Some(DueAfter(now, plan.delay.value)))
  {
    DelayBounds(snap.policy, snap.attemptCount, random, None);
  }

  lemma FinalKeeps(c: Cell, plan: FinalPlan, clock: Time)
    requires CellInv(c, clock) && FinalPlanOk(plan) && plan.snap == c.d
    requires plan.finished.startedAt == c.attempts[c.d.attemptCount].startedAt
    requires CommitFinal(c, plan, c.d).Some?
    ensures CellInv(CommitFinal(c, plan, c.d).value, clock)
    ensures Advances(c, CommitFinal(c, plan, c.d).value)
  {
    SpacedFrame(c, CommitFinal(c, plan, c.d).value);
  }

  /** A lease can never be taken from `rate_limited`: the eligibility check of acquireLease admits
      the state, the transition table does not. */
  lemma RateLimitedIsNeverLeased(x: Delivery, lease: Lease)
    requires x.state == RateLimited
    ensures Leasable(x.state) && LeaseTransition(x, lease).None?
  {
  }
}
