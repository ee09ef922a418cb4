/** Pure business types and policies: the delivery state machine, event outcome
    derivation, result classification and retry backoff of packages/domain.

    Instants are integer milliseconds; identifiers are numbers, except delivery
    identifiers, whose construction matters. */
module Domain {

  datatype Option<+T> = None | Some(value: T)

  lemma SubsetSize<T>(a: set<T>, b: set<T>)
    requires a <= b
    ensures |a| <= |b|
  {
    assert b == a + (b - a);
  }

  type Time = int
  type EventId = nat
  type DestinationId = nat
  type PartnerId = nat
  type AttemptId = nat
  type LeaseToken = nat

  /** The router derives the identifier of an original delivery from the event and the
      destination by hashing; hashes are taken as injective, so the pair is the identifier.
      Replay deliveries get generated identifiers. */
  datatype DeliveryId = OriginalId(event: EventId, destination: DestinationId) | ReplayId(n: nat)

  datatype DeliveryState =
    | Pending | Scheduled | RateLimited | InProgress | RetryScheduled
    | Succeeded | FailedTerminal | DeadLettered | Cancelled

  datatype EventStatus =
    | Accepted | Processing | PartiallySucceeded | AllSucceeded | AllFailed | NoDestinations

  datatype FailureCategory =
    | TransformationError | InvalidDestination | DestinationDisabled | SecretNotFound
    | OauthTokenError | DnsError | ConnectionError | TlsError | TimeoutFailure | RateLimitFailure
    | Partner4xx | Partner5xx | ResponseTooLarge | ResponseContractError | CircuitOpen
    | InternalPersistenceError | UnknownFailure

  datatype ExecutionKind = Original | Replay

  predicate Terminal(s: DeliveryState) {
    s in {Succeeded, FailedTerminal, DeadLettered, Cancelled}
  }

  // ---------------------------------------------------------------- deliveries

  datatype Lease = Lease(owner: nat, token: LeaseToken, acquiredAt: Time, expiresAt: Time)

  datatype RetryPolicy = RetryPolicy(
    initialDelaySeconds: real, multiplier: real, maxDelaySeconds: real)

  /** What `validatePolicy` and the policy schemas demand. */
  predicate ValidRetryPolicy(p: RetryPolicy) {
    p.initialDelaySeconds > 0.0 && p.multiplier > 0.0 && p.maxDelaySeconds > 0.0
  }

  datatype Delivery = Delivery(
    event: EventId, destination: DestinationId, partner: PartnerId, kind: ExecutionKind,
    state: DeliveryState, blockedReason: Option<FailureCategory>,
    attemptCount: nat, maxAttempts: nat, activeAttempt: Option<AttemptId>,
    nextEligibleAt: Option<Time>, lease: Option<Lease>,
    policy: RetryPolicy, timeoutMs: nat,
    lastFailure: Option<FailureCategory>,
    updatedAt: Time, terminalAt: Option<Time>, version: nat)
  {
    function Token(): Option<LeaseToken> {
      if lease.Some? then Some(lease.value.token) else None
    }
  }

  datatype Transition = Transition(
    to: DeliveryState, at: Time, expectedVersion: nat, leaseToken: Option<LeaseToken>,
    nextEligibleAt: Option<Time>, blockedReason: Option<FailureCategory>, lease: Option<Lease>)

  function PermittedTargets(from: DeliveryState): set<DeliveryState> {
    match from
    case Pending => {Scheduled}
    case Scheduled => {Scheduled, InProgress, RateLimited}
    case RateLimited => {Scheduled}
    case InProgress => {Scheduled, RateLimited, Succeeded, RetryScheduled, FailedTerminal, DeadLettered}
    case RetryScheduled => {Scheduled, InProgress}
    case Succeeded => {}
    case FailedTerminal => {}
    case DeadLettered => {}
    case Cancelled => {}
  }

  /** `transitionDelivery`; None stands for the INVALID_TRANSITION error. */
  function TransitionDelivery(d: Delivery, t: Transition): Option<Delivery> {
    if d.version != t.expectedVersion then None
    else if t.to !in PermittedTargets(d.state) then None
    else if t.to == InProgress && t.lease.None? then None
    else if d.state == InProgress && d.Token() != t.leaseToken then None
    else if t.to in {Scheduled, RetryScheduled, RateLimited} && t.nextEligibleAt.None? then None
    else Some(d.(
      state := t.to,
      updatedAt := t.at,
      version := d.version + 1,
      blockedReason := t.blockedReason,
      lastFailure := if t.blockedReason.Some? then t.blockedReason else d.lastFailure,
      nextEligibleAt := t.nextEligibleAt,
      terminalAt := if Terminal(t.to) then Some(t.at) else None,
      lease := t.lease))
  }

  /** Which transitions there are, by target. A new delivery is pending; a terminal one stays as it is; a retry
      is leased directly; a rate-limited delivery can only be scheduled. */
  predicate MayBecome(from: DeliveryState, to: DeliveryState) {
    match to
    case Scheduled => from in {Pending, Scheduled, RateLimited, RetryScheduled, InProgress}
    case InProgress => from in {Scheduled, RetryScheduled}
    case RateLimited => from in {Scheduled, InProgress}
    case RetryScheduled => from == InProgress
    case Succeeded => from == InProgress
    case FailedTerminal => from == InProgress
    case DeadLettered => from == InProgress
    case _ => false
  }

  /** A transition is refused exactly for these reasons, and otherwise leaves this record. */
  lemma TransitionIsExact(d: Delivery, t: Transition)
    ensures TransitionDelivery(d, t).Some?
            <==> && d.version == t.expectedVersion && MayBecome(d.state, t.to)
                 && (t.to == InProgress ==> t.lease.Some?)
                 && (d.state == InProgress ==> d.Token() == t.leaseToken)
                 && (t.to == Scheduled || t.to == RetryScheduled || t.to == RateLimited ==> t.nextEligibleAt.Some?)
    ensures TransitionDelivery(d, t).Some? ==>
              var r := TransitionDelivery(d, t).value;
              && r.version == d.version + 1 && r.state == t.to && r.updatedAt == t.at
              && r.lease == t.lease && r.nextEligibleAt == t.nextEligibleAt && r.blockedReason == t.blockedReason
              && (t.blockedReason.Some? ==> r.lastFailure == t.blockedReason)
              && (t.blockedReason.None? ==> r.lastFailure == d.lastFailure)
              && (r.state == Succeeded || r.state == FailedTerminal || r.state == DeadLettered ==>
                    r.terminalAt == Some(t.at))
              && (r.state == Scheduled || r.state == RetryScheduled || r.state == RateLimited || r.state == InProgress ==>
                    r.terminalAt.None?)
              && r.activeAttempt == d.activeAttempt && r.attemptCount == d.attemptCount
              && r.event == d.event && r.destination == d.destination && r.partner == d.partner && r.kind == d.kind
              && r.maxAttempts == d.maxAttempts && r.policy == d.policy && r.timeoutMs == d.timeoutMs
  {
  }

  // ---------------------------------------------------------------- event outcome

  datatype Outcome = Outcome(
    routingComplete: bool, total: int, terminal: int, succeeded: int, failed: int, deadLettered: int)

  /** `deriveEventStatus`; None stands for the INVALID_EVENT_COUNTERS error. */
  function DeriveEventStatus(o: Outcome): Option<EventStatus> {
    if o.total < 0 || o.terminal < 0 || o.succeeded < 0 || o.failed < 0 || o.deadLettered < 0
       || o.terminal > o.total
       || o.succeeded + o.failed + o.deadLettered != o.terminal then None
    else if !o.routingComplete then Some(if o.total == 0 then Accepted else Processing)
    else if o.total == 0 then Some(NoDestinations)
    else if o.terminal < o.total then Some(Processing)
    else if o.succeeded == o.total then Some(AllSucceeded)
    else Some(if o.succeeded > 0 then PartiallySucceeded else AllFailed)
  }

  predicate ValidOutcome(o: Outcome) {
    && 0 <= o.succeeded && 0 <= o.failed && 0 <= o.deadLettered
    && o.succeeded + o.failed + o.deadLettered == o.terminal && o.terminal <= o.total
  }

  /** What the status of an event says about its counters. */
  predicate StatusMeans(o: Outcome, status: EventStatus) {
    && (status == Accepted <==> !o.routingComplete && o.total == 0)
    && (status == NoDestinations <==> o.routingComplete && o.total == 0)
    && (status == AllSucceeded <==> o.routingComplete && o.total > 0 && o.succeeded == o.total)
    && (status == AllFailed <==> o.routingComplete && o.total > 0 && o.failed + o.deadLettered == o.total)
    && (status == PartiallySucceeded <==>
          o.routingComplete && o.terminal == o.total && o.succeeded > 0 && o.failed + o.deadLettered > 0)
    && (status == Processing <==> o.total > 0 && (!o.routingComplete || o.terminal < o.total))
  }

  /** A status is derived exactly from consistent counters, and it is the one they mean. */
  lemma StatusIsExact(o: Outcome, status: EventStatus)
    ensures DeriveEventStatus(o).Some? <==> ValidOutcome(o)
    ensures ValidOutcome(o) ==> (DeriveEventStatus(o) == Some(status) <==> StatusMeans(o, status))
  {
  }

  // ---------------------------------------------------------------- attempt results

  datatype ErrorCode =
    | CodeDns | CodeConnection | CodeTls | CodeTimeout | CodeOauth | CodeSecret
    | CodeInvalidDestination | CodeTooLarge | CodeContract | CodeUnknown

  /** What came back from the partner call: an HTTP status or a transport error. */
  datatype Response = Status(code: int) | Failed(error: ErrorCode)

  datatype Classification = Classification(
    success: bool, retryable: bool, category: Option<FailureCategory>, countsTowardCircuit: bool)

  function ClassifyDeliveryResult(r: Response): Classification {
    match r
    case Status(c) =>
      if 200 <= c < 300 then Classification(true, false, None, false)
      else if c in {408, 425, 429, 500, 502, 503, 504} then
        Classification(false, true, Some(if c == 429 then RateLimitFailure else Partner5xx),
                       c in {500, 502, 503, 504})
      else Classification(false, false, Some(Partner4xx), false)
    case Failed(e) =>
      match e
      case CodeDns => Classification(false, true, Some(DnsError), true)
      case CodeConnection => Classification(false, true, Some(ConnectionError), true)
      case CodeTls => Classification(false, true, Some(TlsError), true)
      case CodeTimeout => Classification(false, true, Some(TimeoutFailure), true)
      case CodeOauth => Classification(false, false, Some(OauthTokenError), false)
      case CodeSecret => Classification(false, false, Some(SecretNotFound), false)
      case CodeInvalidDestination => Classification(false, false, Some(InvalidDestination), false)
      case CodeTooLarge => Classification(false, false, Some(ResponseTooLarge), false)
      case CodeContract => Classification(false, false, Some(ResponseContractError), false)
      case CodeUnknown => Classification(false, false, Some(UnknownFailure), false)
  }

  /** An answer that is worth a retry: too early, too often, timed out, or a server out of order. */
  predicate WorthRetry(r: Response) {
    match r
    case Status(c) => c == 408 || c == 425 || c == 429 || c == 500 || 502 <= c <= 504
    case Failed(e) => e == CodeDns || e == CodeConnection || e == CodeTls || e == CodeTimeout
  }

  /** The category a failure is recorded with. */
  predicate RecordedAs(r: Response, f: FailureCategory) {
    match f
    case RateLimitFailure => r == Status(429)
    case Partner5xx => r.Status? && WorthRetry(r) && r.code != 429
    case Partner4xx => r.Status? && !WorthRetry(r) && !(200 <= r.code <= 299)
    case DnsError => r == Failed(CodeDns)
    case ConnectionError => r == Failed(CodeConnection)
    case TlsError => r == Failed(CodeTls)
    case TimeoutFailure => r == Failed(CodeTimeout)
    case OauthTokenError => r == Failed(CodeOauth)
    case SecretNotFound => r == Failed(CodeSecret)
    case InvalidDestination => r == Failed(CodeInvalidDestination)
    case ResponseTooLarge => r == Failed(CodeTooLarge)
    case ResponseContractError => r == Failed(CodeContract)
    case UnknownFailure => r == Failed(CodeUnknown)
    case _ => false
  }

  /** Success is a 2xx answer; what counts toward the circuit is a retryable answer that blames the partner's
      server or the way to it; every failure has the category of its cause. */
  lemma ClassificationMeans(r: Response)
    ensures var c := ClassifyDeliveryResult(r);
            && (c.success <==> r.Status? && 200 <= r.code < 300)
            && (c.retryable <==> WorthRetry(r))
            && (c.countsTowardCircuit <==> WorthRetry(r) && r != Status(408) && r != Status(425) && r != Status(429))
            && (c.category.None? <==> c.success)
            && (forall f :: c.category == Some(f) <==> RecordedAs(r, f))
            && (c.retryable ==> !c.success)
  {
    var c := ClassifyDeliveryResult(r);
    forall f ensures c.category == Some(f) <==> RecordedAs(r, f) {
    }
  }

  function ReplayEligible(s: DeliveryState, category: Option<FailureCategory>, corrected: bool): bool {
    if s == DeadLettered then true
    else if s == FailedTerminal && category.Some? && category.value in
            {TransformationError, InvalidDestination, SecretNotFound, OauthTokenError, Partner4xx,
             ResponseTooLarge, ResponseContractError} then corrected
    else false
  }

  /** A dead-lettered delivery can always be replayed, one that failed for good only with corrected input and
      for a cause that a correction can remove. */
  lemma ReplayIsExact(s: DeliveryState, category: Option<FailureCategory>, corrected: bool)
    ensures ReplayEligible(s, category, corrected)
            <==> || s == DeadLettered
                 || (s == FailedTerminal && corrected && category.Some?
                     && (category.value == TransformationError || category.value == InvalidDestination
                         || category.value == SecretNotFound || category.value == OauthTokenError
                         || category.value == Partner4xx || category.value == ResponseTooLarge
                         || category.value == ResponseContractError))
  {
  }

  // ---------------------------------------------------------------- backoff

  function MinReal(a: real, b: real): real { if a <= b then a else b }
  function MaxReal(a: real, b: real): real { if a >= b then a else b }

  function Ceil(x: real): int {
    if x.Floor as real == x then x.Floor else x.Floor + 1
  }

  function Power(b: real, n: nat): real {
    if n == 0 then 1.0 else b * Power(b, n - 1)
  }

  lemma {:induction false} PowerPositive(b: real, n: nat)
    requires b > 0.0
    ensures Power(b, n) > 0.0
  {
    if n > 0 { PowerPositive(b, n - 1); }
  }

  /** The capped exponential that the delay of attempt `n` is drawn from. */
  function BackoffBase(p: RetryPolicy, n: nat): real
    requires n >= 1
  {
    MinReal(p.maxDelaySeconds, p.initialDelaySeconds * Power(p.multiplier, n - 1))
  }

  /** `retryDelaySeconds`. */
  function RetryDelaySeconds(p: RetryPolicy, n: nat, random: real, retryAfter: Option<real>): real
    requires n >= 1
  {
    var base := BackoffBase(p, n);
    var jittered := base * (0.5 + MaxReal(0.0, MinReal(0.999999, random)) * 0.5);
    MinReal(p.maxDelaySeconds, MaxReal(jittered, if retryAfter.Some? then retryAfter.value else 0.0))
  }

  /** The bounds that every retry delay respects, whatever the random source and the partner say. */
  predicate DelayInBounds(p: RetryPolicy, n: nat, delay: real)
    requires n >= 1
  {
    BackoffBase(p, n) / 2.0 <= delay <= p.maxDelaySeconds
  }

  lemma DelayBounds(p: RetryPolicy, n: nat, random: real, retryAfter: Option<real>)
    requires n >= 1 && ValidRetryPolicy(p)
    ensures DelayInBounds(p, n, RetryDelaySeconds(p, n, random, retryAfter))
    ensures BackoffBase(p, n) > 0.0
    ensures retryAfter.Some? && 0.0 <= retryAfter.value <= p.maxDelaySeconds
            ==> RetryDelaySeconds(p, n, random, retryAfter) >= retryAfter.value
  {
    PowerPositive(p.multiplier, n - 1);
    var base := BackoffBase(p, n);
    var exp := p.initialDelaySeconds * Power(p.multiplier, n - 1);
    assert exp > 0.0;
    var u := MaxReal(0.0, MinReal(0.999999, random));
    assert 0.5 <= 0.5 + u * 0.5 < 1.0;
    assert base * 0.5 <= base * (0.5 + u * 0.5);
  }

  /** `Ceil` is the least integer that is not smaller. */
  lemma CeilIsLeast(x: real, n: int)
    ensures Ceil(x) <= n <==> x <= n as real
  {
  }

  lemma NextPower(p: RetryPolicy, n: nat)
    requires n >= 1 && ValidRetryPolicy(p)
    ensures p.initialDelaySeconds * Power(p.multiplier, n)
            == (p.initialDelaySeconds * Power(p.multiplier, n - 1)) * p.multiplier
    ensures p.initialDelaySeconds * Power(p.multiplier, n - 1) > 0.0
  {
    PowerPositive(p.multiplier, n - 1);
    Associative(p.initialDelaySeconds, p.multiplier, Power(p.multiplier, n - 1));
  }

  lemma Associative(i: real, m: real, power: real)
    ensures i * (m * power) == (i * power) * m
    ensures i > 0.0 && power > 0.0 ==> i * power > 0.0
  {
  }

  lemma CapGrows(max: real, a: real, m: real, b: real)
    requires b == a * m && a > 0.0
    ensures MinReal(max, a) < max ==> MinReal(max, b) == MinReal(max, MinReal(max, a) * m)
    ensures MinReal(max, a) == max && m >= 1.0 ==> MinReal(max, b) == max
  {
    if m >= 1.0 {
      assert a * (m - 1.0) >= 0.0;
    }
  }

  /** The delay starts at the initial one and is multiplied from attempt to attempt until it reaches the
      maximum; a multiplier of at least one keeps it there. */
  lemma BackoffGrows(p: RetryPolicy, n: nat)
    requires n >= 1 && ValidRetryPolicy(p)
    ensures BackoffBase(p, 1) == MinReal(p.maxDelaySeconds, p.initialDelaySeconds)
    ensures BackoffBase(p, n) < p.maxDelaySeconds ==>
              BackoffBase(p, n + 1) == MinReal(p.maxDelaySeconds, BackoffBase(p, n) * p.multiplier)
    ensures BackoffBase(p, n) == p.maxDelaySeconds && p.multiplier >= 1.0 ==> BackoffBase(p, n + 1) == p.maxDelaySeconds
  {
    NextPower(p, n);
    CapGrows(p.maxDelaySeconds, p.initialDelaySeconds * Power(p.multiplier, n - 1), p.multiplier,
             p.initialDelaySeconds * Power(p.multiplier, n));
  }

  lemma Jitter(base: real, random: real, drawn: real)
    requires base > 0.0 && 0.0 <= random <= 0.999999 && drawn == (base + base * random) / 2.0
    ensures base * (0.5 + random * 0.5) == drawn && 0.0 < drawn <= base
  {
    assert base * (0.5 + random * 0.5) == base * 0.5 + (base * random) * 0.5;
    assert base * (1.0 - random) >= 0.0 && base * random >= 0.0;
  }

  /** The share of the delay that is drawn: half of it for the least draw, nearly all for the greatest, in
      proportion between them. A longer Retry-After takes its place, up to the maximum. */
  lemma JitterIsExact(p: RetryPolicy, n: nat, random: real, retryAfter: Option<real>, drawn: real)
    requires n >= 1 && ValidRetryPolicy(p) && 0.0 <= random <= 0.999999
    requires drawn == (BackoffBase(p, n) + BackoffBase(p, n) * random) / 2.0
    ensures retryAfter.None? || retryAfter.value <= drawn ==> RetryDelaySeconds(p, n, random, retryAfter) == drawn
    ensures retryAfter.Some? && drawn <= retryAfter.value <= p.maxDelaySeconds ==>
              RetryDelaySeconds(p, n, random, retryAfter) == retryAfter.value
    ensures retryAfter.Some? && retryAfter.value > p.maxDelaySeconds ==>
              RetryDelaySeconds(p, n, random, retryAfter) == p.maxDelaySeconds
  {
    NextPower(p, n);
    Jitter(BackoffBase(p, n), random, drawn);
  }
}
