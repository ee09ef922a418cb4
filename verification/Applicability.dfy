/** When an apply goes through: exactly for which targets and bundles, said of the target before it. */
module Applicability {
  import opened Domain
  import opened Portability
  import opened Decisions
  import opened Import

  const MAX_PARTNERS := 10
  const MAX_DESTINATIONS := 25

  /** Nothing is added, or the limit is kept with everything that is wanted. */
  predicate Fits(there: set<Key>, wanted: set<Key>, max: nat) {
    wanted <= there || |there + wanted| <= max
  }

  function PartnerKeys(b: Bundle): set<Key> {
    set p | p in b.partners :: p.key
  }

  /** The destinations of the bundle that need not wait. */
  ghost function DestinationKeys(t: Target, b: Bundle, env: Environment): set<Key> {
    set d | d in b.destinations && !MustWait(t, b, env, d) :: d.key
  }

  /** A destination that is created or updated. */
  ghost predicate Writes(t: Target, b: Bundle, env: Environment, d: BundleDestination) {
    !MustWait(t, b, env, d) && !OtherIdentity(t, d) && !AsListed(t, d)
  }

  /** Two keys of one destination. */
  predicate SameDestination(t: Target, j: Key, k: Key) {
    j == k || (j in t.destinations && k in t.destinations && t.destinations[j].id == t.destinations[k].id)
  }

  /** There is a subscription to the same events of the same destination, or the bundle creates one before. */
  ghost predicate Taken(t: Target, b: Bundle, env: Environment, i: nat)
    requires i < |b.subscriptions|
  {
    var s := b.subscriptions[i];
    || (s.destination in t.destinations
        && exists k :: k in t.subscriptions && t.subscriptions[k].eventType == s.eventType
                       && t.subscriptions[k].destinationId == t.destinations[s.destination].id)
    || (exists j :: 0 <= j < i && SubscriptionIs(t, b, env, b.subscriptions[j], Create)
                    && b.subscriptions[j].eventType == s.eventType
                    && SameDestination(t, b.subscriptions[j].destination, s.destination))
  }

  /** The limit is kept, and no address that is to be written is refused. */
  ghost predicate DestinationsFit(t: Target, b: Bundle, env: Environment) {
    && Fits(t.destinations.Keys, DestinationKeys(t, b, env), MAX_DESTINATIONS)
    && (forall d :: d in b.destinations && Writes(t, b, env, d) ==> d.key !in env.refused)
  }

  /** No subscription that is to be created is taken. */
  ghost predicate SubscriptionsFit(t: Target, b: Bundle, env: Environment) {
    forall i :: 0 <= i < |b.subscriptions| && SubscriptionIs(t, b, env, b.subscriptions[i], Create) ==>
      !Taken(t, b, env, i)
  }

  /** Everything the bundle refers to is in the bundle: partners, transformations with the versions wanted of them,
      and destinations. */
  ghost predicate RefersWithin(b: Bundle) {
    && (forall d :: d in b.destinations ==>
          && d.partner in PartnerKeys(b)
          && exists bt, v :: bt in b.transformations && bt.key == d.transformation
                             && v in bt.versions && v.version == d.activeVersion)
    && (forall s :: s in b.subscriptions ==> exists d :: d in b.destinations && d.key == s.destination)
  }

  lemma ParentsListed(b: Bundle, i: nat) returns (j: nat, k: nat)
    requires RefersWithin(b) && i < |b.destinations|
    ensures j < |b.partners| && b.partners[j].key == b.destinations[i].partner
    ensures k < |b.transformations| && b.transformations[k].key == b.destinations[i].transformation
    ensures Lists(b.transformations[k], b.destinations[i].activeVersion)
  {
    var d := b.destinations[i];
    assert d in b.destinations;
    var p :| p in b.partners && p.key == d.partner;
    j :| 0 <= j < |b.partners| && b.partners[j] == p;
    var bt, v :| bt in b.transformations && bt.key == d.transformation && v in bt.versions && v.version == d.activeVersion;
    k :| 0 <= k < |b.transformations| && b.transformations[k] == bt;
    var l :| 0 <= l < |bt.versions| && bt.versions[l] == v;
  }

  lemma DestinationListed(b: Bundle, i: nat) returns (j: nat)
    requires RefersWithin(b) && i < |b.subscriptions|
    ensures j < |b.destinations| && b.destinations[j].key == b.subscriptions[i].destination
  {
    assert b.subscriptions[i] in b.subscriptions;
    var d :| d in b.destinations && d.key == b.subscriptions[i].destination;
    j :| 0 <= j < |b.destinations| && b.destinations[j] == d;
  }

  lemma WithinIsResolved(b: Bundle)
    requires RefersWithin(b)
    ensures Resolved(b)
  {
    forall i | 0 <= i < |b.destinations| ensures ParentsResolve(b, b.destinations[i]) {
      var j, k := ParentsListed(b, i);
    }
    forall i | 0 <= i < |b.subscriptions| ensures DestinationResolves(b, b.subscriptions[i]) {
      var j := DestinationListed(b, i);
    }
  }

  lemma ResolvedIsWithin(b: Bundle)
    requires Resolved(b)
    ensures RefersWithin(b)
  {
    forall d | d in b.destinations
      ensures d.partner in PartnerKeys(b)
      ensures exists bt, v :: bt in b.transformations && bt.key == d.transformation
                              && v in bt.versions && v.version == d.activeVersion
    {
      var i :| 0 <= i < |b.destinations| && b.destinations[i] == d;
      assert ParentsResolve(b, b.destinations[i]);
      var j :| 0 <= j < |b.partners| && b.partners[j].key == b.destinations[i].partner;
      assert b.partners[j] in b.partners;
      var k :| 0 <= k < |b.transformations| && b.transformations[k].key == b.destinations[i].transformation
               && Lists(b.transformations[k], b.destinations[i].activeVersion);
      var bt := b.transformations[k];
      var l :| 0 <= l < |bt.versions| && bt.versions[l].version == d.activeVersion;
      assert bt in b.transformations && bt.versions[l] in bt.versions;
    }
    forall s | s in b.subscriptions ensures exists d :: d in b.destinations && d.key == s.destination {
      var i :| 0 <= i < |b.subscriptions| && b.subscriptions[i] == s;
      assert DestinationResolves(b, b.subscriptions[i]);
      var j :| 0 <= j < |b.destinations| && b.destinations[j].key == s.destination;
      assert b.destinations[j] in b.destinations;
    }
  }

  /** The bundle can be applied. */
  ghost predicate Applicable(t: Target, b: Bundle, env: Environment) {
    && RefersWithin(b) && Fits(t.partners.Keys, PartnerKeys(b), MAX_PARTNERS)
    && DestinationsFit(t, b, env) && SubscriptionsFit(t, b, env)
  }

  lemma KeysFit<V>(there: set<Key>, after: map<Key, V>, wanted: set<Key>, max: nat)
    requires after.Keys == there + wanted && (after.Keys == there || |after| <= max)
    ensures Fits(there, wanted, max)
  {
    assert |after| == |after.Keys|;
  }

  // ---------------------------------------------------------------- partners

  /** The keys after the first `n` partners. */
  lemma PartnerKeysAre(t: Target, b: Bundle, n: nat, after: map<Key, Partner>)
    requires n <= |b.partners| && PartnersUpTo(t, b.partners, n, after)
    ensures after.Keys <= t.partners.Keys + PartnerKeys(b) && t.partners.Keys <= after.Keys
    ensures n == |b.partners| ==> after.Keys == t.partners.Keys + PartnerKeys(b)
  {
    forall k | k in after.Keys ensures k in t.partners.Keys + PartnerKeys(b) {
      if i :| 0 <= i < n && b.partners[i].key == k {
        assert b.partners[i] in b.partners;
      } else {
        assert Kept(t.partners, after, k);
      }
    }
    forall k | k in t.partners.Keys ensures k in after.Keys {
      if i :| 0 <= i < n && b.partners[i].key == k {
      } else {
        assert Kept(t.partners, after, k);
      }
    }
  }

  /** What makes the creation of a partner fail. */
  lemma PartnerTooMany(t: Target, b: Bundle, n: nat, after: map<Key, Partner>)
    requires n < |b.partners| && PartnersUpTo(t, b.partners, n, after)
    requires b.partners[n].key !in after && |after| >= MAX_PARTNERS
    ensures !Fits(t.partners.Keys, PartnerKeys(b), MAX_PARTNERS)
  {
    PartnerKeysAre(t, b, n, after);
    var k, all := b.partners[n].key, t.partners.Keys + PartnerKeys(b);
    assert b.partners[n] in b.partners && k in PartnerKeys(b) && k !in t.partners.Keys;
    SubsetSize(after.Keys + {k}, all);
  }

  // ---------------------------------------------------------------- destinations

  lemma WritesIsPlanned(t: Target, b: Bundle, env: Environment, d: BundleDestination)
    ensures Writes(t, b, env, d) <==> Changes(DestinationAction(t, b, env, d))
    ensures DestinationAction(t, b, env, d) == Create <==> !MustWait(t, b, env, d) && d.key !in t.destinations
  {
    DestinationDecided(t, b, env, d, Create);
    DestinationDecided(t, b, env, d, Update);
  }

  /** The keys after the first `n` destinations. */
  lemma DestinationKeysAre(t: Target, b: Bundle, env: Environment, u: Target, n: nat, after: map<Key, Destination>)
    requires n <= |b.destinations| && DestinationsUpTo(t, b, env, u, n, after)
    ensures after.Keys <= t.destinations.Keys + DestinationKeys(t, b, env) && t.destinations.Keys <= after.Keys
    ensures n == |b.destinations| ==> after.Keys == t.destinations.Keys + DestinationKeys(t, b, env)
  {
    forall k
      ensures k in after.Keys ==> k in t.destinations.Keys + DestinationKeys(t, b, env)
      ensures k in t.destinations.Keys ==> k in after.Keys
    {
      if i :| 0 <= i < n && b.destinations[i].key == k {
        assert DestinationAfter(t, b, env, u, b.destinations[i], after) && b.destinations[i] in b.destinations;
        WritesIsPlanned(t, b, env, b.destinations[i]);
      } else {
        assert Kept(t.destinations, after, k);
      }
    }
    forall k | k in DestinationKeys(t, b, env) && n == |b.destinations| ensures k in after.Keys {
      var d :| d in b.destinations && !MustWait(t, b, env, d) && d.key == k;
      var i :| 0 <= i < |b.destinations| && b.destinations[i] == d;
      assert DestinationAfter(t, b, env, u, b.destinations[i], after);
      WritesIsPlanned(t, b, env, d);
    }
  }

  lemma DestinationTooMany(t: Target, b: Bundle, env: Environment, u: Target, n: nat, after: map<Key, Destination>)
    requires n < |b.destinations| && DestinationsUpTo(t, b, env, u, n, after)
    requires Changes(DestinationAction(t, b, env, b.destinations[n]))
    requires b.destinations[n].key !in after && |after| >= MAX_DESTINATIONS
    ensures !Fits(t.destinations.Keys, DestinationKeys(t, b, env), MAX_DESTINATIONS)
  {
    DestinationKeysAre(t, b, env, u, n, after);
    WritesIsPlanned(t, b, env, b.destinations[n]);
    var k, all := b.destinations[n].key, t.destinations.Keys + DestinationKeys(t, b, env);
    assert b.destinations[n] in b.destinations && k in DestinationKeys(t, b, env) && k !in t.destinations.Keys;
    SubsetSize(after.Keys + {k}, all);
  }

  /** What makes a write fail once the parents exist. */
  predicate DestinationRefused(d: BundleDestination, env: Environment, now: map<Key, Destination>) {
    d.key in env.refused || (d.key !in now && |now| >= MAX_DESTINATIONS)
  }

  lemma DestinationStops(t: Target, b: Bundle, env: Environment, u: Target, n: nat, now: map<Key, Destination>)
    requires n < |b.destinations| && DestinationsUpTo(t, b, env, u, n, now)
    requires Changes(DestinationAction(t, b, env, b.destinations[n]))
    requires DestinationRefused(b.destinations[n], env, now)
    ensures !DestinationsFit(t, b, env)
  {
    WritesIsPlanned(t, b, env, b.destinations[n]);
    if b.destinations[n].key in env.refused {
      assert b.destinations[n] in b.destinations;
    } else {
      DestinationTooMany(t, b, env, u, n, now);
    }
  }

  /** Refused destinations are as they were. */
  ghost predicate NoneRefused(t: Target, env: Environment, now: map<Key, Destination>) {
    forall k :: k in env.refused ==> Kept(t.destinations, now, k)
  }

  lemma RefusedStep(
    t: Target, env: Environment, before: map<Key, Destination>, after: map<Key, Destination>, key: Key)
    requires NoneRefused(t, env, before) && forall k :: k != key ==> Kept(before, after, k)
    requires key in env.refused ==> after == before
    ensures NoneRefused(t, env, after)
  {
    forall k | k in env.refused ensures Kept(t.destinations, after, k) {
      assert Kept(t.destinations, before, k);
      assert k != key ==> Kept(before, after, k);
    }
  }

  lemma DestinationsGo(t: Target, b: Bundle, env: Environment, u: Target, after: map<Key, Destination>)
    requires DestinationsUpTo(t, b, env, u, |b.destinations|, after) && NoneRefused(t, env, after)
    requires after.Keys == t.destinations.Keys || |after| <= MAX_DESTINATIONS
    ensures DestinationsFit(t, b, env)
  {
    DestinationKeysAre(t, b, env, u, |b.destinations|, after);
    KeysFit(t.destinations.Keys, after, DestinationKeys(t, b, env), MAX_DESTINATIONS);
    forall d | d in b.destinations && Writes(t, b, env, d) ensures d.key !in env.refused {
      var i :| 0 <= i < |b.destinations| && b.destinations[i] == d;
      assert DestinationAfter(t, b, env, u, b.destinations[i], after);
      WritesIsPlanned(t, b, env, d);
      assert d.key in env.refused ==> Kept(t.destinations, after, d.key);
    }
  }

  /** A key that has not had its turn is as it was. */
  lemma TurnIsKept(t: Target, b: Bundle, env: Environment, u: Target, i: nat, now: map<Key, Destination>)
    requires Parsed(b) && i < |b.destinations| && DestinationsUpTo(t, b, env, u, i, now)
    ensures Kept(t.destinations, now, b.destinations[i].key)
  {
  }

  /** Old destinations keep their identifiers and new ones have their own. */
  ghost predicate NewIds(t: Target, after: map<Key, Destination>) {
    && (forall k :: k in t.destinations ==> k in after && after[k].id == t.destinations[k].id)
    && (forall k :: k in after && k !in t.destinations ==> after[k].id >= t.next)
    && (forall j, k ::
          j in after && k in after && j !in t.destinations && k !in t.destinations && after[j].id == after[k].id
          ==> j == k)
  }

  /** The write of one key keeps its identifier, or gives it one from `bound` on. */
  predicate OwnId(before: map<Key, Destination>, after: map<Key, Destination>, key: Key, bound: nat) {
    if key in before then key in after && after[key].id == before[key].id
    else key in after ==> after[key].id >= bound
  }

  lemma OwnIdStep(t: Target, before: map<Key, Destination>, after: map<Key, Destination>, key: Key, bound: nat)
    requires NewIds(t, before) && bound >= t.next && forall k :: k in before ==> before[k].id < bound
    requires OwnId(before, after, key, bound)
    requires forall k :: k != key ==> Kept(before, after, k)
    ensures NewIds(t, after)
  {
    forall k | k != key
      ensures k in after <==> k in before
      ensures k in before ==> after[k] == before[k]
    {
      assert Kept(before, after, k);
    }
  }

  /** The parents of every destination exist once partners and transformations are done. */
  lemma ParentsExist(t: Target, b: Bundle, u: Target)
    requires Parsed(b) && Resolved(b)
    requires PartnersAfter(t, b.partners, u.partners) && TransformationsAfter(t, b.transformations, u.transformations)
    ensures forall i :: 0 <= i < |b.destinations| ==>
              b.destinations[i].partner in u.partners && b.destinations[i].transformation in u.transformations
  {
    forall i | 0 <= i < |b.destinations|
      ensures b.destinations[i].partner in u.partners && b.destinations[i].transformation in u.transformations
    {
      assert ParentsResolve(b, b.destinations[i]);
      var j :| 0 <= j < |b.transformations| && b.transformations[j].key == b.destinations[i].transformation;
      TransformationExists(t, b, u, j);
    }
  }

  lemma TransformationExists(t: Target, b: Bundle, u: Target, j: nat)
    requires Parsed(b) && j < |b.transformations| && TransformationsAfter(t, b.transformations, u.transformations)
    ensures b.transformations[j].key in u.transformations
  {
    var key, vs := b.transformations[j].key, b.transformations[j].versions;
    assert TransformationAfter(t, key, vs, u.transformations);
    if key !in t.transformations {
      AllMissing(t, key, vs);
    }
  }

  // ---------------------------------------------------------------- subscriptions

  /** The destination of a subscription that is created or updated exists once destinations are done. */
  lemma DestinationExists(t: Target, b: Bundle, env: Environment, u: Target, s: BundleSubscription)
    requires Parsed(b) && Resolved(b) && s in b.subscriptions && Changes(SubscriptionAction(t, b, env, s))
    requires DestinationsUpTo(t, b, env, u, |b.destinations|, u.destinations)
    ensures s.destination in u.destinations
  {
    var i :| 0 <= i < |b.subscriptions| && b.subscriptions[i] == s;
    assert DestinationResolves(b, b.subscriptions[i]);
    var j :| 0 <= j < |b.destinations| && b.destinations[j].key == s.destination;
    var d := b.destinations[j];
    FindUnique(b, d);
    assert DestinationAfter(t, b, env, u, d, u.destinations);
  }

  lemma DestinationsExist(t: Target, b: Bundle, env: Environment, u: Target)
    requires Parsed(b) && Resolved(b) && DestinationsUpTo(t, b, env, u, |b.destinations|, u.destinations)
    ensures forall i :: 0 <= i < |b.subscriptions| && Changes(SubscriptionAction(t, b, env, b.subscriptions[i])) ==>
              b.subscriptions[i].destination in u.destinations
  {
    forall i | 0 <= i < |b.subscriptions| && Changes(SubscriptionAction(t, b, env, b.subscriptions[i]))
      ensures b.subscriptions[i].destination in u.destinations
    {
      DestinationExists(t, b, env, u, b.subscriptions[i]);
    }
  }

  /** A subscription of the state in between to these events of this destination. */
  ghost predicate Occupied(u: Target, now: map<Key, Subscription>, s: BundleSubscription) {
    s.destination in u.destinations
    && exists k :: k in now && now[k].eventType == s.eventType && now[k].destinationId == u.destinations[s.destination].id
  }

  /** Identifiers coincide after the destinations are done just when the destinations did before. */
  lemma SameIds(t: Target, u: Target, j: Key, k: Key)
    requires ValidTarget(t) && NewIds(t, u.destinations) && j in u.destinations && k in u.destinations
    ensures u.destinations[j].id == u.destinations[k].id <==> SameDestination(t, j, k)
  {
  }

  /** What occupies a place when its turn comes took it before. */
  lemma OccupiedWasTaken(
    t: Target, b: Bundle, env: Environment, u: Target, i: nat, now: map<Key, Subscription>, k: Key)
    requires ValidTarget(t) && Parsed(b) && i < |b.subscriptions|
    requires NewIds(t, u.destinations) && SubscriptionsUpTo(t, b, env, u, i, now)
    requires b.subscriptions[i].destination in u.destinations
    requires k in now && now[k].eventType == b.subscriptions[i].eventType
    requires now[k].destinationId == u.destinations[b.subscriptions[i].destination].id
    ensures Taken(t, b, env, i)
  {
    if j :| 0 <= j < i && b.subscriptions[j].key == k {
      assert SubscriptionAfter(t, b, env, u, b.subscriptions[j], now);
      SubscriptionDecided(t, b, env, b.subscriptions[j], Create);
      if SubscriptionAction(t, b, env, b.subscriptions[j]) == Create {
        SameIds(t, u, b.subscriptions[j].destination, b.subscriptions[i].destination);
      } else {
        assert k in t.subscriptions && t.subscriptions[k].destinationId == now[k].destinationId;
      }
    } else {
      assert Kept(t.subscriptions, now, k);
    }
  }

  /** A stored subscription is still there when the turn comes. */
  lemma StoredOccupies(
    t: Target, b: Bundle, env: Environment, u: Target, n: nat, now: map<Key, Subscription>, k: Key)
    requires n <= |b.subscriptions| && SubscriptionsUpTo(t, b, env, u, n, now) && k in t.subscriptions
    ensures k in now && now[k].eventType == t.subscriptions[k].eventType
    ensures now[k].destinationId == t.subscriptions[k].destinationId
  {
    if j :| 0 <= j < n && b.subscriptions[j].key == k {
      assert SubscriptionAfter(t, b, env, u, b.subscriptions[j], now);
    } else {
      assert Kept(t.subscriptions, now, k);
    }
  }

  /** And so is one that was created. */
  lemma CreatedOccupies(
    t: Target, b: Bundle, env: Environment, u: Target, n: nat, now: map<Key, Subscription>, j: nat)
    requires Parsed(b) && j < n <= |b.subscriptions| && SubscriptionsUpTo(t, b, env, u, n, now)
    requires SubscriptionIs(t, b, env, b.subscriptions[j], Create)
    ensures var s := b.subscriptions[j];
            && s.key in now && now[s.key].eventType == s.eventType
            && s.destination in u.destinations && now[s.key].destinationId == u.destinations[s.destination].id
  {
    SubscriptionDecided(t, b, env, b.subscriptions[j], Create);
    assert SubscriptionAfter(t, b, env, u, b.subscriptions[j], now);
  }

  lemma SubscriptionTurn(t: Target, b: Bundle, env: Environment, u: Target, i: nat, now: map<Key, Subscription>)
    requires Parsed(b) && i < |b.subscriptions| && SubscriptionsUpTo(t, b, env, u, i, now)
    ensures Kept(t.subscriptions, now, b.subscriptions[i].key)
  {
  }

  predicate SamePlace(c: Subscription, d: Subscription) {
    c.eventType == d.eventType && c.destinationId == d.destinationId
  }

  /** New subscriptions have their event type and destination to themselves. */
  ghost predicate OwnPlaces(t: Target, now: map<Key, Subscription>) {
    forall j, k :: j in now && k in now && j !in t.subscriptions && j != k ==> !SamePlace(now[j], now[k])
  }

  /** The write of one key leaves its place as it is, or takes one that is free. */
  predicate OwnPlace(before: map<Key, Subscription>, after: map<Key, Subscription>, key: Key) {
    if key in before then key in after && SamePlace(after[key], before[key])
    else key in after ==> forall k :: k in before ==> !SamePlace(after[key], before[k])
  }

  lemma OwnPlaceStep(t: Target, before: map<Key, Subscription>, after: map<Key, Subscription>, key: Key)
    requires OwnPlaces(t, before) && OwnPlace(before, after, key)
    requires forall k :: k != key ==> Kept(before, after, k)
    ensures OwnPlaces(t, after)
  {
    forall k | k != key
      ensures k in after <==> k in before
      ensures k in before ==> after[k] == before[k]
    {
      assert Kept(before, after, k);
    }
  }

  lemma SubscriptionStops(t: Target, b: Bundle, env: Environment, u: Target, n: nat, now: map<Key, Subscription>)
    requires ValidTarget(t) && Parsed(b) && n < |b.subscriptions|
    requires NewIds(t, u.destinations) && SubscriptionsUpTo(t, b, env, u, n, now)
    requires SubscriptionAction(t, b, env, b.subscriptions[n]) == Create
    requires Occupied(u, now, b.subscriptions[n])
    ensures !SubscriptionsFit(t, b, env)
  {
    SubscriptionDecided(t, b, env, b.subscriptions[n], Create);
    var s := b.subscriptions[n];
    var k :| k in now && now[k].eventType == s.eventType && now[k].destinationId == u.destinations[s.destination].id;
    OccupiedWasTaken(t, b, env, u, n, now, k);
  }

  lemma SubscriptionsGo(t: Target, b: Bundle, env: Environment, u: Target, after: map<Key, Subscription>)
    requires ValidTarget(t) && Parsed(b) && NewIds(t, u.destinations)
    requires SubscriptionsUpTo(t, b, env, u, |b.subscriptions|, after) && OwnPlaces(t, after)
    ensures SubscriptionsFit(t, b, env)
  {
    forall i | 0 <= i < |b.subscriptions| && SubscriptionIs(t, b, env, b.subscriptions[i], Create)
      ensures !Taken(t, b, env, i)
    {
      CreatedOccupies(t, b, env, u, |b.subscriptions|, after, i);
      if Taken(t, b, env, i) {
        PlaceIsShared(t, b, env, u, i, after);
      }
    }
  }

  /** A place that was taken has two subscriptions after a write regardless. */
  lemma PlaceIsShared(t: Target, b: Bundle, env: Environment, u: Target, i: nat, after: map<Key, Subscription>)
    requires ValidTarget(t) && Parsed(b) && i < |b.subscriptions| && NewIds(t, u.destinations)
    requires SubscriptionsUpTo(t, b, env, u, |b.subscriptions|, after)
    requires SubscriptionIs(t, b, env, b.subscriptions[i], Create) && Taken(t, b, env, i)
    ensures !OwnPlaces(t, after)
  {
    var s := b.subscriptions[i];
    CreatedOccupies(t, b, env, u, |b.subscriptions|, after, i);
    if j :| 0 <= j < i && SubscriptionIs(t, b, env, b.subscriptions[j], Create)
            && b.subscriptions[j].eventType == s.eventType
            && SameDestination(t, b.subscriptions[j].destination, s.destination) {
      CreatedOccupies(t, b, env, u, |b.subscriptions|, after, j);
      SameIds(t, u, b.subscriptions[j].destination, s.destination);
      assert SamePlace(after[s.key], after[b.subscriptions[j].key]) && b.subscriptions[j].key != s.key;
    } else {
      assert s.destination in t.destinations;
      var k :| k in t.subscriptions && t.subscriptions[k].eventType == s.eventType
               && t.subscriptions[k].destinationId == t.destinations[s.destination].id;
      StoredOccupies(t, b, env, u, |b.subscriptions|, after, k);
      assert SamePlace(after[s.key], after[k]) && k != s.key;
    }
  }
}
