/** The portability service over the mutable control plane: `plan` collects its items in loops, `apply`
    changes the target phase by phase. Both are proved against the functions and relations of Portability,
    PlanListing and Import. */
module ControlPlane {
  import opened Domain
  import opened Portability
  import opened PlanListing
  import opened Decisions
  import opened Import
  import opened Applicability
  import J = Canonical

  /** `latestVersion` of a transformation with its versions. */
  method LatestVersion(versions: map<nat, J.Json>) returns (n: nat)
    ensures n == Latest(versions)
  {
    n := 0;
    var left := versions.Keys;
    while left != {}
      invariant left <= versions.Keys
      invariant forall v :: v in versions && v !in left ==> v <= n
      invariant n in versions || n == 0
      invariant left != versions.Keys ==> n in versions
      decreases |left|
    {
      var v :| v in left;
      left := left - {v};
      if v > n || n !in versions {
        n := v;
      }
    }
    if versions != map[] {
      assert versions.Keys != {} by { var k :| k in versions; }
      LatestIs(versions, n);
    }
  }

  lemma NextVersion(base: map<nat, J.Json>, m: seq<BundleVersion>, v: BundleVersion)
    requires base != map[] || m != []
    ensures Latest(Numbered(base, Latest(base), m)) == Latest(base) + |m|
    ensures Numbered(base, Latest(base), m)[Latest(base) + |m| + 1 := v.definition]
            == Numbered(base, Latest(base), m + [v])
  {
    NumberedIs(base, Latest(base), m);
    assert (m + [v])[..|m|] == m;
    LatestIs(Numbered(base, Latest(base), m), Latest(base) + |m|);
  }

  class Service {
    var partners: map<Key, Partner>
    var transformations: map<Key, Transformation>
    var destinations: map<Key, Destination>
    var subscriptions: map<Key, Subscription>
    var next: nat

    constructor ()
      ensures ValidTarget(State()) && State() == Target(map[], map[], map[], map[], 0)
    {
      partners, transformations, destinations, subscriptions, next := map[], map[], map[], map[], 0;
    }

    function State(): Target
      reads this
    {
      Target(partners, transformations, destinations, subscriptions, next)
    }

    /** `plan` on a bundle whose references resolve. */
    method Plan(b: Bundle, env: Environment) returns (items: seq<PlanItem>)
      requires Parsed(b)
      ensures items == PlanItems(State(), b, env) && PlanTells(State(), b, env, items)
    {
      var t := State();
      ItemsTell(t, b, env);
      items := PlanPartners(t, b.partners);
      var versions := PlanTransformations(t, b.transformations);
      items := items + versions;
      var actions: map<Key, Action>;
      items, actions := PlanDestinations(t, b, env, items);
      var subscriptionItems := PlanSubscriptions(t, b, env, actions);
      items := items + subscriptionItems;
    }

    // -------------------------------------------------------------- apply

    method CreatePartner(p: BundlePartner) returns (ok: bool)
      modifies this`partners, this`next
      ensures ok ==> p.key !in old(partners) && next == old(next) + 1
                     && partners == old(partners)[p.key := Partner(old(next), p.name, p.description, p.enabled, 1)]
      ensures !ok ==> partners == old(partners) && next == old(next)
      ensures ok <==> |old(partners)| < MAX_PARTNERS && p.key !in old(partners)
    {
      if |partners| >= MAX_PARTNERS || p.key in partners {
        return false;
      }
      partners := partners[p.key := Partner(next, p.name, p.description, p.enabled, 1)];
      next := next + 1;
      return true;
    }

    method UpdatePartner(p: BundlePartner)
      requires p.key in partners
      modifies this`partners
      ensures partners == old(partners)[p.key := Updated(old(partners)[p.key], p)]
    {
      var c := partners[p.key];
      c := c.(name := p.name, enabled := p.enabled, version := c.version + 1);
      if p.description.Some? {
        c := c.(description := p.description);
      }
      partners := partners[p.key := c];
    }

    method ApplyPartner(p: BundlePartner, entry: Action, ghost t: Target) returns (ok: bool)
      requires ValidTarget(State()) && next >= t.next && Kept(t.partners, partners, p.key)
      requires entry == PartnerAction(t, p)
      modifies this`partners, this`next
      ensures ValidTarget(State()) && next >= t.next
      ensures KeptBut(old(partners), partners, p.key)
      ensures ok ==> p.key in partners && PartnerAfter(t, p, partners[p.key])
      ensures !ok ==> partners == old(partners) && p.key !in partners && |partners| >= MAX_PARTNERS
      ensures partners.Keys == old(partners).Keys || |partners| <= MAX_PARTNERS
    {
      ok := true;
      if entry == Create {
        ok := CreatePartner(p);
      } else if entry == Update {
        UpdatePartner(p);
      }
    }

    /** The first phase. Whether it succeeds or stops half-way, only partners of the bundle change. */
    method ApplyPartners(b: Bundle, items: seq<PlanItem>, ghost env: Environment) returns (ok: bool, ghost n: nat)
      requires ValidTarget(State()) && Parsed(b) && items == PlanItems(State(), b, env)
      modifies this`partners, this`next
      ensures ValidTarget(State()) && next >= old(next)
      ensures n <= |b.partners| && PartnersUpTo(old(State()), b.partners, n, partners)
      ensures ok ==> n == |b.partners|
      ensures ok <==> Fits(old(partners).Keys, PartnerKeys(b), MAX_PARTNERS)
    {
      ghost var t := State();
      for i := 0 to |b.partners|
        invariant ValidTarget(State()) && next >= t.next
        invariant PartnersUpTo(t, b.partners, i, partners)
        invariant partners.Keys == t.partners.Keys || |partners| <= MAX_PARTNERS
      {
        ghost var before := partners;
        PlannedPartner(t, b, env, i);
        var entry := Planned(items, PartnerRef(b.partners[i].key)).value;
        ok := ApplyPartner(b.partners[i], entry, t);
        if !ok {
          PartnerTooMany(t, b, i, partners);
          return false, i;
        }
        PartnersStep(t, b, i, before, partners);
      }
      PartnerKeysAre(t, b, |b.partners|, partners);
      KeysFit(t.partners.Keys, partners, PartnerKeys(b), MAX_PARTNERS);
      return true, |b.partners|;
    }

    /** A new version gets the next number of its transformation, which is created if it is absent. */
    method CreateVersion(key: Key, definition: J.Json)
      requires ValidTarget(State())
      modifies this`transformations, this`next
      ensures ValidTarget(State()) && next >= old(next) && KeptBut(old(transformations), transformations, key)
      ensures key !in old(transformations) ==>
                next == old(next) + 1
                && transformations == old(transformations)[key := Transformation(old(next), map[1 := definition])]
      ensures key in old(transformations) ==>
                var c := old(transformations)[key];
                next == old(next)
                && transformations
                   == old(transformations)[key := c.(versions := c.versions[Latest(c.versions) + 1 := definition])]
    {
      if key !in transformations {
        transformations := transformations[key := Transformation(next, map[1 := definition])];
        assert 1 in transformations[key].versions;
        next := next + 1;
      } else {
        var c := transformations[key];
        var latest := LatestVersion(c.versions);
        transformations := transformations[key := c.(versions := c.versions[latest + 1 := definition])];
        assert latest + 1 in transformations[key].versions;
      }
    }

    method ApplyVersion(
      key: Key, ghost vs: seq<BundleVersion>, v: BundleVersion, entry: Action, ghost t: Target)
      requires ValidTarget(State()) && next >= t.next && ValidTarget(t)
      requires TransformationAfter(t, key, vs, transformations)
      requires entry == Create <==> VersionAction(t, key, v) == Create
      modifies this`transformations, this`next
      ensures ValidTarget(State()) && next >= t.next
      ensures KeptBut(old(transformations), transformations, key)
      ensures TransformationAfter(t, key, vs + [v], transformations)
    {
      assert (vs + [v])[..|vs|] == vs;
      if entry == Create {
        VersionsStep(t, key, vs, v, transformations);
        ghost var before := transformations;
        CreateVersion(key, v.definition);
        VersionAdded(t, key, vs, v, before, transformations);
      }
    }

    /** The inner loop of the second phase. */
    method ApplyVersions(b: Bundle, i: nat, items: seq<PlanItem>, ghost env: Environment, ghost t: Target)
      requires ValidTarget(State()) && next >= t.next && ValidTarget(t) && Parsed(b) && items == PlanItems(t, b, env)
      requires i < |b.transformations| && Kept(t.transformations, transformations, b.transformations[i].key)
      modifies this`transformations, this`next
      ensures ValidTarget(State()) && next >= t.next
      ensures KeptBut(old(transformations), transformations, b.transformations[i].key)
      ensures TransformationAfter(t, b.transformations[i].key, b.transformations[i].versions, transformations)
    {
      var key, vs := b.transformations[i].key, b.transformations[i].versions;
      ghost var first := transformations;
      for j := 0 to |vs|
        invariant ValidTarget(State()) && next >= t.next
        invariant KeptBut(first, transformations, key)
        invariant TransformationAfter(t, key, vs[..j], transformations)
      {
        PlannedVersion(t, b, env, i, j);
        var entry := Planned(items, VersionRef(key, vs[j].version)).value;
        assert vs[..j + 1] == vs[..j] + [vs[j]];
        ghost var before := transformations;
        ApplyVersion(key, vs[..j], vs[j], entry, t);
        KeptFurther(first, before, transformations, key);
      }
      assert vs[..|vs|] == vs;
    }

    method ApplyTransformations(b: Bundle, items: seq<PlanItem>, ghost env: Environment, ghost t: Target)
      requires ValidTarget(State()) && next >= t.next && ValidTarget(t) && Parsed(b) && items == PlanItems(t, b, env)
      requires transformations == t.transformations
      modifies this`transformations, this`next
      ensures ValidTarget(State()) && next >= t.next
      ensures TransformationsAfter(t, b.transformations, transformations)
    {
      for i := 0 to |b.transformations|
        invariant ValidTarget(State()) && next >= t.next
        invariant TransformationsUpTo(t, b.transformations, i, transformations)
      {
        ghost var before := transformations;
        ApplyVersions(b, i, items, env, t);
        TransformationsStep(t, b, i, before, transformations);
      }
    }

    /** createDestinationFromAlias and updateDestination, as the import uses them. */
    method WriteDestination(d: BundleDestination, env: Environment) returns (ok: bool)
      requires ValidTarget(State())
      modifies this`destinations, this`next
      ensures ValidTarget(State()) && next >= old(next) && KeptBut(old(destinations), destinations, d.key)
      ensures !ok ==> destinations == old(destinations)
      ensures ok ==> d.key in destinations && WrittenAs(State(), d, destinations[d.key])
      ensures ok && d.key in old(destinations) ==>
                && destinations[d.key].id == old(destinations)[d.key].id
                && destinations[d.key].version == old(destinations)[d.key].version + 1
      ensures ok && d.key !in old(destinations) ==>
                destinations[d.key].id == old(next) && destinations[d.key].version == 1
      ensures ok <==> && d.partner in partners && d.transformation in transformations && d.key !in env.refused
                      && (d.key in old(destinations) || |old(destinations)| < MAX_DESTINATIONS)
      ensures destinations.Keys == old(destinations).Keys || |destinations| <= MAX_DESTINATIONS
    {
      if d.partner !in partners || d.transformation !in transformations || d.key in env.refused {
        return false;
      }
      var partnerId, transformationId := partners[d.partner].id, transformations[d.transformation].id;
      if d.key in destinations {
        var c := destinations[d.key];
        destinations := destinations[d.key := Destination(
          c.id, partnerId, transformationId, d.activeVersion, d.enabled, d.authType, d.alias, d.settings, c.version + 1)];
      } else if |destinations| >= MAX_DESTINATIONS {
        return false;
      } else {
        destinations := destinations[d.key := Destination(
          next, partnerId, transformationId, d.activeVersion, d.enabled, d.authType, d.alias, d.settings, 1)];
        next := next + 1;
      }
      return true;
    }

    /** One round of the third phase; `u` is the target before it. */
    method ApplyDestination(b: Bundle, i: nat, entry: Action, env: Environment, ghost t: Target, ghost u: Target)
      returns (ok: bool)
      requires ValidTarget(State()) && i < |b.destinations| && next >= u.next
      requires partners == u.partners && transformations == u.transformations
      requires b.destinations[i].partner in partners && b.destinations[i].transformation in transformations
      requires Kept(t.destinations, destinations, b.destinations[i].key)
      requires entry == DestinationAction(t, b, env, b.destinations[i])
      modifies this`destinations, this`next
      ensures ValidTarget(State()) && next >= old(next)
      ensures KeptBut(old(destinations), destinations, b.destinations[i].key)
      ensures ok ==> DestinationAfter(t, b, env, u, b.destinations[i], destinations)
      ensures b.destinations[i].key in env.refused ==> destinations == old(destinations)
      ensures !ok ==> destinations == old(destinations) && Changes(entry)
                      && DestinationRefused(b.destinations[i], env, destinations)
      ensures OwnId(old(destinations), destinations, b.destinations[i].key, old(next))
      ensures destinations.Keys == old(destinations).Keys || |destinations| <= MAX_DESTINATIONS
    {
      ok := true;
      if entry == Create || entry == Update {
        ok := WriteDestination(b.destinations[i], env);
      }
    }

    /** The next round of the third phase. */
    method NextDestination(b: Bundle, i: nat, items: seq<PlanItem>, env: Environment, ghost t: Target, ghost u: Target)
      returns (ok: bool)
      requires ValidTarget(State()) && Parsed(b) && items == PlanItems(t, b, env) && i < |b.destinations|
      requires partners == u.partners && transformations == u.transformations && next >= u.next >= t.next
      requires b.destinations[i].partner in partners && b.destinations[i].transformation in transformations
      requires DestinationsUpTo(t, b, env, u, i, destinations)
      requires NewIds(t, destinations) && NoneRefused(t, env, destinations)
      modifies this`destinations, this`next
      ensures ValidTarget(State()) && next >= old(next)
      ensures DestinationsUpTo(t, b, env, u, if ok then i + 1 else i, destinations)
      ensures NewIds(t, destinations) && NoneRefused(t, env, destinations)
      ensures !ok ==> Changes(DestinationAction(t, b, env, b.destinations[i]))
                      && DestinationRefused(b.destinations[i], env, destinations)
      ensures destinations.Keys == old(destinations).Keys || |destinations| <= MAX_DESTINATIONS
    {
      ghost var before, bound := destinations, next;
      PlannedDestination(t, b, env, i);
      var entry := Planned(items, DestinationRef(b.destinations[i].key)).value;
      TurnIsKept(t, b, env, u, i, destinations);
      ok := ApplyDestination(b, i, entry, env, t, u);
      if ok {
        DestinationsRound(t, b, env, u, i, before, destinations, bound);
      }
    }

    /** The third phase. */
    method ApplyDestinations(b: Bundle, items: seq<PlanItem>, env: Environment, ghost t: Target)
      returns (ok: bool, ghost n: nat)
      requires ValidTarget(State()) && Parsed(b) && items == PlanItems(t, b, env)
      requires destinations == t.destinations && next >= t.next
      requires forall i :: 0 <= i < |b.destinations| ==>
                 b.destinations[i].partner in partners && b.destinations[i].transformation in transformations
      modifies this`destinations, this`next
      ensures ValidTarget(State()) && next >= old(next)
      ensures n <= |b.destinations| && DestinationsUpTo(t, b, env, old(State()), n, destinations)
      ensures NewIds(t, destinations)
      ensures ok ==> n == |b.destinations| && NoneRefused(t, env, destinations)
                     && (destinations.Keys == t.destinations.Keys || |destinations| <= MAX_DESTINATIONS)
      ensures !ok ==> n < |b.destinations| && Changes(DestinationAction(t, b, env, b.destinations[n]))
                      && DestinationRefused(b.destinations[n], env, destinations)
    {
      ghost var u := State();
      for i := 0 to |b.destinations|
        invariant ValidTarget(State()) && next >= u.next
        invariant DestinationsUpTo(t, b, env, u, i, destinations)
        invariant NewIds(t, destinations) && NoneRefused(t, env, destinations)
        invariant destinations.Keys == t.destinations.Keys || |destinations| <= MAX_DESTINATIONS
      {
        ok := NextDestination(b, i, items, env, t, u);
        if !ok {
          return false, i;
        }
      }
      return true, |b.destinations|;
    }

    method WriteSubscription(s: BundleSubscription) returns (ok: bool)
      requires ValidTarget(State())
      modifies this`subscriptions, this`next
      ensures ValidTarget(State()) && next >= old(next) && KeptBut(old(subscriptions), subscriptions, s.key)
      ensures !ok ==> subscriptions == old(subscriptions)
      ensures ok ==>
                && s.key in subscriptions && s.destination in destinations
                && subscriptions[s.key]
                   == if s.key in old(subscriptions)
                      then old(subscriptions)[s.key].(enabled := s.enabled, version := old(subscriptions)[s.key].version + 1)
                      else Subscription(old(next), destinations[s.destination].id, s.eventType, s.enabled, 1)
      ensures s.destination in destinations ==>
                (ok <==> s.key in old(subscriptions) || !Occupied(State(), old(subscriptions), s))
    {
      if s.destination !in destinations {
        return false;
      }
      if s.key in subscriptions {
        var c := subscriptions[s.key];
        subscriptions := subscriptions[s.key := c.(enabled := s.enabled, version := c.version + 1)];
        return true;
      }
      var id := destinations[s.destination].id;
      if exists k :: k in subscriptions && subscriptions[k].eventType == s.eventType && subscriptions[k].destinationId == id {
        return false;
      }
      subscriptions := subscriptions[s.key := Subscription(next, id, s.eventType, s.enabled, 1)];
      next := next + 1;
      return true;
    }

    /** One round of the fourth phase; `u` is the target before it. */
    method ApplySubscription(b: Bundle, i: nat, entry: Action, ghost env: Environment, ghost t: Target, ghost u: Target)
      returns (ok: bool)
      requires ValidTarget(State()) && i < |b.subscriptions| && destinations == u.destinations
      requires Kept(t.subscriptions, subscriptions, b.subscriptions[i].key)
      requires entry == SubscriptionAction(t, b, env, b.subscriptions[i])
      requires Changes(entry) ==> b.subscriptions[i].destination in destinations
      modifies this`subscriptions, this`next
      ensures ValidTarget(State()) && next >= old(next)
      ensures KeptBut(old(subscriptions), subscriptions, b.subscriptions[i].key)
      ensures ok ==> SubscriptionAfter(t, b, env, u, b.subscriptions[i], subscriptions)
      ensures OwnPlace(old(subscriptions), subscriptions, b.subscriptions[i].key)
      ensures !ok ==> subscriptions == old(subscriptions) && entry == Create
                      && Occupied(u, subscriptions, b.subscriptions[i])
    {
      ok := true;
      if entry == Create || entry == Update {
        ok := WriteSubscription(b.subscriptions[i]);
      }
    }

    /** The fourth phase. */
    method ApplySubscriptions(b: Bundle, items: seq<PlanItem>, ghost env: Environment, ghost t: Target)
      returns (ok: bool, ghost n: nat)
      requires ValidTarget(State()) && Parsed(b) && items == PlanItems(t, b, env)
      requires subscriptions == t.subscriptions
      requires forall i :: 0 <= i < |b.subscriptions| && Changes(SubscriptionAction(t, b, env, b.subscriptions[i])) ==>
                 b.subscriptions[i].destination in destinations
      modifies this`subscriptions, this`next
      ensures ValidTarget(State()) && next >= old(next)
      ensures n <= |b.subscriptions| && SubscriptionsUpTo(t, b, env, old(State()), n, subscriptions)
      ensures ok ==> n == |b.subscriptions| && OwnPlaces(t, subscriptions)
      ensures !ok ==> n < |b.subscriptions| && SubscriptionAction(t, b, env, b.subscriptions[n]) == Create
                      && Occupied(old(State()), subscriptions, b.subscriptions[n])
    {
      ghost var u := State();
      for i := 0 to |b.subscriptions|
        invariant ValidTarget(State()) && next >= u.next
        invariant SubscriptionsUpTo(t, b, env, u, i, subscriptions)
        invariant OwnPlaces(t, subscriptions)
      {
        ghost var before := subscriptions;
        PlannedSubscription(t, b, env, i);
        var entry := Planned(items, SubscriptionRef(b.subscriptions[i].key)).value;
        SubscriptionTurn(t, b, env, u, i, subscriptions);
        ok := ApplySubscription(b, i, entry, env, t, u);
        if !ok {
          return false, i;
        }
        OwnPlaceStep(t, before, subscriptions, b.subscriptions[i].key);
        SubscriptionsStep(t, b, env, u, i, before, subscriptions);
      }
      return true, |b.subscriptions|;
    }

    /** The third phase goes through exactly when no destination is too many or refused. */
    method DestinationPhase(b: Bundle, items: seq<PlanItem>, env: Environment, ghost t: Target)
      returns (ok: bool, ghost n: nat)
      requires ValidTarget(State()) && Parsed(b) && Resolved(b) && items == PlanItems(t, b, env)
      requires destinations == t.destinations && next >= t.next
      requires PartnersAfter(t, b.partners, partners) && TransformationsAfter(t, b.transformations, transformations)
      modifies this`destinations, this`next
      ensures ValidTarget(State()) && NewIds(t, destinations)
      ensures n <= |b.destinations| && DestinationsUpTo(t, b, env, State(), n, destinations)
      ensures ok ==> n == |b.destinations|
      ensures ok <==> DestinationsFit(t, b, env)
    {
      ghost var u := State();
      ParentsExist(t, b, u);
      ok, n := ApplyDestinations(b, items, env, t);
      DestinationsReframe(t, b, env, u, State(), n);
      if ok {
        DestinationsGo(t, b, env, u, destinations);
      } else {
        DestinationStops(t, b, env, u, n, destinations);
      }
    }

    /** The fourth phase goes through exactly when no new subscription is taken. */
    method SubscriptionPhase(b: Bundle, items: seq<PlanItem>, ghost env: Environment, ghost t: Target)
      returns (ok: bool, ghost n: nat)
      requires ValidTarget(State()) && ValidTarget(t) && Parsed(b) && Resolved(b) && items == PlanItems(t, b, env)
      requires subscriptions == t.subscriptions && NewIds(t, destinations)
      requires DestinationsUpTo(t, b, env, State(), |b.destinations|, destinations)
      modifies this`subscriptions, this`next
      ensures ValidTarget(State())
      ensures n <= |b.subscriptions| && SubscriptionsUpTo(t, b, env, State(), n, subscriptions)
      ensures ok ==> n == |b.subscriptions|
      ensures ok <==> SubscriptionsFit(t, b, env)
    {
      ghost var u := State();
      DestinationsExist(t, b, env, u);
      ok, n := ApplySubscriptions(b, items, env, t);
      SubscriptionsReframe(t, b, env, u, State(), n);
      if ok {
        SubscriptionsGo(t, b, env, u, subscriptions);
      } else {
        SubscriptionStops(t, b, env, u, n, subscriptions);
      }
    }

    /** The last two phases, after the first two. */
    method ApplyChildren(b: Bundle, items: seq<PlanItem>, env: Environment, ghost t: Target)
      returns (ok: bool, ghost done: Done)
      requires ValidTarget(State()) && ValidTarget(t) && Parsed(b) && Resolved(b) && items == PlanItems(t, b, env)
      requires destinations == t.destinations && subscriptions == t.subscriptions && next >= t.next
      requires PartnersAfter(t, b.partners, partners) && TransformationsAfter(t, b.transformations, transformations)
      modifies this`destinations, this`subscriptions, this`next
      ensures ValidTarget(State()) && ChildrenUpTo(t, b, env, State(), done)
      ensures done.partners == |b.partners| && done.transformations == |b.transformations|
      ensures ok ==> done == AllDone(b)
      ensures ok <==> DestinationsFit(t, b, env) && SubscriptionsFit(t, b, env)
    {
      ghost var u, n;
      ok, n := DestinationPhase(b, items, env, t);
      done := Done(|b.partners|, |b.transformations|, n, 0);
      u := State();
      NoSubscriptions(t, b, env, u, done);
      if ok {
        ok, n := SubscriptionPhase(b, items, env, t);
        ChildrenReframe(t, b, env, u, State(), done, n);
        done := done.(subscriptions := n);
      }
    }

    /** The same, with what the first two have done. */
    method ApplyRest(b: Bundle, items: seq<PlanItem>, env: Environment, ghost t: Target)
      returns (ok: bool, ghost done: Done)
      requires ValidTarget(State()) && ValidTarget(t) && Parsed(b) && Resolved(b) && items == PlanItems(t, b, env)
      requires destinations == t.destinations && subscriptions == t.subscriptions && next >= t.next
      requires ParentsUpTo(t, b, State(), Done(|b.partners|, |b.transformations|, 0, 0))
      modifies this`destinations, this`subscriptions, this`next
      ensures ValidTarget(State()) && ParentsUpTo(t, b, State(), done) && ChildrenUpTo(t, b, env, State(), done)
      ensures ok ==> done == AllDone(b)
      ensures ok <==> DestinationsFit(t, b, env) && SubscriptionsFit(t, b, env)
    {
      ok, done := ApplyChildren(b, items, env, t);
    }

    /** The first two phases. */
    method ApplyParents(b: Bundle, items: seq<PlanItem>, env: Environment) returns (ok: bool, ghost done: Done)
      requires ValidTarget(State()) && Parsed(b) && items == PlanItems(State(), b, env)
      modifies this`partners, this`transformations, this`next
      ensures ValidTarget(State()) && next >= old(next)
      ensures ParentsUpTo(old(State()), b, State(), done) && done.destinations == done.subscriptions == 0
      ensures ok ==> done == Done(|b.partners|, |b.transformations|, 0, 0)
      ensures ok <==> Fits(old(partners).Keys, PartnerKeys(b), MAX_PARTNERS)
    {
      ghost var t, n := State(), 0;
      ok, n := ApplyPartners(b, items, env);
      done := Done(n, 0, 0, 0);
      if ok {
        ApplyTransformations(b, items, env, t);
        done := done.(transformations := |b.transformations|);
      }
    }

    /** The four phases; what has been done is counted. */
    method ApplyPhases(b: Bundle, items: seq<PlanItem>, env: Environment) returns (ok: bool, ghost done: Done)
      requires ValidTarget(State()) && Parsed(b) && Resolved(b) && items == PlanItems(State(), b, env)
      modifies this
      ensures ValidTarget(State()) && ParentsUpTo(old(State()), b, State(), done)
      ensures ChildrenUpTo(old(State()), b, env, State(), done)
      ensures ok ==> done == AllDone(b)
      ensures ok <==> && Fits(old(partners).Keys, PartnerKeys(b), MAX_PARTNERS)
                      && DestinationsFit(old(State()), b, env) && SubscriptionsFit(old(State()), b, env)
    {
      ghost var t := State();
      ok, done := ApplyParents(b, items, env);
      NoneWritten(t, b, env, State(), done);
      if ok {
        ok, done := ApplyRest(b, items, env, t);
      }
    }

    /** `apply`: plans again, then goes through the phases and stops at the first error. Success makes the
        target what `Applied` says, and comes exactly for an applicable bundle; nothing outside the bundle
        changes in any case, and a bundle with unresolved references changes nothing at all. */
    method Apply(b: Bundle, env: Environment) returns (ok: bool)
      requires ValidTarget(State()) && Parsed(b)
      modifies this
      ensures ValidTarget(State())
      ensures ok ==> Applied(old(State()), b, env, State())
      ensures ok <==> Applicable(old(State()), b, env)
      ensures !RefersWithin(b) ==> State() == old(State())
      ensures OnlyNamed(old(State()), b, State())
    {
      if !Resolved(b) {
        if RefersWithin(b) {
          WithinIsResolved(b);
        }
        return false;
      }
      ResolvedIsWithin(b);
      var items := Plan(b, env);
      ghost var t := State();
      ghost var done;
      ok, done := ApplyPhases(b, items, env);
      ProgressIsNamed(t, b, env, State(), done);
    }
  }

  method PlanPartners(t: Target, ps: seq<BundlePartner>) returns (items: seq<PlanItem>)
    ensures items == PartnerItems(t, ps)
  {
    items := [];
    for i := 0 to |ps|
      invariant items == PartnerItems(t, ps[..i])
    {
      assert ps[..i + 1][..i] == ps[..i];
      items := items + [PlanItem(PartnerRef(ps[i].key), PartnerAction(t, ps[i]))];
    }
    assert ps[..|ps|] == ps;
  }

  method PlanTransformations(t: Target, ts: seq<BundleTransformation>) returns (items: seq<PlanItem>)
    ensures items == TransformationItems(t, ts)
  {
    items := [];
    for i := 0 to |ts|
      invariant items == TransformationItems(t, ts[..i])
    {
      assert ts[..i + 1][..i] == ts[..i];
      var versions := PlanVersions(t, ts[i].key, ts[i].versions);
      items := items + versions;
    }
    assert ts[..|ts|] == ts;
  }

  /** The loop over destinations looks for conflicts among the items pushed so far. */
  method PlanDestinations(t: Target, b: Bundle, env: Environment, before: seq<PlanItem>)
    returns (items: seq<PlanItem>, actions: map<Key, Action>)
    requires Parsed(b) && before == PartnerItems(t, b.partners) + TransformationItems(t, b.transformations)
    ensures items == before + DestinationItems(t, b, env, b.destinations)
    ensures actions == ActionsOf(t, b, env, b.destinations)
  {
    var ds := b.destinations;
    items, actions := before, map[];
    for i := 0 to |ds|
      invariant items == before + DestinationItems(t, b, env, ds[..i])
      invariant actions == ActionsOf(t, b, env, ds[..i])
    {
      ConflictInItems(t, b, env, ds[..i], ds[i]);
      assert ds[..i + 1][..i] == ds[..i];
      var conflict := PlanItem(VersionRef(ds[i].transformation, ds[i].activeVersion), Conflict) in items;
      var action := DestinationDecision(t, env, ds[i], conflict);
      actions := actions[ds[i].key := action];
      items := items + [PlanItem(DestinationRef(ds[i].key), action)];
    }
    assert ds[..|ds|] == ds;
  }

  method PlanSubscriptions(t: Target, b: Bundle, env: Environment, actions: map<Key, Action>)
    returns (items: seq<PlanItem>)
    requires Parsed(b) && actions == ActionsOf(t, b, env, b.destinations)
    ensures items == SubscriptionItems(t, b, env, b.subscriptions)
  {
    var ss := b.subscriptions;
    items := [];
    for i := 0 to |ss|
      invariant items == SubscriptionItems(t, b, env, ss[..i])
    {
      assert ss[..i + 1][..i] == ss[..i];
      WaitsIsHeld(t, b, env, ss[i]);
      var held := ss[i].destination in actions && actions[ss[i].destination] in {Blocked, Conflict};
      items := items + [PlanItem(SubscriptionRef(ss[i].key), SubscriptionDecision(t, ss[i], held))];
    }
    assert ss[..|ss|] == ss;
  }

  method PlanVersions(t: Target, key: Key, vs: seq<BundleVersion>) returns (items: seq<PlanItem>)
    ensures items == VersionItems(t, key, vs)
  {
    items := [];
    for j := 0 to |vs|
      invariant items == VersionItems(t, key, vs[..j])
    {
      assert vs[..j + 1][..j] == vs[..j];
      items := items + [PlanItem(VersionRef(key, vs[j].version), VersionAction(t, key, vs[j]))];
    }
    assert vs[..|vs|] == vs;
  }

  /** `destinationAction`: what has been planned for each destination so far. */
  function ActionsOf(t: Target, b: Bundle, env: Environment, ds: seq<BundleDestination>): map<Key, Action> {
    if ds == [] then map[]
    else
      var d := ds[|ds| - 1];
      ActionsOf(t, b, env, ds[..|ds| - 1])[d.key := DestinationAction(t, b, env, d)]
  }

  predicate UniqueKeys(ds: seq<BundleDestination>) {
    forall i, j :: 0 <= i < j < |ds| ==> ds[i].key != ds[j].key
  }

  lemma {:induction false} ActionsAre(t: Target, b: Bundle, env: Environment, ds: seq<BundleDestination>, key: Key)
    requires UniqueKeys(ds)
    ensures var d := FindDestination(ds, key);
            if d.None? then key !in ActionsOf(t, b, env, ds)
            else key in ActionsOf(t, b, env, ds) && ActionsOf(t, b, env, ds)[key] == DestinationAction(t, b, env, d.value)
  {
    if ds != [] {
      var init, last := ds[..|ds| - 1], ds[|ds| - 1];
      ActionsAre(t, b, env, init, key);
      FindInPrefix(init, last, key);
      assert ds == init + [last];
    }
  }

  lemma {:induction false} FindInPrefix(init: seq<BundleDestination>, last: BundleDestination, key: Key)
    ensures FindDestination(init + [last], key)
            == if FindDestination(init, key).Some? then FindDestination(init, key)
               else if last.key == key then Some(last) else None
  {
    if init == [] {
      assert (init + [last])[1..] == [];
    } else {
      assert (init + [last])[1..] == init[1..] + [last];
      FindInPrefix(init[1..], last, key);
    }
  }

  lemma WaitsIsHeld(t: Target, b: Bundle, env: Environment, s: BundleSubscription)
    requires Parsed(b)
    ensures var actions := ActionsOf(t, b, env, b.destinations);
            Held(t, b, env, s) <==> s.destination in actions && actions[s.destination] in {Blocked, Conflict}
  {
    ActionsAre(t, b, env, b.destinations, s.destination);
  }

  // ---------------------------------------------------------------- the phases of apply

  /** Only the entry of one key has changed. */
  ghost predicate KeptBut<V(!new)>(before: map<Key, V>, after: map<Key, V>, key: Key) {
    forall k :: k != key ==> Kept(before, after, k)
  }

  lemma KeptFurther<V(!new)>(first: map<Key, V>, before: map<Key, V>, after: map<Key, V>, key: Key)
    requires KeptBut(first, before, key) && KeptBut(before, after, key)
    ensures KeptBut(first, after, key)
  {
    forall k | k != key ensures Kept(first, after, k) {
      assert Kept(first, before, k) && Kept(before, after, k);
    }
  }

  function Updated(c: Partner, p: BundlePartner): Partner {
    Partner(c.id, p.name, if p.description.Some? then p.description else c.description, p.enabled, c.version + 1)
  }

  lemma PlannedPartner(t: Target, b: Bundle, env: Environment, i: nat)
    requires Parsed(b) && i < |b.partners|
    ensures Planned(PlanItems(t, b, env), PartnerRef(b.partners[i].key)) == Some(PartnerAction(t, b.partners[i]))
  {
    var it := PlanItem(PartnerRef(b.partners[i].key), PartnerAction(t, b.partners[i]));
    PartnerItemIn(t, b.partners, it);
    PlanItemIn(t, b, env, it);
    var found := PlanItem(it.ref, Planned(PlanItems(t, b, env), it.ref).value);
    PlanItemIn(t, b, env, found);
    PartnerItemIn(t, b.partners, found);
  }

  lemma PartnersStep(t: Target, b: Bundle, i: nat, before: map<Key, Partner>, after: map<Key, Partner>)
    requires Parsed(b) && i < |b.partners| && PartnersUpTo(t, b.partners, i, before)
    requires KeptBut(before, after, b.partners[i].key)
    requires b.partners[i].key in after && PartnerAfter(t, b.partners[i], after[b.partners[i].key])
    ensures PartnersUpTo(t, b.partners, i + 1, after)
  {
    forall j | 0 <= j < i ensures b.partners[j].key in after && PartnerAfter(t, b.partners[j], after[b.partners[j].key]) {
      assert Kept(before, after, b.partners[j].key);
    }
    forall k | forall j :: 0 <= j < i + 1 ==> b.partners[j].key != k ensures Kept(t.partners, after, k) {
      assert b.partners[i].key != k;
      assert Kept(t.partners, before, k) && Kept(before, after, k);
    }
  }

  lemma PlannedVersion(t: Target, b: Bundle, env: Environment, i: nat, j: nat)
    requires Parsed(b) && i < |b.transformations| && j < |b.transformations[i].versions|
    ensures var r := Planned(PlanItems(t, b, env), VersionRef(b.transformations[i].key, b.transformations[i].versions[j].version));
            r.Some? && (r == Some(Create) <==> VersionAction(t, b.transformations[i].key, b.transformations[i].versions[j]) == Create)
  {
    var bt, v := b.transformations[i], b.transformations[i].versions[j];
    VersionIsPlanned(t, b, env, i, j);
    var found := PlanItem(VersionRef(bt.key, v.version), Planned(PlanItems(t, b, env), VersionRef(bt.key, v.version)).value);
    PlanItemIn(t, b, env, found);
    TransformationItemIn(t, b.transformations, found);
    var x :| 0 <= x < |b.transformations| && found in VersionItems(t, b.transformations[x].key, b.transformations[x].versions);
    VersionItemIn(t, b.transformations[x].key, b.transformations[x].versions, found);
    var y :| 0 <= y < |b.transformations[x].versions|
             && found == PlanItem(VersionRef(b.transformations[x].key, b.transformations[x].versions[y].version),
                                  VersionAction(t, b.transformations[x].key, b.transformations[x].versions[y]));
    CreateMeansAbsent(t, bt.key, v);
    CreateMeansAbsent(t, bt.key, b.transformations[x].versions[y]);
  }

  /** Where the next missing version goes. */
  lemma VersionsStep(t: Target, key: Key, vs: seq<BundleVersion>, v: BundleVersion, now: map<Key, Transformation>)
    requires ValidTarget(t) && TransformationAfter(t, key, vs, now) && VersionAction(t, key, v) == Create
    ensures Missing(t, key, vs + [v]) == Missing(t, key, vs) + [v]
    ensures key !in now ==>
              key !in t.transformations && Missing(t, key, vs) == []
              && Numbered(map[], 0, [v]) == map[1 := v.definition] && Latest(map[]) == 0
    ensures key in now ==>
              now[key].versions[Latest(now[key].versions) + 1 := v.definition]
              == Numbered(Versions(t, key), Latest(Versions(t, key)), Missing(t, key, vs) + [v])
  {
    assert (vs + [v])[..|vs|] == vs;
    var m, base := Missing(t, key, vs), Versions(t, key);
    if key in now {
      NextVersion(base, m, v);
      assert m == [] ==> now[key].versions == base == Numbered(base, Latest(base), m);
    } else {
      assert [v][..0] == [];
    }
  }

  lemma VersionAdded(
    t: Target, key: Key, vs: seq<BundleVersion>, v: BundleVersion,
    before: map<Key, Transformation>, after: map<Key, Transformation>)
    requires ValidTarget(t) && TransformationAfter(t, key, vs, before) && VersionAction(t, key, v) == Create
    requires key in after
    requires if key in before then
               && after[key].id == before[key].id
               && after[key].versions == before[key].versions[Latest(before[key].versions) + 1 := v.definition]
             else after[key].id >= t.next && after[key].versions == map[1 := v.definition]
    ensures TransformationAfter(t, key, vs + [v], after)
  {
    VersionsStep(t, key, vs, v, before);
  }

  lemma TransformationsStep(
    t: Target, b: Bundle, i: nat, before: map<Key, Transformation>, after: map<Key, Transformation>)
    requires Parsed(b) && i < |b.transformations| && TransformationsUpTo(t, b.transformations, i, before)
    requires KeptBut(before, after, b.transformations[i].key)
    requires TransformationAfter(t, b.transformations[i].key, b.transformations[i].versions, after)
    ensures TransformationsUpTo(t, b.transformations, i + 1, after)
  {
    forall j | 0 <= j < i ensures TransformationAfter(t, b.transformations[j].key, b.transformations[j].versions, after) {
      assert Kept(before, after, b.transformations[j].key);
      assert TransformationAfter(t, b.transformations[j].key, b.transformations[j].versions, before);
    }
    forall k | forall j :: 0 <= j < i + 1 ==> b.transformations[j].key != k ensures Kept(t.transformations, after, k) {
      assert b.transformations[i].key != k;
      assert Kept(t.transformations, before, k) && Kept(before, after, k);
    }
  }

  lemma PlannedDestination(t: Target, b: Bundle, env: Environment, i: nat)
    requires Parsed(b) && i < |b.destinations|
    ensures Planned(PlanItems(t, b, env), DestinationRef(b.destinations[i].key))
            == Some(DestinationAction(t, b, env, b.destinations[i]))
  {
    var it := PlanItem(DestinationRef(b.destinations[i].key), DestinationAction(t, b, env, b.destinations[i]));
    DestinationItemIn(t, b, env, b.destinations, it);
    PlanItemIn(t, b, env, it);
    var found := PlanItem(it.ref, Planned(PlanItems(t, b, env), it.ref).value);
    PlanItemIn(t, b, env, found);
    DestinationItemIn(t, b, env, b.destinations, found);
  }

  lemma PlannedSubscription(t: Target, b: Bundle, env: Environment, i: nat)
    requires Parsed(b) && i < |b.subscriptions|
    ensures Planned(PlanItems(t, b, env), SubscriptionRef(b.subscriptions[i].key))
            == Some(SubscriptionAction(t, b, env, b.subscriptions[i]))
  {
    var it := PlanItem(SubscriptionRef(b.subscriptions[i].key), SubscriptionAction(t, b, env, b.subscriptions[i]));
    SubscriptionItemIn(t, b, env, b.subscriptions, it);
    PlanItemIn(t, b, env, it);
    var found := PlanItem(it.ref, Planned(PlanItems(t, b, env), it.ref).value);
    PlanItemIn(t, b, env, found);
    SubscriptionItemIn(t, b, env, b.subscriptions, found);
  }

  lemma DestinationsStep(
    t: Target, b: Bundle, env: Environment, u: Target, i: nat, before: map<Key, Destination>, after: map<Key, Destination>)
    requires Parsed(b) && i < |b.destinations| && DestinationsUpTo(t, b, env, u, i, before)
    requires KeptBut(before, after, b.destinations[i].key)
    requires Kept(t.destinations, before, b.destinations[i].key) ==>
               DestinationAfter(t, b, env, u, b.destinations[i], after)
    ensures DestinationsUpTo(t, b, env, u, i + 1, after)
  {
    assert Kept(t.destinations, before, b.destinations[i].key);
    forall j | 0 <= j < i ensures DestinationAfter(t, b, env, u, b.destinations[j], after) {
      assert Kept(before, after, b.destinations[j].key);
      assert DestinationAfter(t, b, env, u, b.destinations[j], before);
    }
    forall k | forall j :: 0 <= j < i + 1 ==> b.destinations[j].key != k ensures Kept(t.destinations, after, k) {
      assert b.destinations[i].key != k;
      assert Kept(t.destinations, before, k) && Kept(before, after, k);
    }
  }

  /** All that one round of the third phase keeps. */
  lemma DestinationsRound(
    t: Target, b: Bundle, env: Environment, u: Target, i: nat,
    before: map<Key, Destination>, after: map<Key, Destination>, bound: nat)
    requires Parsed(b) && i < |b.destinations| && DestinationsUpTo(t, b, env, u, i, before)
    requires NewIds(t, before) && bound >= t.next && (forall k :: k in before ==> before[k].id < bound)
    requires NoneRefused(t, env, before) && (b.destinations[i].key in env.refused ==> after == before)
    requires KeptBut(before, after, b.destinations[i].key) && OwnId(before, after, b.destinations[i].key, bound)
    requires DestinationAfter(t, b, env, u, b.destinations[i], after)
    ensures DestinationsUpTo(t, b, env, u, i + 1, after) && NewIds(t, after) && NoneRefused(t, env, after)
  {
    OwnIdStep(t, before, after, b.destinations[i].key, bound);
    RefusedStep(t, env, before, after, b.destinations[i].key);
    DestinationsStep(t, b, env, u, i, before, after);
  }

  lemma SubscriptionsStep(
    t: Target, b: Bundle, env: Environment, u: Target, i: nat, before: map<Key, Subscription>, after: map<Key, Subscription>)
    requires Parsed(b) && i < |b.subscriptions| && SubscriptionsUpTo(t, b, env, u, i, before)
    requires KeptBut(before, after, b.subscriptions[i].key)
    requires Kept(t.subscriptions, before, b.subscriptions[i].key) ==>
               SubscriptionAfter(t, b, env, u, b.subscriptions[i], after)
    ensures SubscriptionsUpTo(t, b, env, u, i + 1, after)
  {
    assert Kept(t.subscriptions, before, b.subscriptions[i].key);
    forall j | 0 <= j < i ensures SubscriptionAfter(t, b, env, u, b.subscriptions[j], after) {
      assert Kept(before, after, b.subscriptions[j].key);
      assert SubscriptionAfter(t, b, env, u, b.subscriptions[j], before);
    }
    forall k | forall j :: 0 <= j < i + 1 ==> b.subscriptions[j].key != k ensures Kept(t.subscriptions, after, k) {
      assert b.subscriptions[i].key != k;
      assert Kept(t.subscriptions, before, k) && Kept(before, after, k);
    }
  }

  // ---------------------------------------------------------------- only what the bundle names

  ghost predicate OnlyNamed(t: Target, b: Bundle, u: Target) {
    && (forall k :: (forall i :: 0 <= i < |b.partners| ==> b.partners[i].key != k) ==> Kept(t.partners, u.partners, k))
    && (forall k :: (forall i :: 0 <= i < |b.transformations| ==> b.transformations[i].key != k)
                    ==> Kept(t.transformations, u.transformations, k))
    && (forall k :: (forall i :: 0 <= i < |b.destinations| ==> b.destinations[i].key != k)
                    ==> Kept(t.destinations, u.destinations, k))
    && (forall k :: (forall i :: 0 <= i < |b.subscriptions| ==> b.subscriptions[i].key != k)
                    ==> Kept(t.subscriptions, u.subscriptions, k))
  }

  /** How many resources of each type have been gone through. */
  datatype Done = Done(partners: nat, transformations: nat, destinations: nat, subscriptions: nat)

  function AllDone(b: Bundle): Done {
    Done(|b.partners|, |b.transformations|, |b.destinations|, |b.subscriptions|)
  }

  ghost predicate ParentsUpTo(t: Target, b: Bundle, u: Target, done: Done) {
    && done.partners <= |b.partners| && PartnersUpTo(t, b.partners, done.partners, u.partners)
    && done.transformations <= |b.transformations|
    && TransformationsUpTo(t, b.transformations, done.transformations, u.transformations)
  }

  ghost predicate ChildrenUpTo(t: Target, b: Bundle, env: Environment, u: Target, done: Done) {
    && done.destinations <= |b.destinations|
    && DestinationsUpTo(t, b, env, u, done.destinations, u.destinations)
    && done.subscriptions <= |b.subscriptions|
    && SubscriptionsUpTo(t, b, env, u, done.subscriptions, u.subscriptions)
  }

  /** Destinations depend on the parents only, subscriptions on the destinations only. */
  lemma DestinationsReframe(t: Target, b: Bundle, env: Environment, u: Target, v: Target, n: nat)
    requires n <= |b.destinations| && DestinationsUpTo(t, b, env, u, n, v.destinations)
    requires u.partners == v.partners && u.transformations == v.transformations
    ensures DestinationsUpTo(t, b, env, v, n, v.destinations)
  {
    forall i | 0 <= i < n ensures DestinationAfter(t, b, env, v, b.destinations[i], v.destinations) {
      assert DestinationAfter(t, b, env, u, b.destinations[i], v.destinations);
    }
  }

  lemma SubscriptionsReframe(t: Target, b: Bundle, env: Environment, u: Target, v: Target, n: nat)
    requires n <= |b.subscriptions| && SubscriptionsUpTo(t, b, env, u, n, v.subscriptions)
    requires u.destinations == v.destinations
    ensures SubscriptionsUpTo(t, b, env, v, n, v.subscriptions)
  {
    forall i | 0 <= i < n ensures SubscriptionAfter(t, b, env, v, b.subscriptions[i], v.subscriptions) {
      assert SubscriptionAfter(t, b, env, u, b.subscriptions[i], v.subscriptions);
    }
  }

  lemma NoneWritten(t: Target, b: Bundle, env: Environment, u: Target, done: Done)
    requires u.destinations == t.destinations && u.subscriptions == t.subscriptions
    requires done.destinations == done.subscriptions == 0
    ensures ChildrenUpTo(t, b, env, u, done)
  {
  }

  lemma NoSubscriptions(t: Target, b: Bundle, env: Environment, u: Target, done: Done)
    requires done.destinations <= |b.destinations| && done.subscriptions == 0
    requires DestinationsUpTo(t, b, env, u, done.destinations, u.destinations) && u.subscriptions == t.subscriptions
    ensures ChildrenUpTo(t, b, env, u, done)
  {
  }

  lemma ChildrenReframe(t: Target, b: Bundle, env: Environment, u: Target, v: Target, done: Done, n: nat)
    requires ChildrenUpTo(t, b, env, u, done) && u.destinations == v.destinations
    requires u.partners == v.partners && u.transformations == v.transformations
    requires n <= |b.subscriptions| && SubscriptionsUpTo(t, b, env, v, n, v.subscriptions)
    ensures ChildrenUpTo(t, b, env, v, done.(subscriptions := n))
  {
    DestinationsReframe(t, b, env, u, v, done.destinations);
  }

  lemma ProgressIsNamed(t: Target, b: Bundle, env: Environment, u: Target, done: Done)
    requires ParentsUpTo(t, b, u, done) && ChildrenUpTo(t, b, env, u, done)
    ensures OnlyNamed(t, b, u)
    ensures done == AllDone(b) ==> Applied(t, b, env, u)
  {
  }

  // ---------------------------------------------------------------- the second plan

  /** After a successful apply, the items of a second plan hold no CREATE and no UPDATE if and only if the
      target and the bundle met the condition of `ConvergesExactly` before. */
  lemma SecondPlan(t: Target, b: Bundle, env: Environment, u: Target)
    requires ValidTarget(t) && Parsed(b) && Resolved(b) && Applied(t, b, env, u)
    ensures (forall it :: it in PlanItems(u, b, env) ==> !Changes(it.action))
            <==> KeepsDescriptions(t, b) && VersionsFollow(t, b) && TransformationsKnown(t, b, env)
  {
    ConvergesExactly(t, b, env, u);
    PlanIsExact(u, b, env);
  }
}
