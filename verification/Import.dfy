/** Plan and apply over the mutable target, and the convergence of a second plan. */
module Import {
  import opened Domain
  import opened Portability
  import opened Decisions
  import J = Canonical

  // ---------------------------------------------------------------- the target after an apply

  ghost predicate Kept<V(!new)>(before: map<Key, V>, after: map<Key, V>, k: Key) {
    (k in before <==> k in after) && (k in before ==> after[k] == before[k])
  }

  /** An update cannot take a description away: an absent one leaves the old one in place. */
  predicate PartnerAfter(t: Target, p: BundlePartner, after: Partner) {
    match PartnerAction(t, p)
    case Create =>
      after.id >= t.next && after == Partner(after.id, p.name, p.description, p.enabled, 1)
    case Update =>
      var c := t.partners[p.key];
      after == Partner(c.id, p.name, if p.description.Some? then p.description else c.description,
                       p.enabled, c.version + 1)
    case _ => p.key in t.partners && after == t.partners[p.key]
  }

  /** The first `n` partners are done. */
  ghost predicate PartnersUpTo(t: Target, ps: seq<BundlePartner>, n: nat, after: map<Key, Partner>)
    requires n <= |ps|
  {
    && (forall i :: 0 <= i < n ==> ps[i].key in after && PartnerAfter(t, ps[i], after[ps[i].key]))
    && (forall k :: (forall i :: 0 <= i < n ==> ps[i].key != k) ==> Kept(t.partners, after, k))
  }

  ghost predicate PartnersAfter(t: Target, ps: seq<BundlePartner>, after: map<Key, Partner>) {
    PartnersUpTo(t, ps, |ps|, after)
  }

  ghost predicate TransformationAfter(
    t: Target, key: Key, vs: seq<BundleVersion>, after: map<Key, Transformation>)
  {
    var m := Missing(t, key, vs);
    if m == [] then Kept(t.transformations, after, key)
    else
      && key in after
      && after[key].versions == Numbered(Versions(t, key), Latest(Versions(t, key)), m)
      && (if key in t.transformations then after[key].id == t.transformations[key].id else after[key].id >= t.next)
  }

  ghost predicate TransformationsUpTo(
    t: Target, ts: seq<BundleTransformation>, n: nat, after: map<Key, Transformation>)
    requires n <= |ts|
  {
    && (forall i :: 0 <= i < n ==> TransformationAfter(t, ts[i].key, ts[i].versions, after))
    && (forall k :: (forall i :: 0 <= i < n ==> ts[i].key != k) ==> Kept(t.transformations, after, k))
  }

  ghost predicate TransformationsAfter(t: Target, ts: seq<BundleTransformation>, after: map<Key, Transformation>) {
    TransformationsUpTo(t, ts, |ts|, after)
  }

  /** A destination as written: everything from the bundle, its parents by identifier. */
  predicate WrittenAs(u: Target, d: BundleDestination, c: Destination) {
    && d.partner in u.partners && c.partnerId == u.partners[d.partner].id
    && d.transformation in u.transformations && c.transformationId == u.transformations[d.transformation].id
    && SameConfiguration(c, d)
  }

  ghost predicate DestinationAfter(
    t: Target, b: Bundle, env: Environment, u: Target, d: BundleDestination, after: map<Key, Destination>)
  {
    if Changes(DestinationAction(t, b, env, d)) then
      && d.key in after && WrittenAs(u, d, after[d.key])
      && (if d.key in t.destinations
          then after[d.key].id == t.destinations[d.key].id && after[d.key].version == t.destinations[d.key].version + 1
          else after[d.key].version == 1)
    else Kept(t.destinations, after, d.key)
  }

  ghost predicate DestinationsUpTo(
    t: Target, b: Bundle, env: Environment, u: Target, n: nat, after: map<Key, Destination>)
    requires n <= |b.destinations|
  {
    && (forall i :: 0 <= i < n ==> DestinationAfter(t, b, env, u, b.destinations[i], after))
    && (forall k :: (forall i :: 0 <= i < n ==> b.destinations[i].key != k) ==> Kept(t.destinations, after, k))
  }

  ghost predicate SubscriptionAfter(
    t: Target, b: Bundle, env: Environment, u: Target, s: BundleSubscription, after: map<Key, Subscription>)
  {
    if Changes(SubscriptionAction(t, b, env, s)) then
      && s.key in after && after[s.key].enabled == s.enabled
      && (if s.key in t.subscriptions then
            && after[s.key].eventType == t.subscriptions[s.key].eventType
            && after[s.key].destinationId == t.subscriptions[s.key].destinationId
            && after[s.key].version == t.subscriptions[s.key].version + 1
          else
            && after[s.key].version == 1
            && s.destination in u.destinations
            && after[s.key].destinationId == u.destinations[s.destination].id
            && after[s.key].eventType == s.eventType)
    else Kept(t.subscriptions, after, s.key)
  }

  ghost predicate SubscriptionsUpTo(
    t: Target, b: Bundle, env: Environment, u: Target, n: nat, after: map<Key, Subscription>)
    requires n <= |b.subscriptions|
  {
    && (forall i :: 0 <= i < n ==> SubscriptionAfter(t, b, env, u, b.subscriptions[i], after))
    && (forall k :: (forall i :: 0 <= i < n ==> b.subscriptions[i].key != k) ==> Kept(t.subscriptions, after, k))
  }

  /** The target `u` that a successful apply makes of `t`. */
  ghost predicate Applied(t: Target, b: Bundle, env: Environment, u: Target) {
    && PartnersAfter(t, b.partners, u.partners)
    && TransformationsAfter(t, b.transformations, u.transformations)
    && DestinationsUpTo(t, b, env, u, |b.destinations|, u.destinations)
    && SubscriptionsUpTo(t, b, env, u, |b.subscriptions|, u.subscriptions)
  }

  // ---------------------------------------------------------------- the exact condition

  predicate DropsDescription(t: Target, p: BundlePartner) {
    p.key in t.partners && t.partners[p.key].description.Some? && p.description.None?
  }

  /** No partner of the bundle drops a description that the target has. */
  ghost predicate KeepsDescriptions(t: Target, b: Bundle) {
    forall i :: 0 <= i < |b.partners| ==> !DropsDescription(t, b.partners[i])
  }

  /** The missing versions of every transformation come directly after the latest one. */
  ghost predicate VersionsFollow(t: Target, b: Bundle) {
    forall i :: 0 <= i < |b.transformations| ==>
      Follows(Latest(Versions(t, b.transformations[i].key)),
              Missing(t, b.transformations[i].key, b.transformations[i].versions))
  }

  predicate Follows(latest: nat, m: seq<BundleVersion>) {
    forall v :: v in m ==> latest < v.version <= latest + |m|
  }

  /** A destination that is left unchanged names a transformation that exists already, unless its
      partner is new as well or the bundle itself contradicts the version it wants. */
  ghost predicate TransformationsKnown(t: Target, b: Bundle, env: Environment) {
    forall i :: 0 <= i < |b.destinations| ==> TransformationKnown(t, b, env, b.destinations[i])
  }

  predicate TransformationKnown(t: Target, b: Bundle, env: Environment, d: BundleDestination) {
    DestinationAction(t, b, env, d) == Unchanged && d.partner in t.partners
    ==> d.transformation in t.transformations || BlocksItself(b, d)
  }

  /** A transformation that is created from the bundle gets the bundle's n-th definition as its version n.
      That can differ from what the bundle lists as version n: when it lists a version twice, or skips one. */
  predicate BlocksItself(b: Bundle, d: BundleDestination) {
    exists i, j :: 0 <= i < |b.transformations| && 0 <= j < |b.transformations[i].versions|
                   && b.transformations[i].key == d.transformation
                   && b.transformations[i].versions[j].version == d.activeVersion
                   && DisplacedBy(b.transformations[i].versions, b.transformations[i].versions[j])
  }

  /** The definition that is created under the number of `v` is not the one of `v`. */
  predicate DisplacedBy(vs: seq<BundleVersion>, v: BundleVersion) {
    1 <= v.version <= |vs| && J.Stable(vs[v.version - 1].definition) != J.Stable(v.definition)
  }

  // ---------------------------------------------------------------- convergence, resource by resource

  lemma PartnerSettles(t: Target, p: BundlePartner, u: Target)
    requires p.key in u.partners && PartnerAfter(t, p, u.partners[p.key])
    ensures Changes(PartnerAction(u, p)) <==> DropsDescription(t, p)
  {
  }

  lemma {:induction false} MissingIs(t: Target, key: Key, vs: seq<BundleVersion>, v: BundleVersion)
    ensures v in Missing(t, key, vs) <==> v in vs && VersionAction(t, key, v) == Create
  {
    if vs != [] {
      MissingIs(t, key, vs[..|vs| - 1], v);
      assert vs == vs[..|vs| - 1] + [vs[|vs| - 1]];
    }
  }

  /** Stored versions stay, and of the missing ones the numbers after the latest come to exist. */
  lemma VersionsAre(t: Target, key: Key, vs: seq<BundleVersion>, u: Target)
    requires TransformationAfter(t, key, vs, u.transformations)
    ensures forall n :: n in Versions(u, key) <==>
              n in Versions(t, key)
              || Latest(Versions(t, key)) < n <= Latest(Versions(t, key)) + |Missing(t, key, vs)|
    ensures forall n :: n in Versions(t, key) ==> Versions(u, key)[n] == Versions(t, key)[n]
  {
    NumberedIs(Versions(t, key), Latest(Versions(t, key)), Missing(t, key, vs));
  }

  lemma VersionSettles(t: Target, key: Key, vs: seq<BundleVersion>, u: Target, v: BundleVersion)
    requires TransformationAfter(t, key, vs, u.transformations) && v in vs
    ensures Changes(VersionAction(u, key, v)) <==>
              v in Missing(t, key, vs)
              && !(Latest(Versions(t, key)) < v.version <= Latest(Versions(t, key)) + |Missing(t, key, vs)|)
    ensures VersionAction(t, key, v) == Conflict ==> VersionAction(u, key, v) == Conflict
  {
    VersionsAre(t, key, vs, u);
    MissingIs(t, key, vs, v);
    CreateMeansAbsent(t, key, v);
    CreateMeansAbsent(u, key, v);
  }

  lemma CreateMeansAbsent(t: Target, key: Key, v: BundleVersion)
    ensures Changes(VersionAction(t, key, v)) <==> v.version !in Versions(t, key)
  {
  }

  lemma ParentConflictStays(t: Target, b: Bundle, u: Target, d: BundleDestination)
    requires TransformationsAfter(t, b.transformations, u.transformations) && ParentConflict(t, b, d)
    ensures ParentConflict(u, b, d)
  {
    var i, j :| 0 <= i < |b.transformations| && 0 <= j < |b.transformations[i].versions|
                && b.transformations[i].key == d.transformation
                && b.transformations[i].versions[j].version == d.activeVersion
                && VersionAction(t, d.transformation, b.transformations[i].versions[j]) == Conflict;
    VersionSettles(t, d.transformation, b.transformations[i].versions, u, b.transformations[i].versions[j]);
  }

  lemma PartnerIdStays(t: Target, b: Bundle, u: Target, k: Key)
    requires PartnersAfter(t, b.partners, u.partners) && k in t.partners
    ensures k in u.partners && u.partners[k].id == t.partners[k].id
  {
    if i :| 0 <= i < |b.partners| && b.partners[i].key == k {
      assert PartnerAfter(t, b.partners[i], u.partners[k]);
    } else {
      assert Kept(t.partners, u.partners, k);
    }
  }

  lemma TransformationIdStays(t: Target, b: Bundle, u: Target, k: Key)
    requires TransformationsAfter(t, b.transformations, u.transformations) && k in t.transformations
    ensures k in u.transformations && u.transformations[k].id == t.transformations[k].id
  {
    if i :| 0 <= i < |b.transformations| && b.transformations[i].key == k {
      assert TransformationAfter(t, k, b.transformations[i].versions, u.transformations);
    } else {
      assert Kept(t.transformations, u.transformations, k);
    }
  }

  /** What is blocked or in conflict stays so. */
  lemma HeldStays(t: Target, b: Bundle, env: Environment, u: Target, d: BundleDestination)
    requires Applied(t, b, env, u) && d in b.destinations
    requires DestinationAction(t, b, env, d) in {Blocked, Conflict}
    ensures DestinationAction(u, b, env, d) in {Blocked, Conflict}
  {
    assert DestinationAfter(t, b, env, u, d, u.destinations);
    if ParentConflict(t, b, d) {
      ParentConflictStays(t, b, u, d);
    } else if DestinationAction(t, b, env, d) == Conflict && d.partner in t.partners {
      PartnerIdStays(t, b, u, d.partner);
    }
  }

  /** A destination that has been written needs no second write. */
  lemma WrittenSettles(u: Target, b: Bundle, env: Environment, d: BundleDestination)
    requires d.key in u.destinations && WrittenAs(u, d, u.destinations[d.key])
    ensures !Changes(DestinationAction(u, b, env, d))
  {
  }

  /** Nor does one that matched and still has the same parents. */
  lemma UnchangedSettles(t: Target, b: Bundle, env: Environment, u: Target, d: BundleDestination)
    requires DestinationAction(t, b, env, d) == Unchanged && Kept(t.destinations, u.destinations, d.key)
    requires d.transformation in t.transformations && d.transformation in u.transformations
    requires u.transformations[d.transformation].id == t.transformations[d.transformation].id
    ensures !Changes(DestinationAction(u, b, env, d))
  {
  }

  /** What a transformation that the target did not have is created as. */
  lemma CreatedAs(t: Target, b: Bundle, u: Target, i: nat, v: BundleVersion)
    requires TransformationsAfter(t, b.transformations, u.transformations) && i < |b.transformations|
    requires b.transformations[i].key !in t.transformations && v in b.transformations[i].versions
    ensures VersionAction(u, b.transformations[i].key, v) == Conflict
            <==> DisplacedBy(b.transformations[i].versions, v)
  {
    var key, vs := b.transformations[i].key, b.transformations[i].versions;
    AllMissing(t, key, vs);
    assert TransformationAfter(t, key, vs, u.transformations);
    assert Versions(t, key) == map[] && Latest(map[]) == 0;
    NumberedIs(map[], 0, vs);
    if 1 <= v.version <= |vs| {
      NumberedAt(map[], 0, vs, v.version - 1);
    }
  }

  /** A destination of a new transformation is blocked afterwards if and only if the bundle blocks it. */
  lemma NewParentConflict(t: Target, b: Bundle, u: Target, d: BundleDestination)
    requires TransformationsAfter(t, b.transformations, u.transformations) && d.transformation !in t.transformations
    ensures ParentConflict(u, b, d) <==> BlocksItself(b, d)
  {
    forall i, j | 0 <= i < |b.transformations| && 0 <= j < |b.transformations[i].versions|
                  && b.transformations[i].key == d.transformation
      ensures VersionAction(u, d.transformation, b.transformations[i].versions[j]) == Conflict
              <==> DisplacedBy(b.transformations[i].versions, b.transformations[i].versions[j])
    {
      CreatedAs(t, b, u, i, b.transformations[i].versions[j]);
    }
  }

  lemma DestinationSettles(t: Target, b: Bundle, env: Environment, u: Target, d: BundleDestination)
    requires ValidTarget(t) && Resolved(b)
    requires Applied(t, b, env, u) && d in b.destinations && TransformationKnown(t, b, env, d)
    ensures !Changes(DestinationAction(u, b, env, d))
  {
    var action := DestinationAction(t, b, env, d);
    if action == Blocked || action == Conflict {
      HeldStays(t, b, env, u, d);
    } else {
      assert DestinationAfter(t, b, env, u, d, u.destinations);
      if action != Unchanged {
        WrittenSettles(u, b, env, d);
      } else if d.transformation in t.transformations {
        TransformationIdStays(t, b, u, d.transformation);
        UnchangedSettles(t, b, env, u, d);
      } else if BlocksItself(b, d) {
        NewParentConflict(t, b, u, d);
      } else {
        NewPartnerConflicts(t, b, env, u, d);
      }
    }
  }

  /** A destination that is left alone while its partner and its transformation are new. */
  lemma NewPartnerConflicts(t: Target, b: Bundle, env: Environment, u: Target, d: BundleDestination)
    requires Applied(t, b, env, u) && d in b.destinations
    requires ValidTarget(t) && Resolved(b)
    requires DestinationAction(t, b, env, d) == Unchanged && d.partner !in t.partners
    ensures DestinationAction(u, b, env, d) in {Blocked, Conflict}
  {
    var i :| 0 <= i < |b.destinations| && b.destinations[i] == d;
    assert ParentsResolve(b, b.destinations[i]);
    var j :| 0 <= j < |b.partners| && b.partners[j].key == b.destinations[i].partner;
    assert PartnerAfter(t, b.partners[j], u.partners[d.partner]);
    assert DestinationAfter(t, b, env, u, d, u.destinations);
  }

  lemma FindUnique(b: Bundle, d: BundleDestination)
    requires Parsed(b) && d in b.destinations
    ensures FindDestination(b.destinations, d.key) == Some(d)
  {
    var f := FindDestination(b.destinations, d.key).value;
    var i :| 0 <= i < |b.destinations| && b.destinations[i] == d;
    var j :| 0 <= j < |b.destinations| && b.destinations[j] == f;
  }

  /** The destination of a subscription that is not held back exists after the apply. */
  lemma DependencyExists(t: Target, b: Bundle, env: Environment, u: Target, s: BundleSubscription)
    returns (d: BundleDestination)
    requires Parsed(b) && Resolved(b) && Applied(t, b, env, u) && s in b.subscriptions
    ensures d in b.destinations && d.key == s.destination
    ensures Held(t, b, env, s) <==> DestinationAction(t, b, env, d) in {Blocked, Conflict}
    ensures Held(u, b, env, s) <==> DestinationAction(u, b, env, d) in {Blocked, Conflict}
    ensures d.key in t.destinations ==> d.key in u.destinations && u.destinations[d.key].id == t.destinations[d.key].id
  {
    var i :| 0 <= i < |b.subscriptions| && b.subscriptions[i] == s;
    assert DestinationResolves(b, b.subscriptions[i]);
    var j :| 0 <= j < |b.destinations| && b.destinations[j].key == b.subscriptions[i].destination;
    d := b.destinations[j];
    FindUnique(b, d);
    assert DestinationAfter(t, b, env, u, d, u.destinations);
  }

  /** A subscription that is not held back, with the identifiers of its destination before and after. */
  lemma SubscriptionStands(t: Target, b: Bundle, env: Environment, u: Target, s: BundleSubscription)
    requires SubscriptionAfter(t, b, env, u, s, u.subscriptions) && !Held(t, b, env, s)
    requires s.destination in t.destinations ==>
               s.destination in u.destinations && u.destinations[s.destination].id == t.destinations[s.destination].id
    ensures !Changes(SubscriptionAction(u, b, env, s))
  {
    if !Held(u, b, env, s) && s.key in t.subscriptions {
      var c, c' := t.subscriptions[s.key], u.subscriptions[s.key];
      assert c'.destinationId == c.destinationId && c'.eventType == c.eventType;
    }
  }

  lemma SubscriptionSettles(t: Target, b: Bundle, env: Environment, u: Target, s: BundleSubscription)
    requires Parsed(b) && Resolved(b) && Applied(t, b, env, u) && s in b.subscriptions
    ensures !Changes(SubscriptionAction(u, b, env, s))
  {
    var d := DependencyExists(t, b, env, u, s);
    if Held(t, b, env, s) {
      HeldStays(t, b, env, u, d);
    } else {
      assert SubscriptionAfter(t, b, env, u, s, u.subscriptions);
      SubscriptionStands(t, b, env, u, s);
    }
  }

  /** Sufficient: nothing is left to create or update after a successful apply. */
  lemma Converges(t: Target, b: Bundle, env: Environment, u: Target)
    requires ValidTarget(t) && Parsed(b) && Resolved(b) && Applied(t, b, env, u)
    requires KeepsDescriptions(t, b) && VersionsFollow(t, b) && TransformationsKnown(t, b, env)
    ensures NothingToDo(u, b, env)
  {
    forall i | 0 <= i < |b.partners| ensures !Changes(PartnerAction(u, b.partners[i])) {
      PartnerSettles(t, b.partners[i], u);
    }
    forall i, j | 0 <= i < |b.transformations| && 0 <= j < |b.transformations[i].versions|
      ensures !Changes(VersionAction(u, b.transformations[i].key, b.transformations[i].versions[j]))
    {
      VersionSettles(t, b.transformations[i].key, b.transformations[i].versions, u, b.transformations[i].versions[j]);
    }
    forall i | 0 <= i < |b.destinations| ensures !Changes(DestinationAction(u, b, env, b.destinations[i])) {
      DestinationSettles(t, b, env, u, b.destinations[i]);
    }
    forall i | 0 <= i < |b.subscriptions| ensures !Changes(SubscriptionAction(u, b, env, b.subscriptions[i])) {
      SubscriptionSettles(t, b, env, u, b.subscriptions[i]);
    }
  }

  // ---------------------------------------------------------------- necessity

  /** Versions ascend strictly: parsing sorts them, and no version is listed twice. */
  predicate Ascending(vs: seq<BundleVersion>) {
    forall i, j :: 0 <= i < j < |vs| ==> vs[i].version < vs[j].version
  }

  ghost predicate VersionsAscend(b: Bundle) {
    forall i :: 0 <= i < |b.transformations| ==> Ascending(b.transformations[i].versions)
  }

  /** An absent transformation misses all versions of the bundle. */
  lemma {:induction false} AllMissing(t: Target, key: Key, vs: seq<BundleVersion>)
    requires key !in t.transformations
    ensures Missing(t, key, vs) == vs
  {
    if vs != [] {
      AllMissing(t, key, vs[..|vs| - 1]);
      assert vs == vs[..|vs| - 1] + [vs[|vs| - 1]];
    }
  }

  lemma {:induction false} ConsecutiveFrom(latest: nat, vs: seq<BundleVersion>, i: nat)
    requires Ascending(vs) && i < |vs| && forall v :: v in vs ==> latest < v.version
    ensures vs[i].version >= latest + i + 1
  {
    if i > 0 {
      ConsecutiveFrom(latest, vs, i - 1);
    }
  }

  lemma {:induction false} ConsecutiveTo(latest: nat, vs: seq<BundleVersion>, i: nat)
    requires Ascending(vs) && i < |vs| && forall v :: v in vs ==> v.version <= latest + |vs|
    ensures vs[i].version <= latest + i + 1
    decreases |vs| - i
  {
    if i < |vs| - 1 {
      ConsecutiveTo(latest, vs, i + 1);
    }
  }

  /** Ascending versions that follow `latest` are numbered without a gap. */
  lemma ListedAt(latest: nat, m: seq<BundleVersion>, v: BundleVersion) returns (i: nat)
    requires Ascending(m) && Follows(latest, m) && v in m
    ensures i < |m| && m[i] == v && v.version == latest + i + 1
  {
    i :| 0 <= i < |m| && m[i] == v;
    ConsecutiveFrom(latest, m, i);
    ConsecutiveTo(latest, m, i);
  }

  /** A missing version that follows without a gap is stored under its own number. */
  lemma StoredAsListed(base: map<nat, J.Json>, m: seq<BundleVersion>, v: BundleVersion)
    requires Ascending(m) && Follows(Latest(base), m) && v in m
    ensures v.version in Numbered(base, Latest(base), m)
    ensures Numbered(base, Latest(base), m)[v.version] == v.definition
  {
    var i := ListedAt(Latest(base), m, v);
    NumberedAt(base, Latest(base), m, i);
  }

  lemma InTurnNotDisplaced(vs: seq<BundleVersion>, v: BundleVersion)
    requires Ascending(vs) && Follows(0, vs) && v in vs
    ensures !DisplacedBy(vs, v)
  {
    var n := ListedAt(0, vs, v);
  }

  lemma NewFollows(t: Target, b: Bundle, i: nat)
    requires VersionsFollow(t, b) && i < |b.transformations| && b.transformations[i].key !in t.transformations
    ensures Follows(0, b.transformations[i].versions)
  {
    AllMissing(t, b.transformations[i].key, b.transformations[i].versions);
    assert Versions(t, b.transformations[i].key) == map[] && Latest(map[]) == 0;
  }

  /** A bundle that lists every version once, and no version out of turn, does not block itself. */
  lemma ListedOnceNeverBlocks(t: Target, b: Bundle, d: BundleDestination)
    requires VersionsAscend(b) && VersionsFollow(t, b) && d.transformation !in t.transformations
    ensures !BlocksItself(b, d)
  {
    forall i, j | 0 <= i < |b.transformations| && 0 <= j < |b.transformations[i].versions|
                  && b.transformations[i].key == d.transformation
      ensures !DisplacedBy(b.transformations[i].versions, b.transformations[i].versions[j])
    {
      NewFollows(t, b, i);
      InTurnNotDisplaced(b.transformations[i].versions, b.transformations[i].versions[j]);
    }
  }

  lemma NewTransformation(t: Target, b: Bundle, u: Target, d: BundleDestination)
    requires Parsed(b) && Resolved(b) && TransformationsAfter(t, b.transformations, u.transformations)
    requires d in b.destinations && d.transformation !in t.transformations
    ensures d.transformation in u.transformations && u.transformations[d.transformation].id >= t.next
  {
    var i :| 0 <= i < |b.destinations| && b.destinations[i] == d;
    var j :| 0 <= j < |b.transformations| && b.transformations[j].key == b.destinations[i].transformation;
    AllMissing(t, d.transformation, b.transformations[j].versions);
    assert TransformationAfter(t, d.transformation, b.transformations[j].versions, u.transformations);
  }

  /** An unchanged destination whose transformation is new is updated by the second apply. */
  lemma NewTransformationUpdates(t: Target, b: Bundle, env: Environment, u: Target, d: BundleDestination)
    requires ValidTarget(t) && Parsed(b) && Resolved(b) && Applied(t, b, env, u) && d in b.destinations
    requires !TransformationKnown(t, b, env, d)
    ensures DestinationAction(u, b, env, d) == Update
  {
    NewParentConflict(t, b, u, d);
    PartnerIdStays(t, b, u, d.partner);
    NewTransformation(t, b, u, d);
    assert DestinationAfter(t, b, env, u, d, u.destinations);
  }

  lemma FollowsFromPlan(t: Target, b: Bundle, env: Environment, u: Target)
    requires Applied(t, b, env, u) && NothingToDo(u, b, env)
    ensures VersionsFollow(t, b)
  {
    forall i, v | 0 <= i < |b.transformations|
                  && v in Missing(t, b.transformations[i].key, b.transformations[i].versions)
      ensures Latest(Versions(t, b.transformations[i].key)) < v.version
              <= Latest(Versions(t, b.transformations[i].key))
                 + |Missing(t, b.transformations[i].key, b.transformations[i].versions)|
    {
      var key, vs := b.transformations[i].key, b.transformations[i].versions;
      MissingIs(t, key, vs, v);
      var j :| 0 <= j < |vs| && vs[j] == v;
      VersionSettles(t, key, vs, u, v);
    }
  }

  /** Exact: after a successful apply a second plan has no CREATE and no UPDATE if and only if no partner
      drops a description, the missing versions follow the latest one, and unchanged destinations of known
      partners name known transformations, unless the bundle contradicts itself about their version. */
  lemma ConvergesExactly(t: Target, b: Bundle, env: Environment, u: Target)
    requires ValidTarget(t) && Parsed(b) && Resolved(b) && Applied(t, b, env, u)
    ensures NothingToDo(u, b, env)
            <==> KeepsDescriptions(t, b) && VersionsFollow(t, b) && TransformationsKnown(t, b, env)
  {
    if NothingToDo(u, b, env) {
      forall i | 0 <= i < |b.partners| ensures !DropsDescription(t, b.partners[i]) {
        PartnerSettles(t, b.partners[i], u);
      }
      FollowsFromPlan(t, b, env, u);
      forall i | 0 <= i < |b.destinations| ensures TransformationKnown(t, b, env, b.destinations[i]) {
        if !TransformationKnown(t, b, env, b.destinations[i]) {
          NewTransformationUpdates(t, b, env, u, b.destinations[i]);
        }
      }
    } else if KeepsDescriptions(t, b) && VersionsFollow(t, b) && TransformationsKnown(t, b, env) {
      Converges(t, b, env, u);
    }
  }

  /** For a bundle that lists every version once the exception cannot occur. */
  lemma ConvergesWhenListedOnce(t: Target, b: Bundle, env: Environment, u: Target)
    requires ValidTarget(t) && Parsed(b) && Resolved(b) && VersionsAscend(b) && Applied(t, b, env, u)
    ensures NothingToDo(u, b, env)
            <==> && KeepsDescriptions(t, b) && VersionsFollow(t, b)
                 && forall i :: 0 <= i < |b.destinations|
                                && DestinationAction(t, b, env, b.destinations[i]) == Unchanged
                                && b.destinations[i].partner in t.partners
                                ==> b.destinations[i].transformation in t.transformations
  {
    ConvergesExactly(t, b, env, u);
    if VersionsFollow(t, b) {
      forall i | 0 <= i < |b.destinations| && b.destinations[i].transformation !in t.transformations
        ensures !BlocksItself(b, b.destinations[i])
      {
        ListedOnceNeverBlocks(t, b, b.destinations[i]);
      }
      assert forall i :: 0 <= i < |b.destinations| ==>
          (TransformationKnown(t, b, env, b.destinations[i])
           <==> (DestinationAction(t, b, env, b.destinations[i]) == Unchanged
                 && b.destinations[i].partner in t.partners
                 ==> b.destinations[i].transformation in t.transformations));
    }
  }

  // ---------------------------------------------------------------- what the bundle asks for is reached

  /** Every partner of the bundle is as the bundle says, but for a description it drops. */
  lemma PartnerReached(t: Target, b: Bundle, env: Environment, u: Target, p: BundlePartner)
    requires Applied(t, b, env, u) && p in b.partners
    ensures p.key in u.partners && u.partners[p.key].name == p.name && u.partners[p.key].enabled == p.enabled
    ensures u.partners[p.key].description
            == if DropsDescription(t, p) then t.partners[p.key].description else p.description
  {
    assert PartnerAfter(t, p, u.partners[p.key]);
  }

  lemma {:induction false} MissingAscends(t: Target, key: Key, vs: seq<BundleVersion>)
    requires Ascending(vs)
    ensures Ascending(Missing(t, key, vs))
  {
    if vs != [] {
      var init, last := vs[..|vs| - 1], vs[|vs| - 1];
      MissingAscends(t, key, init);
      forall i | 0 <= i < |Missing(t, key, init)| ensures Missing(t, key, init)[i].version < last.version {
        MissingIs(t, key, init, Missing(t, key, init)[i]);
      }
    }
  }

  /** Stored versions stay as they were, missing ones are created with the bundle's definition, provided
      they follow the latest one. */
  lemma VersionReached(t: Target, key: Key, vs: seq<BundleVersion>, u: Target, v: BundleVersion)
    requires TransformationAfter(t, key, vs, u.transformations) && Ascending(vs) && v in vs
    requires Follows(Latest(Versions(t, key)), Missing(t, key, vs))
    ensures v.version in Versions(u, key)
    ensures Versions(u, key)[v.version]
            == if v.version in Versions(t, key) then Versions(t, key)[v.version] else v.definition
  {
    MissingIs(t, key, vs, v);
    CreateMeansAbsent(t, key, v);
    if v.version in Versions(t, key) {
      VersionsAre(t, key, vs, u);
    } else {
      MissingAscends(t, key, vs);
      StoredAsListed(Versions(t, key), Missing(t, key, vs), v);
    }
  }

  /** Why an import leaves a destination alone although it differs. */
  ghost predicate RefusesDestination(t: Target, b: Bundle, env: Environment, d: BundleDestination) {
    MustWait(t, b, env, d) || OtherIdentity(t, d)
  }

  /** A destination ends up with every field as the bundle has it, unless it is refused, and then it is
      untouched. Its parents are the named ones if they were there before or the destination was not. */
  lemma DestinationReached(t: Target, b: Bundle, env: Environment, u: Target, d: BundleDestination)
    requires Applied(t, b, env, u) && d in b.destinations
    ensures RefusesDestination(t, b, env, d) ==> Kept(t.destinations, u.destinations, d.key)
    ensures !RefusesDestination(t, b, env, d) ==>
              && d.key in u.destinations
              && u.destinations[d.key].enabled == d.enabled && u.destinations[d.key].authType == d.authType
              && u.destinations[d.key].alias == d.alias && u.destinations[d.key].activeVersion == d.activeVersion
              && J.Stable(u.destinations[d.key].settings) == J.Stable(d.settings)
              && (d.key in t.destinations ==> u.destinations[d.key].id == t.destinations[d.key].id)
    ensures !RefusesDestination(t, b, env, d)
            && (d.key in t.destinations ==> d.partner in t.partners && d.transformation in t.transformations)
            ==> && d.partner in u.partners && u.destinations[d.key].partnerId == u.partners[d.partner].id
                && d.transformation in u.transformations
                && u.destinations[d.key].transformationId == u.transformations[d.transformation].id
  {
    assert DestinationAfter(t, b, env, u, d, u.destinations);
    DestinationDecided(t, b, env, d, DestinationAction(t, b, env, d));
    if d.partner in t.partners {
      PartnerIdStays(t, b, u, d.partner);
    }
    if d.transformation in t.transformations {
      TransformationIdStays(t, b, u, d.transformation);
    }
  }

  /** A subscription that exists for another destination or another event type. */
  predicate RefusesSubscription(t: Target, s: BundleSubscription) {
    s.key in t.subscriptions
    && (t.subscriptions[s.key].eventType != s.eventType
        || (s.destination in t.destinations
            && t.subscriptions[s.key].destinationId != t.destinations[s.destination].id))
  }

  /** A subscription is held back exactly when its destination is refused. */
  lemma HeldIsRefused(t: Target, b: Bundle, env: Environment, s: BundleSubscription)
    requires FindDestination(b.destinations, s.destination).Some?
    ensures Held(t, b, env, s)
            <==> RefusesDestination(t, b, env, FindDestination(b.destinations, s.destination).value)
  {
    var d := FindDestination(b.destinations, s.destination).value;
    DestinationDecided(t, b, env, d, DestinationAction(t, b, env, d));
  }

  /** A subscription ends up as the bundle says, unless its destination is refused or it is itself. */
  lemma SubscriptionReached(
    t: Target, b: Bundle, env: Environment, u: Target, s: BundleSubscription, d: BundleDestination)
    requires Parsed(b) && Resolved(b) && Applied(t, b, env, u) && s in b.subscriptions
    requires d in b.destinations && d.key == s.destination
    ensures RefusesDestination(t, b, env, d) || RefusesSubscription(t, s) ==>
              Kept(t.subscriptions, u.subscriptions, s.key)
    ensures !RefusesDestination(t, b, env, d) && !RefusesSubscription(t, s) ==>
              && s.key in u.subscriptions
              && u.subscriptions[s.key].enabled == s.enabled && u.subscriptions[s.key].eventType == s.eventType
              && (s.key !in t.subscriptions || s.destination in t.destinations ==>
                    s.destination in u.destinations
                    && u.subscriptions[s.key].destinationId == u.destinations[s.destination].id)
  {
    assert SubscriptionAfter(t, b, env, u, s, u.subscriptions);
    var found := DependencyExists(t, b, env, u, s);
    FindUnique(b, d);
    HeldIsRefused(t, b, env, s);
  }

  // ---------------------------------------------------------------- contiguous versions

  /** Bundle versions 1..n and target versions 1..m. */
  ghost predicate Contiguous(t: Target, bt: BundleTransformation) {
    && (forall i :: 0 <= i < |bt.versions| ==> bt.versions[i].version == i + 1)
    && (forall n :: n in Versions(t, bt.key) <==> 1 <= n <= Latest(Versions(t, bt.key)))
  }

  lemma {:induction false} ContiguousMissing(t: Target, key: Key, vs: seq<BundleVersion>)
    requires forall i :: 0 <= i < |vs| ==> vs[i].version == i + 1
    requires forall n :: n in Versions(t, key) <==> 1 <= n <= Latest(Versions(t, key))
    ensures |Missing(t, key, vs)| == (if |vs| > Latest(Versions(t, key)) then |vs| - Latest(Versions(t, key)) else 0)
  {
    if vs != [] {
      ContiguousMissing(t, key, vs[..|vs| - 1]);
      CreateMeansAbsent(t, key, vs[|vs| - 1]);
    }
  }

  /** Versions that run contiguously from 1 in bundle and target follow each other. */
  lemma ContiguousFollow(t: Target, b: Bundle)
    requires forall i :: 0 <= i < |b.transformations| ==> Contiguous(t, b.transformations[i])
    ensures VersionsFollow(t, b)
  {
    forall i, v | 0 <= i < |b.transformations|
                  && v in Missing(t, b.transformations[i].key, b.transformations[i].versions)
      ensures Latest(Versions(t, b.transformations[i].key)) < v.version
              <= Latest(Versions(t, b.transformations[i].key))
                 + |Missing(t, b.transformations[i].key, b.transformations[i].versions)|
    {
      var key, vs := b.transformations[i].key, b.transformations[i].versions;
      ContiguousMissing(t, key, vs);
      MissingIs(t, key, vs, v);
      CreateMeansAbsent(t, key, v);
    }
  }

  /** Resources that the bundle does not name are left as they are, and so are stored versions. */
  lemma Untouched(t: Target, b: Bundle, env: Environment, u: Target, k: Key)
    requires Applied(t, b, env, u)
    ensures (forall i :: 0 <= i < |b.partners| ==> b.partners[i].key != k) ==> Kept(t.partners, u.partners, k)
    ensures (forall i :: 0 <= i < |b.transformations| ==> b.transformations[i].key != k)
            ==> Kept(t.transformations, u.transformations, k)
    ensures (forall i :: 0 <= i < |b.destinations| ==> b.destinations[i].key != k)
            ==> Kept(t.destinations, u.destinations, k)
    ensures (forall i :: 0 <= i < |b.subscriptions| ==> b.subscriptions[i].key != k)
            ==> Kept(t.subscriptions, u.subscriptions, k)
    ensures forall n :: n in Versions(t, k) ==> n in Versions(u, k) && Versions(u, k)[n] == Versions(t, k)[n]
  {
    if i :| 0 <= i < |b.transformations| && b.transformations[i].key == k {
      VersionsAre(t, k, b.transformations[i].versions, u);
    } else {
      assert Kept(t.transformations, u.transformations, k);
    }
  }
}
