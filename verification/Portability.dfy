/** Configuration import: the plan that compares a bundle with the target, the four-phase apply, and when a
    second plan finds nothing left to do. */
module Portability {
  import opened Domain
  import J = Canonical

  type Key = string

  // ---------------------------------------------------------------- bundles

  datatype BundlePartner = BundlePartner(key: Key, name: string, description: Option<string>, enabled: bool)
  datatype BundleVersion = BundleVersion(version: nat, definition: J.Json)
  datatype BundleTransformation = BundleTransformation(key: Key, versions: seq<BundleVersion>)

  /** `settings` stands for the fields that are only compared and copied: name, address, policies,
      timeouts, the authentication details and the sensitive paths. */
  datatype BundleDestination = BundleDestination(
    key: Key, partner: Key, transformation: Key, activeVersion: nat,
    enabled: bool, authType: nat, alias: string, settings: J.Json)

  datatype BundleSubscription = BundleSubscription(key: Key, destination: Key, eventType: string, enabled: bool)

  datatype Bundle = Bundle(
    partners: seq<BundlePartner>, transformations: seq<BundleTransformation>,
    destinations: seq<BundleDestination>, subscriptions: seq<BundleSubscription>)

  /** What parsing guarantees: keys are unique within a resource type and transformations have versions. */
  ghost predicate Parsed(b: Bundle) {
    && (forall i, j :: 0 <= i < j < |b.partners| ==> b.partners[i].key != b.partners[j].key)
    && (forall i, j :: 0 <= i < j < |b.transformations| ==> b.transformations[i].key != b.transformations[j].key)
    && (forall i, j :: 0 <= i < j < |b.destinations| ==> b.destinations[i].key != b.destinations[j].key)
    && (forall i, j :: 0 <= i < j < |b.subscriptions| ==> b.subscriptions[i].key != b.subscriptions[j].key)
    && (forall i :: 0 <= i < |b.transformations| ==> b.transformations[i].versions != [])
  }

  predicate Lists(t: BundleTransformation, version: nat) {
    exists i :: 0 <= i < |t.versions| && t.versions[i].version == version
  }

  predicate ParentsResolve(b: Bundle, d: BundleDestination) {
    && (exists j :: 0 <= j < |b.partners| && b.partners[j].key == d.partner)
    && (exists j :: 0 <= j < |b.transformations| && b.transformations[j].key == d.transformation
                    && Lists(b.transformations[j], d.activeVersion))
  }

  predicate DestinationResolves(b: Bundle, s: BundleSubscription) {
    exists j :: 0 <= j < |b.destinations| && b.destinations[j].key == s.destination
  }

  /** `validate`: every reference resolves within the bundle. */
  predicate Resolved(b: Bundle) {
    && (forall i :: 0 <= i < |b.destinations| ==> ParentsResolve(b, b.destinations[i]))
    && (forall i :: 0 <= i < |b.subscriptions| ==> DestinationResolves(b, b.subscriptions[i]))
  }

  // ---------------------------------------------------------------- the target

  datatype Partner = Partner(id: nat, name: string, description: Option<string>, enabled: bool, version: nat)
  datatype Transformation = Transformation(id: nat, versions: map<nat, J.Json>)
  datatype Destination = Destination(
    id: nat, partnerId: nat, transformationId: nat, activeVersion: nat,
    enabled: bool, authType: nat, alias: string, settings: J.Json, version: nat)
  datatype Subscription = Subscription(id: nat, destinationId: nat, eventType: string, enabled: bool, version: nat)

  /** Resources by external key. Identifiers below `next` have been handed out. */
  datatype Target = Target(
    partners: map<Key, Partner>, transformations: map<Key, Transformation>,
    destinations: map<Key, Destination>, subscriptions: map<Key, Subscription>, next: nat)

  ghost predicate ValidTarget(t: Target) {
    && (forall k :: k in t.partners ==> t.partners[k].id < t.next)
    && (forall k :: k in t.transformations ==> t.transformations[k].id < t.next && t.transformations[k].versions != map[])
    && (forall k :: k in t.destinations ==>
          t.destinations[k].id < t.next && t.destinations[k].partnerId < t.next && t.destinations[k].transformationId < t.next)
    && (forall k :: k in t.subscriptions ==> t.subscriptions[k].id < t.next && t.subscriptions[k].destinationId < t.next)
  }

  /** Secret aliases that are bound, and destinations whose address the endpoint check refuses. */
  datatype Environment = Environment(bound: set<string>, refused: set<Key>)

  // ---------------------------------------------------------------- planning

  datatype Action = Create | Update | Unchanged | Conflict | Blocked

  function PartnerAction(t: Target, p: BundlePartner): Action {
    if p.key !in t.partners then Create
    else
      var c := t.partners[p.key];
      if c.name == p.name && c.description == p.description && c.enabled == p.enabled then Unchanged else Update
  }

  function VersionAction(t: Target, key: Key, v: BundleVersion): Action {
    if key !in t.transformations || v.version !in t.transformations[key].versions then Create
    else if J.Stable(t.transformations[key].versions[v.version]) != J.Stable(v.definition) then Conflict
    else Unchanged
  }

  /** Some listing of the active version contradicts the stored one. */
  predicate ParentConflict(t: Target, b: Bundle, d: BundleDestination) {
    exists i, j :: 0 <= i < |b.transformations| && 0 <= j < |b.transformations[i].versions|
                   && b.transformations[i].key == d.transformation
                   && b.transformations[i].versions[j].version == d.activeVersion
                   && VersionAction(t, d.transformation, b.transformations[i].versions[j]) == Conflict
  }

  predicate SameConfiguration(c: Destination, d: BundleDestination) {
    && c.enabled == d.enabled && c.authType == d.authType && c.alias == d.alias
    && c.activeVersion == d.activeVersion && J.Stable(c.settings) == J.Stable(d.settings)
  }

  /** The branches of `plan` for a destination, given whether one of its parents is in conflict. */
  function DestinationDecision(t: Target, env: Environment, d: BundleDestination, parentConflict: bool): Action {
    if parentConflict then Blocked
    else if d.enabled && d.alias !in env.bound then Blocked
    else if d.key !in t.destinations then Create
    else
      var c := t.destinations[d.key];
      if (d.partner in t.partners && c.partnerId != t.partners[d.partner].id) || c.authType != d.authType then Conflict
      else if SameConfiguration(c, d)
              && (d.transformation in t.transformations ==> c.transformationId == t.transformations[d.transformation].id)
      then Unchanged
      else Update
  }

  function DestinationAction(t: Target, b: Bundle, env: Environment, d: BundleDestination): Action {
    DestinationDecision(t, env, d, ParentConflict(t, b, d))
  }

  /** The first destination of the bundle with that key. */
  function FindDestination(ds: seq<BundleDestination>, key: Key): (r: Option<BundleDestination>)
    ensures r.Some? ==> r.value in ds && r.value.key == key
    ensures r.None? ==> forall i :: 0 <= i < |ds| ==> ds[i].key != key
  {
    if ds == [] then None
    else if ds[0].key == key then Some(ds[0])
    else FindDestination(ds[1..], key)
  }

  /** A subscription waits for its destination when that is blocked or in conflict. */
  predicate Held(t: Target, b: Bundle, env: Environment, s: BundleSubscription) {
    var d := FindDestination(b.destinations, s.destination);
    d.Some? && DestinationAction(t, b, env, d.value) in {Blocked, Conflict}
  }

  function SubscriptionDecision(t: Target, s: BundleSubscription, held: bool): Action {
    if held then Blocked
    else if s.key !in t.subscriptions then Create
    else
      var c := t.subscriptions[s.key];
      if (s.destination in t.destinations && c.destinationId != t.destinations[s.destination].id)
         || c.eventType != s.eventType then Conflict
      else if c.enabled == s.enabled then Unchanged
      else Update
  }

  function SubscriptionAction(t: Target, b: Bundle, env: Environment, s: BundleSubscription): Action {
    SubscriptionDecision(t, s, Held(t, b, env, s))
  }

  predicate Changes(a: Action) {
    a == Create || a == Update
  }

  /** A plan without CREATE and UPDATE. */
  ghost predicate NothingToDo(t: Target, b: Bundle, env: Environment) {
    && (forall i :: 0 <= i < |b.partners| ==> !Changes(PartnerAction(t, b.partners[i])))
    && (forall i, j :: 0 <= i < |b.transformations| && 0 <= j < |b.transformations[i].versions| ==>
          !Changes(VersionAction(t, b.transformations[i].key, b.transformations[i].versions[j])))
    && (forall i :: 0 <= i < |b.destinations| ==> !Changes(DestinationAction(t, b, env, b.destinations[i])))
    && (forall i :: 0 <= i < |b.subscriptions| ==> !Changes(SubscriptionAction(t, b, env, b.subscriptions[i])))
  }

  // ---------------------------------------------------------------- what apply does to the target

  /** The versions of a bundle transformation that the target does not have, in the order of the bundle. */
  function Missing(t: Target, key: Key, vs: seq<BundleVersion>): seq<BundleVersion> {
    if vs == [] then []
    else
      var before := Missing(t, key, vs[..|vs| - 1]);
      if VersionAction(t, key, vs[|vs| - 1]) == Create then before + [vs[|vs| - 1]] else before
  }

  /** The versions a target transformation has; none if it is absent. */
  function Versions(t: Target, key: Key): map<nat, J.Json> {
    if key in t.transformations then t.transformations[key].versions else map[]
  }

  lemma {:induction false} MaxExists(s: set<nat>) returns (x: nat)
    requires s != {}
    ensures x in s && forall y :: y in s ==> y <= x
    decreases |s|
  {
    var z :| z in s;
    if s == {z} {
      x := z;
    } else {
      var rest := s - {z};
      assert rest != {} by { assert s == rest + {z}; }
      var w := MaxExists(rest);
      x := if w >= z then w else z;
    }
  }

  /** `latestVersion`: the last of the listed versions, 0 if there is none. */
  ghost function Latest(versions: map<nat, J.Json>): (n: nat)
    ensures forall v :: v in versions ==> v <= n
    ensures versions != map[] ==> n in versions
    ensures versions == map[] ==> n == 0
  {
    if versions == map[] then 0
    else
      assert exists n :: n in versions && forall v :: v in versions ==> v <= n by {
        assert versions.Keys != {} by { var k :| k in versions; }
        var x := MaxExists(versions.Keys);
      }
      var n :| n in versions && forall v :: v in versions ==> v <= n;
      n
  }

  lemma LatestIs(versions: map<nat, J.Json>, n: nat)
    requires n in versions && forall v :: v in versions ==> v <= n
    ensures Latest(versions) == n
  {
  }

  /** New versions get consecutive numbers, whatever number the bundle gives them. */
  function Numbered(base: map<nat, J.Json>, latest: nat, m: seq<BundleVersion>): map<nat, J.Json> {
    if m == [] then base
    else Numbered(base, latest, m[..|m| - 1])[latest + |m| := m[|m| - 1].definition]
  }

  lemma {:induction false} NumberedIs(base: map<nat, J.Json>, latest: nat, m: seq<BundleVersion>)
    requires forall v :: v in base ==> v <= latest
    ensures forall v :: v in Numbered(base, latest, m) <==> v in base || latest < v <= latest + |m|
    ensures forall v :: v in base ==> Numbered(base, latest, m)[v] == base[v]
    ensures forall i :: 0 <= i < |m| ==> Numbered(base, latest, m)[latest + i + 1] == m[i].definition
  {
    if m != [] {
      NumberedIs(base, latest, m[..|m| - 1]);
    }
  }

  lemma NumberedAt(base: map<nat, J.Json>, latest: nat, m: seq<BundleVersion>, i: nat)
    requires i < |m| && forall v :: v in base ==> v <= latest
    ensures latest + i + 1 in Numbered(base, latest, m)
    ensures Numbered(base, latest, m)[latest + i + 1] == m[i].definition
  {
    NumberedIs(base, latest, m);
  }
}
