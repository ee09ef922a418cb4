/** What each action of a plan says about the bundle and the target, field by field. */
module Decisions {
  import opened Domain
  import opened Portability
  import opened PlanListing
  import J = Canonical

  predicate PartnerIs(t: Target, p: BundlePartner, a: Action) {
    match a
    case Create => p.key !in t.partners
    case Unchanged =>
      && p.key in t.partners && t.partners[p.key].name == p.name
      && t.partners[p.key].description == p.description && t.partners[p.key].enabled == p.enabled
    case Update =>
      && p.key in t.partners
      && (t.partners[p.key].name != p.name || t.partners[p.key].description != p.description
          || t.partners[p.key].enabled != p.enabled)
    case _ => false
  }

  predicate Stored(t: Target, key: Key, version: nat) {
    key in t.transformations && version in t.transformations[key].versions
  }

  /** The target has the version with another definition. */
  predicate Contradicts(t: Target, key: Key, v: BundleVersion) {
    Stored(t, key, v.version) && J.Stable(t.transformations[key].versions[v.version]) != J.Stable(v.definition)
  }

  predicate VersionIs(t: Target, key: Key, v: BundleVersion, a: Action) {
    match a
    case Create => !Stored(t, key, v.version)
    case Conflict => Contradicts(t, key, v)
    case Unchanged => Stored(t, key, v.version) && !Contradicts(t, key, v)
    case _ => false
  }

  /** A destination waits for a version that is contradicted or for a secret. */
  ghost predicate MustWait(t: Target, b: Bundle, env: Environment, d: BundleDestination) {
    || (exists bt, v :: bt in b.transformations && bt.key == d.transformation
                        && v in bt.versions && v.version == d.activeVersion && Contradicts(t, d.transformation, v))
    || (d.enabled && d.alias !in env.bound)
  }

  /** It exists, but for another partner or with another kind of authentication. */
  predicate OtherIdentity(t: Target, d: BundleDestination) {
    d.key in t.destinations
    && (t.destinations[d.key].authType != d.authType
        || (d.partner in t.partners && t.partners[d.partner].id != t.destinations[d.key].partnerId))
  }

  /** It exists with every field as the bundle has it, for the transformation of the bundle if that exists. */
  predicate AsListed(t: Target, d: BundleDestination) {
    && d.key in t.destinations
    && t.destinations[d.key].enabled == d.enabled
    && t.destinations[d.key].authType == d.authType
    && t.destinations[d.key].alias == d.alias
    && t.destinations[d.key].activeVersion == d.activeVersion
    && J.Stable(t.destinations[d.key].settings) == J.Stable(d.settings)
    && (d.transformation in t.transformations ==>
          t.transformations[d.transformation].id == t.destinations[d.key].transformationId)
  }

  ghost predicate DestinationIs(t: Target, b: Bundle, env: Environment, d: BundleDestination, a: Action) {
    match a
    case Blocked => MustWait(t, b, env, d)
    case Create => !MustWait(t, b, env, d) && d.key !in t.destinations
    case Conflict => !MustWait(t, b, env, d) && OtherIdentity(t, d)
    case Unchanged => !MustWait(t, b, env, d) && !OtherIdentity(t, d) && AsListed(t, d)
    case Update =>
      !MustWait(t, b, env, d) && !OtherIdentity(t, d) && d.key in t.destinations && !AsListed(t, d)
  }

  ghost predicate SubscriptionIs(t: Target, b: Bundle, env: Environment, s: BundleSubscription, a: Action) {
    var held := exists d :: d in b.destinations && d.key == s.destination
                            && (MustWait(t, b, env, d) || OtherIdentity(t, d));
    var other := s.key in t.subscriptions
                 && (t.subscriptions[s.key].eventType != s.eventType
                     || (s.destination in t.destinations
                         && t.destinations[s.destination].id != t.subscriptions[s.key].destinationId));
    match a
    case Blocked => held
    case Create => !held && s.key !in t.subscriptions
    case Conflict => !held && other
    case Unchanged => !held && !other && s.key in t.subscriptions && t.subscriptions[s.key].enabled == s.enabled
    case Update => !held && !other && s.key in t.subscriptions && t.subscriptions[s.key].enabled != s.enabled
  }

  // ---------------------------------------------------------------- the decisions are just these

  lemma PartnerDecided(t: Target, p: BundlePartner, a: Action)
    ensures PartnerAction(t, p) == a <==> PartnerIs(t, p, a)
  {
  }

  lemma VersionDecided(t: Target, key: Key, v: BundleVersion, a: Action)
    ensures VersionAction(t, key, v) == a <==> VersionIs(t, key, v, a)
  {
  }

  lemma ParentContradicted(t: Target, b: Bundle, d: BundleDestination)
    ensures ParentConflict(t, b, d)
            <==> exists bt, v :: bt in b.transformations && bt.key == d.transformation
                                 && v in bt.versions && v.version == d.activeVersion && Contradicts(t, d.transformation, v)
  {
    if ParentConflict(t, b, d) {
      var i, j :| 0 <= i < |b.transformations| && 0 <= j < |b.transformations[i].versions|
                  && b.transformations[i].key == d.transformation
                  && b.transformations[i].versions[j].version == d.activeVersion
                  && VersionAction(t, d.transformation, b.transformations[i].versions[j]) == Conflict;
      VersionDecided(t, d.transformation, b.transformations[i].versions[j], Conflict);
      assert b.transformations[i] in b.transformations;
    }
    if bt, v :| bt in b.transformations && bt.key == d.transformation
                && v in bt.versions && v.version == d.activeVersion && Contradicts(t, d.transformation, v) {
      var i :| 0 <= i < |b.transformations| && b.transformations[i] == bt;
      var j :| 0 <= j < |bt.versions| && bt.versions[j] == v;
      VersionDecided(t, d.transformation, b.transformations[i].versions[j], Conflict);
    }
  }

  lemma DestinationDecided(t: Target, b: Bundle, env: Environment, d: BundleDestination, a: Action)
    ensures DestinationAction(t, b, env, d) == a <==> DestinationIs(t, b, env, d, a)
  {
    ParentContradicted(t, b, d);
  }

  lemma HeldDecided(t: Target, b: Bundle, env: Environment, s: BundleSubscription)
    requires Parsed(b)
    ensures Held(t, b, env, s)
            <==> exists d :: d in b.destinations && d.key == s.destination
                             && (MustWait(t, b, env, d) || OtherIdentity(t, d))
  {
    var found := FindDestination(b.destinations, s.destination);
    if found.Some? {
      DestinationDecided(t, b, env, found.value, Blocked);
      DestinationDecided(t, b, env, found.value, Conflict);
    }
    if d :| d in b.destinations && d.key == s.destination && (MustWait(t, b, env, d) || OtherIdentity(t, d)) {
      var i :| 0 <= i < |b.destinations| && b.destinations[i] == d;
      var j :| 0 <= j < |b.destinations| && b.destinations[j] == found.value;
      assert found.value == d;
    }
  }

  lemma SubscriptionDecided(t: Target, b: Bundle, env: Environment, s: BundleSubscription, a: Action)
    requires Parsed(b)
    ensures SubscriptionAction(t, b, env, s) == a <==> SubscriptionIs(t, b, env, s, a)
  {
    HeldDecided(t, b, env, s);
  }

  // ---------------------------------------------------------------- the whole plan

  /** Every resource of the bundle has the item it must have, and no other. */
  ghost predicate PlanTells(t: Target, b: Bundle, env: Environment, items: seq<PlanItem>) {
    && (forall p, a :: p in b.partners ==> (PlanItem(PartnerRef(p.key), a) in items <==> PartnerIs(t, p, a)))
    && (forall bt, v, a :: bt in b.transformations && v in bt.versions && VersionIs(t, bt.key, v, a) ==>
          PlanItem(VersionRef(bt.key, v.version), a) in items)
    && (forall d, a :: d in b.destinations ==>
          (PlanItem(DestinationRef(d.key), a) in items <==> DestinationIs(t, b, env, d, a)))
    && (forall s, a :: s in b.subscriptions ==>
          (PlanItem(SubscriptionRef(s.key), a) in items <==> SubscriptionIs(t, b, env, s, a)))
  }

  lemma PartnerListed(t: Target, b: Bundle, env: Environment, p: BundlePartner, a: Action)
    requires Parsed(b) && p in b.partners
    ensures PlanItem(PartnerRef(p.key), a) in PlanItems(t, b, env) <==> PartnerIs(t, p, a)
  {
    var it := PlanItem(PartnerRef(p.key), a);
    PlanItemIn(t, b, env, it);
    PartnerItemIn(t, b.partners, it);
    PartnerDecided(t, p, a);
    var k :| 0 <= k < |b.partners| && b.partners[k] == p;
  }

  lemma VersionListed(t: Target, b: Bundle, env: Environment, bt: BundleTransformation, v: BundleVersion, a: Action)
    requires bt in b.transformations && v in bt.versions && VersionIs(t, bt.key, v, a)
    ensures PlanItem(VersionRef(bt.key, v.version), a) in PlanItems(t, b, env)
  {
    var i :| 0 <= i < |b.transformations| && b.transformations[i] == bt;
    var j :| 0 <= j < |bt.versions| && bt.versions[j] == v;
    VersionDecided(t, bt.key, v, a);
    VersionIsPlanned(t, b, env, i, j);
  }

  lemma DestinationListed(t: Target, b: Bundle, env: Environment, d: BundleDestination, a: Action)
    requires Parsed(b) && d in b.destinations
    ensures PlanItem(DestinationRef(d.key), a) in PlanItems(t, b, env) <==> DestinationIs(t, b, env, d, a)
  {
    var it := PlanItem(DestinationRef(d.key), a);
    PlanItemIn(t, b, env, it);
    DestinationItemIn(t, b, env, b.destinations, it);
    DestinationDecided(t, b, env, d, a);
    var k :| 0 <= k < |b.destinations| && b.destinations[k] == d;
  }

  lemma SubscriptionListed(t: Target, b: Bundle, env: Environment, s: BundleSubscription, a: Action)
    requires Parsed(b) && s in b.subscriptions
    ensures PlanItem(SubscriptionRef(s.key), a) in PlanItems(t, b, env) <==> SubscriptionIs(t, b, env, s, a)
  {
    var it := PlanItem(SubscriptionRef(s.key), a);
    PlanItemIn(t, b, env, it);
    SubscriptionItemIn(t, b, env, b.subscriptions, it);
    SubscriptionDecided(t, b, env, s, a);
    var k :| 0 <= k < |b.subscriptions| && b.subscriptions[k] == s;
  }

  lemma ItemsTell(t: Target, b: Bundle, env: Environment)
    requires Parsed(b)
    ensures PlanTells(t, b, env, PlanItems(t, b, env))
  {
    var items := PlanItems(t, b, env);
    forall p, a | p in b.partners ensures PlanItem(PartnerRef(p.key), a) in items <==> PartnerIs(t, p, a) {
      PartnerListed(t, b, env, p, a);
    }
    forall bt, v, a | bt in b.transformations && v in bt.versions && VersionIs(t, bt.key, v, a)
      ensures PlanItem(VersionRef(bt.key, v.version), a) in items
    {
      VersionListed(t, b, env, bt, v, a);
    }
    forall d, a | d in b.destinations
      ensures PlanItem(DestinationRef(d.key), a) in items <==> DestinationIs(t, b, env, d, a)
    {
      DestinationListed(t, b, env, d, a);
    }
    forall s, a | s in b.subscriptions
      ensures PlanItem(SubscriptionRef(s.key), a) in items <==> SubscriptionIs(t, b, env, s, a)
    {
      SubscriptionListed(t, b, env, s, a);
    }
  }
}
