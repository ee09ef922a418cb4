/** The items of a plan as a list, in the order in which `plan` pushes them. */
module PlanListing {
  import opened Domain
  import opened Portability
  import J = Canonical

  // ---------------------------------------------------------------- plan items

  datatype Ref =
    | PartnerRef(key: Key) | VersionRef(key: Key, version: nat)
    | DestinationRef(key: Key) | SubscriptionRef(key: Key)

  datatype PlanItem = PlanItem(ref: Ref, action: Action)

  function PartnerItems(t: Target, ps: seq<BundlePartner>): seq<PlanItem> {
    if ps == [] then []
    else
      var p := ps[|ps| - 1];
      PartnerItems(t, ps[..|ps| - 1]) + [PlanItem(PartnerRef(p.key), PartnerAction(t, p))]
  }

  function VersionItems(t: Target, key: Key, vs: seq<BundleVersion>): seq<PlanItem> {
    if vs == [] then []
    else
      var v := vs[|vs| - 1];
      VersionItems(t, key, vs[..|vs| - 1]) + [PlanItem(VersionRef(key, v.version), VersionAction(t, key, v))]
  }

  function TransformationItems(t: Target, ts: seq<BundleTransformation>): seq<PlanItem> {
    if ts == [] then []
    else TransformationItems(t, ts[..|ts| - 1]) + VersionItems(t, ts[|ts| - 1].key, ts[|ts| - 1].versions)
  }

  function DestinationItems(t: Target, b: Bundle, env: Environment, ds: seq<BundleDestination>): seq<PlanItem> {
    if ds == [] then []
    else
      var d := ds[|ds| - 1];
      DestinationItems(t, b, env, ds[..|ds| - 1]) + [PlanItem(DestinationRef(d.key), DestinationAction(t, b, env, d))]
  }

  function SubscriptionItems(t: Target, b: Bundle, env: Environment, ss: seq<BundleSubscription>): seq<PlanItem> {
    if ss == [] then []
    else
      var s := ss[|ss| - 1];
      SubscriptionItems(t, b, env, ss[..|ss| - 1]) + [PlanItem(SubscriptionRef(s.key), SubscriptionAction(t, b, env, s))]
  }

  function PlanItems(t: Target, b: Bundle, env: Environment): seq<PlanItem> {
    PartnerItems(t, b.partners) + TransformationItems(t, b.transformations)
    + DestinationItems(t, b, env, b.destinations) + SubscriptionItems(t, b, env, b.subscriptions)
  }

  lemma {:induction false} PartnerItemIn(t: Target, ps: seq<BundlePartner>, it: PlanItem)
    ensures it in PartnerItems(t, ps)
            <==> exists i :: 0 <= i < |ps| && it == PlanItem(PartnerRef(ps[i].key), PartnerAction(t, ps[i]))
  {
    if ps != [] {
      var init := ps[..|ps| - 1];
      PartnerItemIn(t, init, it);
      if it in PartnerItems(t, init) {
        var i :| 0 <= i < |init| && it == PlanItem(PartnerRef(init[i].key), PartnerAction(t, init[i]));
        assert ps[i] == init[i];
      }
      if i :| 0 <= i < |ps| - 1 && it == PlanItem(PartnerRef(ps[i].key), PartnerAction(t, ps[i])) {
        assert init[i] == ps[i];
      }
    }
  }

  lemma {:induction false} VersionItemIn(t: Target, key: Key, vs: seq<BundleVersion>, it: PlanItem)
    ensures it in VersionItems(t, key, vs)
            <==> exists j :: 0 <= j < |vs| && it == PlanItem(VersionRef(key, vs[j].version), VersionAction(t, key, vs[j]))
  {
    if vs != [] {
      var init := vs[..|vs| - 1];
      VersionItemIn(t, key, init, it);
      if it in VersionItems(t, key, init) {
        var i :| 0 <= i < |init| && it == PlanItem(VersionRef(key, init[i].version), VersionAction(t, key, init[i]));
        assert vs[i] == init[i];
      }
      if i :| 0 <= i < |vs| - 1 && it == PlanItem(VersionRef(key, vs[i].version), VersionAction(t, key, vs[i])) {
        assert init[i] == vs[i];
      }
    }
  }

  lemma {:induction false} TransformationItemIn(t: Target, ts: seq<BundleTransformation>, it: PlanItem)
    ensures it in TransformationItems(t, ts)
            <==> exists i :: 0 <= i < |ts| && it in VersionItems(t, ts[i].key, ts[i].versions)
  {
    if ts != [] {
      var init := ts[..|ts| - 1];
      TransformationItemIn(t, init, it);
      if it in TransformationItems(t, init) {
        var i :| 0 <= i < |init| && it in VersionItems(t, init[i].key, init[i].versions);
        assert ts[i] == init[i];
      }
      if i :| 0 <= i < |ts| - 1 && it in VersionItems(t, ts[i].key, ts[i].versions) {
        assert init[i] == ts[i];
      }
    }
  }

  lemma {:induction false} DestinationItemIn(t: Target, b: Bundle, env: Environment, ds: seq<BundleDestination>, it: PlanItem)
    ensures it in DestinationItems(t, b, env, ds)
            <==> exists i :: 0 <= i < |ds| && it == PlanItem(DestinationRef(ds[i].key), DestinationAction(t, b, env, ds[i]))
  {
    if ds != [] {
      var init := ds[..|ds| - 1];
      DestinationItemIn(t, b, env, init, it);
      if it in DestinationItems(t, b, env, init) {
        var i :| 0 <= i < |init| && it == PlanItem(DestinationRef(init[i].key), DestinationAction(t, b, env, init[i]));
        assert ds[i] == init[i];
      }
      if i :| 0 <= i < |ds| - 1 && it == PlanItem(DestinationRef(ds[i].key), DestinationAction(t, b, env, ds[i])) {
        assert init[i] == ds[i];
      }
    }
  }

  lemma {:induction false} SubscriptionItemIn(t: Target, b: Bundle, env: Environment, ss: seq<BundleSubscription>, it: PlanItem)
    ensures it in SubscriptionItems(t, b, env, ss)
            <==> exists i :: 0 <= i < |ss| && it == PlanItem(SubscriptionRef(ss[i].key), SubscriptionAction(t, b, env, ss[i]))
  {
    if ss != [] {
      var init := ss[..|ss| - 1];
      SubscriptionItemIn(t, b, env, init, it);
      if it in SubscriptionItems(t, b, env, init) {
        var i :| 0 <= i < |init| && it == PlanItem(SubscriptionRef(init[i].key), SubscriptionAction(t, b, env, init[i]));
        assert ss[i] == init[i];
      }
      if i :| 0 <= i < |ss| - 1 && it == PlanItem(SubscriptionRef(ss[i].key), SubscriptionAction(t, b, env, ss[i])) {
        assert init[i] == ss[i];
      }
    }
  }

  /** `planned`: the first item of a resource. */
  function Planned(items: seq<PlanItem>, ref: Ref): (r: Option<Action>)
    ensures r.Some? ==> PlanItem(ref, r.value) in items
    ensures r.None? ==> forall a :: PlanItem(ref, a) !in items
  {
    if items == [] then None
    else if items[0].ref == ref then
      assert items[0] == PlanItem(ref, items[0].action);
      Some(items[0].action)
    else Planned(items[1..], ref)
  }

  /** Items of each kind come from their own part of the plan. */
  lemma PlanItemIn(t: Target, b: Bundle, env: Environment, it: PlanItem)
    ensures it in PlanItems(t, b, env) <==>
              match it.ref
              case PartnerRef(_) => it in PartnerItems(t, b.partners)
              case VersionRef(_, _) => it in TransformationItems(t, b.transformations)
              case DestinationRef(_) => it in DestinationItems(t, b, env, b.destinations)
              case SubscriptionRef(_) => it in SubscriptionItems(t, b, env, b.subscriptions)
  {
    PartnerItemIn(t, b.partners, it);
    TransformationItemIn(t, b.transformations, it);
    DestinationItemIn(t, b, env, b.destinations, it);
    SubscriptionItemIn(t, b, env, b.subscriptions, it);
    if i :| 0 <= i < |b.transformations| && it in VersionItems(t, b.transformations[i].key, b.transformations[i].versions) {
      VersionItemIn(t, b.transformations[i].key, b.transformations[i].versions, it);
    }
  }

  /** The plan is exact: there is nothing left to do precisely when it holds no CREATE and no UPDATE. */
  lemma PlanIsExact(t: Target, b: Bundle, env: Environment)
    ensures NothingToDo(t, b, env) <==> forall it :: it in PlanItems(t, b, env) ==> !Changes(it.action)
  {
    if NothingToDo(t, b, env) {
      forall it | it in PlanItems(t, b, env) ensures !Changes(it.action) {
        PlanItemIn(t, b, env, it);
        PartnerItemIn(t, b.partners, it);
        TransformationItemIn(t, b.transformations, it);
        DestinationItemIn(t, b, env, b.destinations, it);
        SubscriptionItemIn(t, b, env, b.subscriptions, it);
        if i :| 0 <= i < |b.transformations| && it in VersionItems(t, b.transformations[i].key, b.transformations[i].versions) {
          VersionItemIn(t, b.transformations[i].key, b.transformations[i].versions, it);
        }
      }
    }
    if forall it :: it in PlanItems(t, b, env) ==> !Changes(it.action) {
      forall i | 0 <= i < |b.partners| ensures !Changes(PartnerAction(t, b.partners[i])) {
        var it := PlanItem(PartnerRef(b.partners[i].key), PartnerAction(t, b.partners[i]));
        PartnerItemIn(t, b.partners, it);
        PlanItemIn(t, b, env, it);
      }
      forall i, j | 0 <= i < |b.transformations| && 0 <= j < |b.transformations[i].versions|
        ensures !Changes(VersionAction(t, b.transformations[i].key, b.transformations[i].versions[j]))
      {
        VersionIsPlanned(t, b, env, i, j);
      }
      forall i | 0 <= i < |b.destinations| ensures !Changes(DestinationAction(t, b, env, b.destinations[i])) {
        var it := PlanItem(DestinationRef(b.destinations[i].key), DestinationAction(t, b, env, b.destinations[i]));
        DestinationItemIn(t, b, env, b.destinations, it);
        PlanItemIn(t, b, env, it);
      }
      forall i | 0 <= i < |b.subscriptions| ensures !Changes(SubscriptionAction(t, b, env, b.subscriptions[i])) {
        var it := PlanItem(SubscriptionRef(b.subscriptions[i].key), SubscriptionAction(t, b, env, b.subscriptions[i]));
        SubscriptionItemIn(t, b, env, b.subscriptions, it);
        PlanItemIn(t, b, env, it);
      }
    }
  }

  lemma VersionIsPlanned(t: Target, b: Bundle, env: Environment, i: nat, j: nat)
    requires i < |b.transformations| && j < |b.transformations[i].versions|
    ensures PlanItem(VersionRef(b.transformations[i].key, b.transformations[i].versions[j].version),
                     VersionAction(t, b.transformations[i].key, b.transformations[i].versions[j])) in PlanItems(t, b, env)
  {
    var bt := b.transformations[i];
    var it := PlanItem(VersionRef(bt.key, bt.versions[j].version), VersionAction(t, bt.key, bt.versions[j]));
    VersionItemIn(t, bt.key, bt.versions, it);
    TransformationItemIn(t, b.transformations, it);
    PlanItemIn(t, b, env, it);
  }

  /** The test that `plan` makes on its own items while it goes through the destinations. */
  lemma ConflictInItems(t: Target, b: Bundle, env: Environment, ds: seq<BundleDestination>, d: BundleDestination)
    ensures PlanItem(VersionRef(d.transformation, d.activeVersion), Conflict)
            in PartnerItems(t, b.partners) + TransformationItems(t, b.transformations) + DestinationItems(t, b, env, ds)
            <==> ParentConflict(t, b, d)
  {
    var it := PlanItem(VersionRef(d.transformation, d.activeVersion), Conflict);
    PartnerItemIn(t, b.partners, it);
    TransformationItemIn(t, b.transformations, it);
    DestinationItemIn(t, b, env, ds, it);
    if i :| 0 <= i < |b.transformations| && it in VersionItems(t, b.transformations[i].key, b.transformations[i].versions) {
      VersionItemIn(t, b.transformations[i].key, b.transformations[i].versions, it);
    }
    if ParentConflict(t, b, d) {
      var i, j :| 0 <= i < |b.transformations| && 0 <= j < |b.transformations[i].versions|
                  && b.transformations[i].key == d.transformation
                  && b.transformations[i].versions[j].version == d.activeVersion
                  && VersionAction(t, d.transformation, b.transformations[i].versions[j]) == Conflict;
      VersionItemIn(t, b.transformations[i].key, b.transformations[i].versions, it);
    }
  }
}
