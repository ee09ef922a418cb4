/** Repeated imports of one bundle: how many applies it takes until a plan has nothing left to do, and
    what is planned for ever. */
module Settling {
  import opened Domain
  import opened Portability
  import opened Import
  import J = Canonical

  /** `ts` are the targets between successive successful applies of one bundle, the first one included. */
  ghost predicate Reapplied(ts: seq<Target>, b: Bundle, env: Environment) {
    && ts != [] && ValidTarget(Last(ts))
    && (|ts| > 1 ==>
          Reapplied(ts[..|ts| - 1], b, env) && Applied(Last(ts[..|ts| - 1]), b, env, Last(ts)))
  }

  function Last(ts: seq<Target>): Target
    requires ts != []
  {
    ts[|ts| - 1]
  }

  // ---------------------------------------------------------------- descriptions

  lemma DescriptionStays(t: Target, b: Bundle, env: Environment, u: Target, p: BundlePartner)
    requires Applied(t, b, env, u) && p in b.partners
    ensures DropsDescription(u, p) <==> DropsDescription(t, p)
    ensures Changes(PartnerAction(u, p)) <==> DropsDescription(u, p)
  {
    assert PartnerAfter(t, p, u.partners[p.key]);
  }

  /** A description that the bundle drops survives every apply, and every plan has the partner as UPDATE. */
  lemma {:induction false} DroppedDescriptionNeverSettles(
    ts: seq<Target>, b: Bundle, env: Environment, p: BundlePartner)
    requires Reapplied(ts, b, env) && p in b.partners && DropsDescription(ts[0], p)
    ensures DropsDescription(Last(ts), p) && PartnerAction(Last(ts), p) == Update
  {
    if |ts| > 1 {
      DroppedDescriptionNeverSettles(ts[..|ts| - 1], b, env, p);
      DescriptionStays(Last(ts[..|ts| - 1]), b, env, Last(ts), p);
    }
  }

  lemma {:induction false} DescriptionsOverRuns(ts: seq<Target>, b: Bundle, env: Environment, p: BundlePartner)
    requires Reapplied(ts, b, env) && p in b.partners
    ensures DropsDescription(Last(ts), p) <==> DropsDescription(ts[0], p)
  {
    if |ts| > 1 {
      DescriptionsOverRuns(ts[..|ts| - 1], b, env, p);
      DescriptionStays(Last(ts[..|ts| - 1]), b, env, Last(ts), p);
    }
  }

  // ---------------------------------------------------------------- version numbers

  /** The number is behind the latest version and not taken: no version will ever get it. */
  ghost predicate Buried(t: Target, key: Key, v: BundleVersion) {
    v.version !in Versions(t, key) && v.version <= Latest(Versions(t, key))
  }

  ghost predicate NoneBuried(t: Target, bt: BundleTransformation) {
    forall v :: v in bt.versions ==> !Buried(t, bt.key, v)
  }

  /** How many listed versions are above a number. */
  function Above(vs: seq<BundleVersion>, latest: nat): (n: nat)
    ensures n == 0 <==> forall v :: v in vs ==> v.version <= latest
  {
    if vs == [] then 0
    else
      assert forall v :: v in vs <==> v in vs[..|vs| - 1] || v == vs[|vs| - 1];
      Above(vs[..|vs| - 1], latest) + if vs[|vs| - 1].version > latest then 1 else 0
  }

  function Highest(vs: seq<BundleVersion>): (h: nat)
    ensures forall v :: v in vs ==> v.version <= h
  {
    if vs == [] then 0
    else
      assert forall v :: v in vs <==> v in vs[..|vs| - 1] || v == vs[|vs| - 1];
      var h := Highest(vs[..|vs| - 1]);
      if vs[|vs| - 1].version > h then vs[|vs| - 1].version else h
  }

  /** The applies it takes until no listed version is above the latest one. Each gives the next numbers to
      all the versions that are still above. */
  function AppliesNeeded(vs: seq<BundleVersion>, latest: nat): (n: nat)
    ensures n <= if Highest(vs) > latest then Highest(vs) - latest else 0
    ensures n == 0 <==> Above(vs, latest) == 0
    decreases Highest(vs) - latest
  {
    if Above(vs, latest) == 0 then 0 else 1 + AppliesNeeded(vs, latest + Above(vs, latest))
  }

  lemma {:induction false} MissingIsAbove(t: Target, key: Key, vs: seq<BundleVersion>)
    requires forall v :: v in vs ==> !Buried(t, key, v)
    ensures |Missing(t, key, vs)| == Above(vs, Latest(Versions(t, key)))
  {
    if vs != [] {
      var last := vs[|vs| - 1];
      MissingIsAbove(t, key, vs[..|vs| - 1]);
      CreateMeansAbsent(t, key, last);
      assert last in vs;
    }
  }

  /** What one apply does to the latest number. */
  lemma LatestMoves(t: Target, key: Key, vs: seq<BundleVersion>, u: Target)
    requires TransformationAfter(t, key, vs, u.transformations)
    ensures Latest(Versions(u, key)) == Latest(Versions(t, key)) + |Missing(t, key, vs)|
  {
    var latest, n := Latest(Versions(t, key)), |Missing(t, key, vs)|;
    VersionsAre(t, key, vs, u);
    if n > 0 || Versions(t, key) != map[] {
      LatestIs(Versions(u, key), latest + n);
    } else {
      assert Versions(u, key) == map[];
    }
  }

  lemma BuriedStays(t: Target, key: Key, vs: seq<BundleVersion>, u: Target, v: BundleVersion)
    requires TransformationAfter(t, key, vs, u.transformations) && v in vs
    ensures Buried(u, key, v) <==> Buried(t, key, v)
  {
    VersionsAre(t, key, vs, u);
    LatestMoves(t, key, vs, u);
    MissingIs(t, key, vs, v);
    CreateMeansAbsent(t, key, v);
  }

  /** A version whose number is behind the latest one and free is planned for CREATE again and again. */
  lemma {:induction false} BuriedVersionNeverSettles(
    ts: seq<Target>, b: Bundle, env: Environment, i: nat, v: BundleVersion)
    requires Reapplied(ts, b, env) && i < |b.transformations| && v in b.transformations[i].versions
    requires Buried(ts[0], b.transformations[i].key, v)
    ensures Buried(Last(ts), b.transformations[i].key, v)
    ensures VersionAction(Last(ts), b.transformations[i].key, v) == Create
  {
    var bt := b.transformations[i];
    if |ts| > 1 {
      BuriedVersionNeverSettles(ts[..|ts| - 1], b, env, i, v);
      BuriedStays(Last(ts[..|ts| - 1]), bt.key, bt.versions, Last(ts), v);
    }
    CreateMeansAbsent(Last(ts), bt.key, v);
  }

  /** The applies that a transformation of the bundle still needs. */
  ghost function Needed(t: Target, bt: BundleTransformation): nat {
    AppliesNeeded(bt.versions, Latest(Versions(t, bt.key)))
  }

  /** Every apply takes one off the applies needed. */
  lemma OneFewer(t: Target, bt: BundleTransformation, u: Target)
    requires TransformationAfter(t, bt.key, bt.versions, u.transformations) && NoneBuried(t, bt)
    ensures NoneBuried(u, bt)
    ensures Needed(u, bt) == if Needed(t, bt) >= 1 then Needed(t, bt) - 1 else 0
  {
    forall v | v in bt.versions ensures !Buried(u, bt.key, v) {
      BuriedStays(t, bt.key, bt.versions, u, v);
    }
    MissingIsAbove(t, bt.key, bt.versions);
    LatestMoves(t, bt.key, bt.versions, u);
  }

  lemma {:induction false} CountsDown(ts: seq<Target>, b: Bundle, env: Environment, i: nat)
    requires Reapplied(ts, b, env) && i < |b.transformations| && NoneBuried(ts[0], b.transformations[i])
    ensures NoneBuried(Last(ts), b.transformations[i])
    ensures var n := Needed(ts[0], b.transformations[i]);
            Needed(Last(ts), b.transformations[i]) == if n >= |ts| - 1 then n - (|ts| - 1) else 0
  {
    if |ts| > 1 {
      CountsDown(ts[..|ts| - 1], b, env, i);
      OneFewer(Last(ts[..|ts| - 1]), b.transformations[i], Last(ts));
    }
  }

  /** Exact: a gap in the numbers is closed after just as many applies as are needed, and no sooner. */
  lemma GapCloses(ts: seq<Target>, b: Bundle, env: Environment, i: nat)
    requires Reapplied(ts, b, env) && i < |b.transformations| && NoneBuried(ts[0], b.transformations[i])
    ensures (forall v :: v in b.transformations[i].versions ==>
               !Changes(VersionAction(Last(ts), b.transformations[i].key, v)))
            <==> Needed(ts[0], b.transformations[i]) <= |ts| - 1
  {
    var bt := b.transformations[i];
    CountsDown(ts, b, env, i);
    forall v | v in bt.versions
      ensures Changes(VersionAction(Last(ts), bt.key, v)) <==> v.version > Latest(Versions(Last(ts), bt.key))
    {
      CreateMeansAbsent(Last(ts), bt.key, v);
      assert !Buried(Last(ts), bt.key, v);
    }
  }

  /** The versions of the target run from 1 without a gap. */
  ghost predicate GapFree(t: Target, key: Key) {
    forall n :: n in Versions(t, key) <==> 1 <= n <= Latest(Versions(t, key))
  }

  /** Numbers given by an apply leave no gap, so nothing can be buried in a target made by them alone. */
  lemma GapFreeStays(t: Target, bt: BundleTransformation, u: Target)
    requires GapFree(t, bt.key) && TransformationAfter(t, bt.key, bt.versions, u.transformations)
    requires forall v :: v in bt.versions ==> v.version >= 1
    ensures GapFree(u, bt.key) && NoneBuried(u, bt)
  {
    VersionsAre(t, bt.key, bt.versions, u);
    LatestMoves(t, bt.key, bt.versions, u);
  }

  // ---------------------------------------------------------------- the whole bundle

  /** After the first apply every transformation that a destination names exists. */
  lemma TransformationsExist(ts: seq<Target>, b: Bundle, env: Environment, d: BundleDestination)
    requires Parsed(b) && Resolved(b) && Reapplied(ts, b, env) && |ts| > 1 && d in b.destinations
    ensures d.transformation in Last(ts).transformations
  {
    var t := Last(ts[..|ts| - 1]);
    if d.transformation in t.transformations {
      TransformationIdStays(t, b, Last(ts), d.transformation);
    } else {
      NewTransformation(t, b, Last(ts), d);
    }
  }

  ghost predicate SettlesWithin(t: Target, b: Bundle, env: Environment, n: nat) {
    && KeepsDescriptions(t, b)
    && (forall i :: 0 <= i < |b.transformations| ==>
          NoneBuried(t, b.transformations[i]) && Needed(t, b.transformations[i]) <= n)
    && (n == 1 ==> TransformationsKnown(t, b, env))
  }

  lemma SettledNeeds(ts: seq<Target>, b: Bundle, env: Environment)
    requires Parsed(b) && Resolved(b) && Reapplied(ts, b, env) && |ts| > 1 && NothingToDo(Last(ts), b, env)
    ensures SettlesWithin(ts[0], b, env, |ts| - 1)
  {
    forall i | 0 <= i < |b.partners| ensures !DropsDescription(ts[0], b.partners[i]) {
      if DropsDescription(ts[0], b.partners[i]) {
        DroppedDescriptionNeverSettles(ts, b, env, b.partners[i]);
      }
    }
    forall i | 0 <= i < |b.transformations|
      ensures NoneBuried(ts[0], b.transformations[i]) && Needed(ts[0], b.transformations[i]) <= |ts| - 1
    {
      VersionsSettled(ts, b, env, i);
    }
    if |ts| == 2 {
      assert ts[..1] == [ts[0]];
      ConvergesExactly(ts[0], b, env, Last(ts));
    }
  }

  lemma VersionsSettled(ts: seq<Target>, b: Bundle, env: Environment, i: nat)
    requires Reapplied(ts, b, env) && NothingToDo(Last(ts), b, env) && i < |b.transformations|
    ensures NoneBuried(ts[0], b.transformations[i]) && Needed(ts[0], b.transformations[i]) <= |ts| - 1
  {
    var bt := b.transformations[i];
    forall v | v in bt.versions
      ensures !Buried(ts[0], bt.key, v) && !Changes(VersionAction(Last(ts), bt.key, v))
    {
      var j :| 0 <= j < |bt.versions| && bt.versions[j] == v;
      assert !Changes(VersionAction(Last(ts), b.transformations[i].key, b.transformations[i].versions[j]));
      if Buried(ts[0], bt.key, v) {
        BuriedVersionNeverSettles(ts, b, env, i, v);
      }
    }
    GapCloses(ts, b, env, i);
  }

  lemma SettlesIfWithin(ts: seq<Target>, b: Bundle, env: Environment)
    requires Parsed(b) && Resolved(b) && Reapplied(ts, b, env) && |ts| > 1
    requires SettlesWithin(ts[0], b, env, |ts| - 1)
    ensures NothingToDo(Last(ts), b, env)
  {
    var t, u := Last(ts[..|ts| - 1]), Last(ts);
    forall i | 0 <= i < |b.partners| ensures !Changes(PartnerAction(u, b.partners[i])) {
      DescriptionsOverRuns(ts, b, env, b.partners[i]);
      DescriptionStays(t, b, env, u, b.partners[i]);
    }
    forall i, j | 0 <= i < |b.transformations| && 0 <= j < |b.transformations[i].versions|
      ensures !Changes(VersionAction(u, b.transformations[i].key, b.transformations[i].versions[j]))
    {
      GapCloses(ts, b, env, i);
      assert b.transformations[i].versions[j] in b.transformations[i].versions;
    }
    forall i | 0 <= i < |b.destinations| ensures !Changes(DestinationAction(u, b, env, b.destinations[i])) {
      if |ts| > 2 {
        TransformationsExist(ts[..|ts| - 1], b, env, b.destinations[i]);
      }
      DestinationSettles(t, b, env, u, b.destinations[i]);
    }
    forall i | 0 <= i < |b.subscriptions| ensures !Changes(SubscriptionAction(u, b, env, b.subscriptions[i])) {
      SubscriptionSettles(t, b, env, u, b.subscriptions[i]);
    }
  }

  /** Exact: after n >= 1 applies the next plan has no CREATE and no UPDATE if and only if no partner
      drops a description, no listed version is buried, the gaps take at most n applies, and, for n = 1,
      unchanged destinations name known transformations. */
  lemma SettlesExactly(ts: seq<Target>, b: Bundle, env: Environment)
    requires Parsed(b) && Resolved(b) && Reapplied(ts, b, env) && |ts| > 1
    ensures NothingToDo(Last(ts), b, env) <==> SettlesWithin(ts[0], b, env, |ts| - 1)
  {
    if NothingToDo(Last(ts), b, env) {
      SettledNeeds(ts, b, env);
    } else if SettlesWithin(ts[0], b, env, |ts| - 1) {
      SettlesIfWithin(ts, b, env);
    }
  }

  // ---------------------------------------------------------------- the three causes, by example

  /** First cause: the bundle has no description for a partner that has one. */
  lemma DroppedDescription() returns (t: Target, b: Bundle, env: Environment, u: Target)
    ensures Parsed(b) && Resolved(b) && Reapplied([t, u], b, env)
    ensures b.partners == [BundlePartner("acme", "Acme", None, true)]
    ensures "acme" in t.partners && t.partners["acme"].description == Some("a customer")
    ensures PartnerAction(t, b.partners[0]) == Update && PartnerAction(u, b.partners[0]) == Update
  {
    var p := Partner(0, "Acme", Some("a customer"), true, 1);
    t := Target(map["acme" := p], map[], map[], map[], 1);
    b := Bundle([BundlePartner("acme", "Acme", None, true)], [], [], []);
    env := Environment({}, {});
    u := t.(partners := map["acme" := p.(version := 2)]);
    assert b.partners[0].key == "acme";
    OneApply(t, b, env, u);
  }

  lemma OneApply(t: Target, b: Bundle, env: Environment, u: Target)
    requires ValidTarget(t) && Applied(t, b, env, u) && ValidTarget(u)
    ensures Reapplied([t, u], b, env)
  {
    assert [t, u][..1] == [t];
  }

  lemma TwoApplies(t: Target, b: Bundle, env: Environment, u: Target, w: Target)
    requires ValidTarget(t) && Applied(t, b, env, u) && ValidTarget(u) && Applied(u, b, env, w) && ValidTarget(w)
    ensures Reapplied([t, u, w], b, env)
  {
    OneApply(t, b, env, u);
    assert [t, u, w][..2] == [t, u];
  }

  /** A target that holds nothing but versions of "orders". */
  function OnlyOrders(versions: map<nat, J.Json>): Target {
    if versions == map[] then Target(map[], map[], map[], map[], 0)
    else Target(map[], map["orders" := Transformation(0, versions)], map[], map[], 1)
  }

  function OneVersion(v: BundleVersion): Bundle {
    Bundle([], [BundleTransformation("orders", [v])], [], [])
  }

  lemma OneMissing(t: Target, key: Key, v: BundleVersion)
    requires v.version !in Versions(t, key)
    ensures Missing(t, key, [v]) == [v]
    ensures Numbered(Versions(t, key), Latest(Versions(t, key)), [v])
            == Versions(t, key)[Latest(Versions(t, key)) + 1 := v.definition]
  {
    CreateMeansAbsent(t, key, v);
    assert [v][..0] == [];
  }

  lemma NextNumber(before: map<nat, J.Json>, v: BundleVersion, env: Environment)
    requires v.version !in before
    ensures Applied(OnlyOrders(before), OneVersion(v), env, OnlyOrders(before[Latest(before) + 1 := v.definition]))
  {
    OneMissing(OnlyOrders(before), "orders", v);
    assert Latest(before) + 1 in before[Latest(before) + 1 := v.definition];
    assert Versions(OnlyOrders(before), "orders") == before;
    var b := OneVersion(v);
    assert b.transformations[0].key == "orders" && b.transformations[0].versions == [v];
  }

  lemma OneVersionStands(v: BundleVersion, versions: map<nat, J.Json>)
    requires 1 in versions
    ensures Parsed(OneVersion(v)) && Resolved(OneVersion(v))
    ensures ValidTarget(OnlyOrders(map[])) && ValidTarget(OnlyOrders(versions))
    ensures Versions(OnlyOrders(versions), "orders") == versions
  {
  }

  lemma SkippedPlans(v: BundleVersion, env: Environment)
    requires v == BundleVersion(2, J.JNull)
    ensures VersionAction(OnlyOrders(map[1 := J.JNull]), "orders", v) == Create
    ensures NothingToDo(OnlyOrders(map[1 := J.JNull, 2 := J.JNull]), OneVersion(v), env)
  {
    assert 1 in map[1 := J.JNull] && 2 in map[1 := J.JNull, 2 := J.JNull];
  }

  /** Second cause: the bundle starts at version 2. The first apply stores it as number 1, so it is planned
      for CREATE again; the second apply stores it as number 2 as well, and only then nothing is left. */
  lemma SkippedVersion() returns (t: Target, b: Bundle, env: Environment, u: Target, w: Target)
    ensures Parsed(b) && Resolved(b) && Reapplied([t, u, w], b, env)
    ensures b == OneVersion(BundleVersion(2, J.JNull)) && t == OnlyOrders(map[])
    ensures VersionAction(u, "orders", BundleVersion(2, J.JNull)) == Create
    ensures w == OnlyOrders(map[1 := J.JNull, 2 := J.JNull]) && NothingToDo(w, b, env)
  {
    var v := BundleVersion(2, J.JNull);
    var first, second := map[1 := J.JNull], map[1 := J.JNull, 2 := J.JNull];
    t, b, env, u, w := OnlyOrders(map[]), OneVersion(v), Environment({}, {}), OnlyOrders(first), OnlyOrders(second);
    OneVersionStands(v, first);
    OneVersionStands(v, second);
    SkippedApplies(v, env, first, second);
    SkippedPlans(v, env);
    TwoApplies(t, b, env, u, w);
  }

  lemma SkippedApplies(v: BundleVersion, env: Environment, first: map<nat, J.Json>, second: map<nat, J.Json>)
    requires v == BundleVersion(2, J.JNull) && first == map[1 := J.JNull] && second == map[1 := J.JNull, 2 := J.JNull]
    ensures Applied(OnlyOrders(map[]), OneVersion(v), env, OnlyOrders(first))
    ensures Applied(OnlyOrders(first), OneVersion(v), env, OnlyOrders(second))
  {
    NextNumber(map[], v, env);
    assert map[][1 := J.JNull] == first;
    SecondNumber(v, env, first, second);
  }

  lemma SecondNumber(v: BundleVersion, env: Environment, first: map<nat, J.Json>, second: map<nat, J.Json>)
    requires v == BundleVersion(2, J.JNull) && first == map[1 := J.JNull] && second == map[1 := J.JNull, 2 := J.JNull]
    ensures Applied(OnlyOrders(first), OneVersion(v), env, OnlyOrders(second))
  {
    LatestIs(first, 1);
    assert first[2 := J.JNull] == second;
    NextNumber(first, v, env);
  }

  /** A target with one partner and one destination that names the transformation with the given identifier. */
  function OneHook(versions: map<nat, J.Json>, transformation: nat, version: nat): Target {
    Target(
      map["acme" := Partner(0, "Acme", None, true, 1)],
      if versions == map[] then map[] else map["orders" := Transformation(3, versions)],
      map["hook" := Destination(1, 0, transformation, 1, true, 0, "key", J.JNull, version)],
      map[], if versions == map[] then 3 else 4)
  }

  const HOOK := BundleDestination("hook", "acme", "orders", 1, true, 0, "key", J.JNull)

  function HookBundle(vs: seq<BundleVersion>): Bundle {
    Bundle([BundlePartner("acme", "Acme", None, true)], [BundleTransformation("orders", vs)], [HOOK], [])
  }

  const KEY_BOUND := Environment({"key"}, {})

  /** Third cause: the destination is UNCHANGED while its transformation is not there to compare with. The
      first apply creates the transformation, the second turns the destination to it. */
  lemma UnknownTransformation() returns (t: Target, b: Bundle, u: Target, w: Target)
    ensures Parsed(b) && Resolved(b) && Reapplied([t, u, w], b, KEY_BOUND)
    ensures b == HookBundle([BundleVersion(1, J.JNull)]) && t == OneHook(map[], 2, 1)
    ensures DestinationAction(t, b, KEY_BOUND, HOOK) == Unchanged
    ensures DestinationAction(u, b, KEY_BOUND, HOOK) == Update && NothingToDo(w, b, KEY_BOUND)
  {
    var versions, vs := map[1 := J.JNull], [BundleVersion(1, J.JNull)];
    t, b, u, w := OneHook(map[], 2, 1), HookBundle(vs), OneHook(versions, 2, 1), OneHook(versions, 3, 2);
    HookUnchanged(vs);
    HooksStand(vs, versions);
    FirstHook(vs, versions);
    SecondHook();
    TwoApplies(t, b, KEY_BOUND, u, w);
  }

  lemma HooksStand(vs: seq<BundleVersion>, versions: map<nat, J.Json>)
    requires vs != [] && vs[0].version == 1 && 1 in versions
    ensures Parsed(HookBundle(vs)) && Resolved(HookBundle(vs))
    ensures ValidTarget(OneHook(map[], 2, 1)) && ValidTarget(OneHook(versions, 2, 1)) && ValidTarget(OneHook(versions, 3, 2))
  {
    HookKeys(vs);
    assert Lists(HookBundle(vs).transformations[0], 1);
  }

  lemma HookKeys(vs: seq<BundleVersion>)
    ensures var b := HookBundle(vs);
            b.partners[0].key == "acme" && b.transformations[0].key == "orders" && b.transformations[0].versions == vs
            && b.destinations[0] == HOOK && HOOK.key == "hook" && HOOK.transformation == "orders"
  {
  }

  lemma HookUnchanged(vs: seq<BundleVersion>)
    ensures DestinationAction(OneHook(map[], 2, 1), HookBundle(vs), KEY_BOUND, HOOK) == Unchanged
  {
    assert !ParentConflict(OneHook(map[], 2, 1), HookBundle(vs), HOOK);
  }

  lemma HookTransformation(vs: seq<BundleVersion>, versions: map<nat, J.Json>)
    requires vs != [] && versions == Numbered(map[], 0, vs)
    ensures TransformationsAfter(
              OneHook(map[], 2, 1), HookBundle(vs).transformations, OneHook(versions, 2, 1).transformations)
  {
    HookKeys(vs);
    AllMissing(OneHook(map[], 2, 1), "orders", vs);
    NumberedIs(map[], 0, vs);
    assert 1 in versions;
    assert Versions(OneHook(map[], 2, 1), "orders") == map[] && Latest(map[]) == 0;
  }

  lemma FirstHook(vs: seq<BundleVersion>, versions: map<nat, J.Json>)
    requires vs != [] && versions == Numbered(map[], 0, vs)
    ensures Applied(OneHook(map[], 2, 1), HookBundle(vs), KEY_BOUND, OneHook(versions, 2, 1))
  {
    HookKeys(vs);
    HookUnchanged(vs);
    HookTransformation(vs, versions);
  }

  lemma SecondHook()
    ensures var b, u, w := HookBundle([BundleVersion(1, J.JNull)]), OneHook(map[1 := J.JNull], 2, 1),
                           OneHook(map[1 := J.JNull], 3, 2);
            Applied(u, b, KEY_BOUND, w) && DestinationAction(u, b, KEY_BOUND, HOOK) == Update
            && NothingToDo(w, b, KEY_BOUND)
  {
    var vs := [BundleVersion(1, J.JNull)];
    var b, u, w := HookBundle(vs), OneHook(map[1 := J.JNull], 2, 1), OneHook(map[1 := J.JNull], 3, 2);
    HookKeys(vs);
    assert vs[..0] == [] && 1 in map[1 := J.JNull];
    assert VersionAction(u, "orders", vs[0]) == Unchanged && Missing(u, "orders", vs) == [];
    assert !ParentConflict(u, b, HOOK) && !ParentConflict(w, b, HOOK);
  }

  /** A bundle that lists version 1 twice blocks its own destination, so the same destination settles. */
  lemma TwiceListed() returns (t: Target, b: Bundle, u: Target)
    ensures Parsed(b) && Resolved(b) && Reapplied([t, u], b, KEY_BOUND)
    ensures b == HookBundle([BundleVersion(1, J.JNull), BundleVersion(1, J.JBool(true))]) && t == OneHook(map[], 2, 1)
    ensures DestinationAction(t, b, KEY_BOUND, HOOK) == Unchanged
    ensures DestinationAction(u, b, KEY_BOUND, HOOK) == Blocked && NothingToDo(u, b, KEY_BOUND)
  {
    var vs := [BundleVersion(1, J.JNull), BundleVersion(1, J.JBool(true))];
    var versions := Numbered(map[], 0, vs);
    t, b, u := OneHook(map[], 2, 1), HookBundle(vs), OneHook(versions, 2, 1);
    NumberedIs(map[], 0, vs);
    HookUnchanged(vs);
    HooksStand(vs, versions);
    FirstHook(vs, versions);
    OneApply(t, b, KEY_BOUND, u);
    TwiceListedBlocks(vs, t, b, u);
    ConvergesExactly(t, b, KEY_BOUND, u);
  }

  lemma TwiceListedDisplaced(vs: seq<BundleVersion>)
    requires vs == [BundleVersion(1, J.JNull), BundleVersion(1, J.JBool(true))]
    ensures BlocksItself(HookBundle(vs), HOOK)
  {
    HookKeys(vs);
    assert J.Stable(vs[0].definition) == "null" && J.Stable(vs[1].definition) == "true";
    assert DisplacedBy(vs, HookBundle(vs).transformations[0].versions[1]);
  }

  lemma TwiceListedFollows(vs: seq<BundleVersion>)
    requires vs == [BundleVersion(1, J.JNull), BundleVersion(1, J.JBool(true))]
    ensures VersionsFollow(OneHook(map[], 2, 1), HookBundle(vs))
  {
    HookKeys(vs);
    AllMissing(OneHook(map[], 2, 1), "orders", vs);
    assert Versions(OneHook(map[], 2, 1), "orders") == map[] && Latest(map[]) == 0;
  }

  lemma TwiceListedBlocks(vs: seq<BundleVersion>, t: Target, b: Bundle, u: Target)
    requires vs == [BundleVersion(1, J.JNull), BundleVersion(1, J.JBool(true))] && b == HookBundle(vs)
    requires t == OneHook(map[], 2, 1) && TransformationsAfter(t, b.transformations, u.transformations)
    ensures KeepsDescriptions(t, b) && VersionsFollow(t, b) && TransformationsKnown(t, b, KEY_BOUND)
    ensures DestinationAction(u, b, KEY_BOUND, HOOK) == Blocked
  {
    HookKeys(vs);
    TwiceListedFollows(vs);
    TwiceListedDisplaced(vs);
    NewParentConflict(t, b, u, HOOK);
  }
}
