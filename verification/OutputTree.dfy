/** `writePath` as the runtime has it: the output is a tree of mutable objects that is changed in place. A
    mapped value may itself be an object, and then it is shared with the input of the transformation; the
    walk must never go through one. */
module OutputTree {
  import opened Domain
  import opened Transformation

  /** What an object of the output holds: mapped values, and objects that walks have made. */
  datatype Mark = Mapped(value: Value) | Made(fields: Marks)
  type Marks = map<string, Mark>

  /** The output as a value. */
  function Strip(o: Marks): Fields {
    map k | k in o :: StripMark(o[k])
  }

  function StripMark(m: Mark): Value {
    match m
    case Mapped(v) => v
    case Made(fields) => Object(map k | k in fields :: StripMark(fields[k]))
  }

  /** The walk would enter a mapped value. */
  predicate Enters(o: Marks, path: seq<string>)
    decreases |path|
  {
    |path| > 1 && path[0] in o
    && match o[path[0]]
       case Mapped(v) => v.Object?
       case Made(fields) => Enters(fields, path[1..])
  }

  /** The write on marked trees; None is the conflict. */
  function WriteMarks(o: Marks, path: seq<string>, v: Value): Option<Marks>
    requires path != [] && !Enters(o, path)
    decreases |path|
  {
    var k := path[0];
    if |path| == 1 then Some(o[k := Mapped(v)])
    else if k in o && o[k].Mapped? then None
    else
      var child := WriteMarks(if k in o then o[k].fields else map[], path[1..], v);
      if child.None? then None else Some(o[k := Made(child.value)])
  }

  lemma StripMade(fields: Marks)
    ensures StripMark(Made(fields)) == Object(Strip(fields))
  {
  }

  /** Marks do not change what a write does. */
  lemma {:induction false} StripWrite(o: Marks, path: seq<string>, v: Value)
    requires path != [] && !Enters(o, path)
    ensures var r := WriteMarks(o, path, v);
            Write(Strip(o), path, v) == if r.None? then None else Some(Strip(r.value))
    decreases |path|
  {
    var k := path[0];
    if |path| == 1 {
      assert Strip(o[k := Mapped(v)]) == Strip(o)[k := v];
    } else if k !in o || o[k].Made? {
      var inner: Marks := if k in o then o[k].fields else map[];
      StripMade(inner);
      StripWrite(inner, path[1..], v);
      var child := WriteMarks(inner, path[1..], v);
      assert Strip(map[]) == map[];
      if child.Some? {
        StripMade(child.value);
        assert Strip(o[k := Made(child.value)]) == Strip(o)[k := Object(Strip(child.value))];
      }
    }
  }

  // ---------------------------------------------------------------- mapped values stay at their targets

  /** The path leads to a mapped value. */
  predicate MappedAt(o: Marks, q: seq<string>)
    decreases |q|
  {
    q != [] && q[0] in o
    && match o[q[0]]
       case Mapped(_) => |q| == 1
       case Made(fields) => MappedAt(fields, q[1..])
  }

  lemma {:induction false} OnlyAtTarget(o: Marks, p: seq<string>, v: Value, q: seq<string>)
    requires p != [] && !Enters(o, p) && WriteMarks(o, p, v).Some? && MappedAt(WriteMarks(o, p, v).value, q)
    ensures q == p || MappedAt(o, q)
    decreases |p|
  {
    if q[0] == p[0] {
      assert p == [p[0]] + p[1..] && q == [q[0]] + q[1..];
      if |p| > 1 {
        var inner: Marks := if p[0] in o then o[p[0]].fields else map[];
        OnlyAtTarget(inner, p[1..], v, q[1..]);
      }
    }
  }

  lemma {:induction false} EntersMapped(o: Marks, p: seq<string>) returns (n: nat)
    requires Enters(o, p)
    ensures 0 < n < |p| && MappedAt(o, p[..n])
    decreases |p|
  {
    if o[p[0]].Mapped? {
      n := 1;
    } else {
      n := EntersMapped(o[p[0]].fields, p[1..]);
      n := n + 1;
      assert p[..n][1..] == p[1..][..n - 1];
    }
  }

  /** Mapped values sit at the targets of executed mappings only. */
  ghost predicate AtTargets(o: Marks, done: seq<Mapping>) {
    forall q :: MappedAt(o, q) ==> exists i :: 0 <= i < |done| && Segments(done[i].target) == q
  }

  /** A target that leads through no earlier one never enters a value shared with the input. */
  lemma NeverEnters(o: Marks, done: seq<Mapping>, m: Mapping)
    requires AtTargets(o, done) && Apart(done, m)
    ensures !Enters(o, Segments(m.target))
  {
    if Enters(o, Segments(m.target)) {
      var n := EntersMapped(o, Segments(m.target));
    }
  }

  lemma AtTargetsAfter(o: Marks, done: seq<Mapping>, m: Mapping, v: Value)
    requires AtTargets(o, done) && !Enters(o, Segments(m.target)) && WriteMarks(o, Segments(m.target), v).Some?
    ensures AtTargets(WriteMarks(o, Segments(m.target), v).value, done + [m])
  {
    var p := Segments(m.target);
    forall q | MappedAt(WriteMarks(o, p, v).value, q)
      ensures exists i :: 0 <= i < |done + [m]| && Segments((done + [m])[i].target) == q
    {
      OnlyAtTarget(o, p, v, q);
      if q == p {
        assert (done + [m])[|done|] == m;
      } else {
        var i :| 0 <= i < |done| && Segments(done[i].target) == q;
        assert (done + [m])[i] == done[i];
      }
    }
  }

  /** In a new object nothing is in the way. */
  lemma {:induction false} NothingInTheWay(path: seq<string>, v: Value)
    requires path != []
    ensures !Enters(map[], path) && WriteMarks(map[], path, v).Some?
    decreases |path|
  {
    if |path| > 1 {
      NothingInTheWay(path[1..], v);
    }
  }

  // ---------------------------------------------------------------- objects and references

  /** A field of an object: a mapped value, or a reference to another object. */
  datatype Slot = Leaf(value: Value) | Child(id: nat)

  /** All objects of an output. A reference is an index; objects refer to younger ones. */
  type Objects = seq<map<string, Slot>>

  predicate Ordered(a: Objects) {
    forall i, k :: 0 <= i < |a| && k in a[i] && a[i][k].Child? ==> i < a[i][k].id < |a|
  }

  /** The objects that can be reached. */
  ghost function Below(a: Objects, i: nat): (r: set<nat>)
    requires Ordered(a) && i < |a|
    ensures i in r && forall n :: n in r ==> i <= n < |a|
    decreases |a| - i
  {
    {i} + set k, n | k in a[i] && a[i][k].Child? && n in Below(a, a[i][k].id) :: n
  }

  /** No object is reached in two ways. */
  ghost predicate TreeAt(a: Objects, i: nat)
    requires Ordered(a) && i < |a|
    decreases |a| - i
  {
    && (forall k :: k in a[i] && a[i][k].Child? ==> TreeAt(a, a[i][k].id))
    && (forall j, k :: j in a[i] && k in a[i] && j != k && a[i][j].Child? && a[i][k].Child? ==>
          Below(a, a[i][j].id) !! Below(a, a[i][k].id))
  }

  function ModelAt(a: Objects, i: nat): Marks
    requires Ordered(a) && i < |a|
    decreases |a| - i
  {
    map k | k in a[i] :: if a[i][k].Leaf? then Mapped(a[i][k].value) else Made(ModelAt(a, a[i][k].id))
  }

  /** What is reached through unchanged objects is unchanged. */
  lemma {:induction false} Unreached(a: Objects, b: Objects, i: nat)
    requires Ordered(a) && Ordered(b) && i < |a| <= |b| && TreeAt(a, i)
    requires forall n :: n in Below(a, i) ==> b[n] == a[n]
    ensures Below(b, i) == Below(a, i) && TreeAt(b, i) && ModelAt(b, i) == ModelAt(a, i)
    decreases |a| - i
  {
    assert b[i] == a[i];
    forall k | k in a[i] && a[i][k].Child?
      ensures Below(b, a[i][k].id) == Below(a, a[i][k].id) && TreeAt(b, a[i][k].id)
              && ModelAt(b, a[i][k].id) == ModelAt(a, a[i][k].id)
    {
      assert forall n :: n in Below(a, a[i][k].id) ==> n in Below(a, i);
      Unreached(a, b, a[i][k].id);
    }
  }

  /** The other children are as they were. */
  ghost predicate SiblingsAlike(a: Objects, b: Objects, i: nat, k: string)
    requires Ordered(a) && Ordered(b) && i < |a| <= |b|
  {
    forall j :: j in a[i] && j != k && a[i][j].Child? ==>
      && Below(b, a[i][j].id) == Below(a, a[i][j].id) && TreeAt(b, a[i][j].id)
      && ModelAt(b, a[i][j].id) == ModelAt(a, a[i][j].id)
  }

  lemma OneChildTree(a: Objects, b: Objects, i: nat, k: string, c: nat)
    requires Ordered(a) && Ordered(b) && i < |a| <= |b| && TreeAt(a, i) && SiblingsAlike(a, b, i, k)
    requires i < c < |b| && b[i] == a[i][k := Child(c)] && TreeAt(b, c)
    requires forall j :: j in a[i] && j != k && a[i][j].Child? ==> Below(a, a[i][j].id) !! Below(b, c)
    ensures TreeAt(b, i)
  {
    forall x, y | x in b[i] && y in b[i] && x != y && b[i][x].Child? && b[i][y].Child?
      ensures Below(b, b[i][x].id) !! Below(b, b[i][y].id)
    {
      if x != k { assert b[i][x] == a[i][x]; }
      if y != k { assert b[i][y] == a[i][y]; }
    }
    forall x | x in b[i] && b[i][x].Child? ensures TreeAt(b, b[i][x].id) {
      if x != k { assert b[i][x] == a[i][x]; }
    }
  }

  lemma OneChildModel(a: Objects, b: Objects, i: nat, k: string, c: nat)
    requires Ordered(a) && Ordered(b) && i < |a| <= |b| && SiblingsAlike(a, b, i, k)
    requires i < c < |b| && b[i] == a[i][k := Child(c)]
    ensures ModelAt(b, i) == ModelAt(a, i)[k := Made(ModelAt(b, c))]
  {
  }

  lemma OneChildBelow(a: Objects, b: Objects, i: nat, k: string, c: nat)
    requires Ordered(a) && Ordered(b) && i < |a| <= |b| && SiblingsAlike(a, b, i, k)
    requires i < c < |b| && b[i] == a[i][k := Child(c)]
    ensures forall n :: n in Below(b, i) ==> n in Below(a, i) || n in Below(b, c)
  {
  }

  /** An object one of whose children has been replaced, while the others are as they were. */
  lemma OneChild(a: Objects, b: Objects, i: nat, k: string, c: nat)
    requires Ordered(a) && Ordered(b) && i < |a| <= |b| && TreeAt(a, i)
    requires i < c < |b| && b[i] == a[i][k := Child(c)] && TreeAt(b, c)
    requires forall j, n :: j in a[i] && j != k && a[i][j].Child? && n in Below(a, a[i][j].id) ==>
               b[n] == a[n] && n !in Below(b, c)
    ensures TreeAt(b, i)
    ensures ModelAt(b, i) == ModelAt(a, i)[k := Made(ModelAt(b, c))]
    ensures forall n :: n in Below(b, i) ==> n in Below(a, i) || n in Below(b, c)
  {
    assert SiblingsAlike(a, b, i, k) by {
      forall j | j in a[i] && j != k && a[i][j].Child?
        ensures Below(b, a[i][j].id) == Below(a, a[i][j].id) && TreeAt(b, a[i][j].id)
                && ModelAt(b, a[i][j].id) == ModelAt(a, a[i][j].id)
      {
        Unreached(a, b, a[i][j].id);
      }
    }
    OneChildTree(a, b, i, k, c);
    OneChildModel(a, b, i, k, c);
    OneChildBelow(a, b, i, k, c);
  }

  // ---------------------------------------------------------------- the walk

  /** `writePath` from object `i` on; None is the conflict. */
  function PutAt(a: Objects, i: nat, path: seq<string>, v: Value): Option<Objects>
    requires Ordered(a) && i < |a| && path != []
    decreases |path|
  {
    var k := path[0];
    if |path| == 1 then Some(a[i := a[i][k := Leaf(v)]])
    else if k !in a[i] then PutAt(WithChild(a, i, k), |a|, path[1..], v)
    else if a[i][k].Leaf? then None
    else PutAt(a, a[i][k].id, path[1..], v)
  }

  /** A new empty object, referred to by field `k`. */
  function WithChild(a: Objects, i: nat, k: string): (b: Objects)
    requires Ordered(a) && i < |a|
    ensures Ordered(b) && |b| == |a| + 1
  {
    a[i := a[i][k := Child(|a|)]] + [map[]]
  }

  /** What a walk from `i` leaves behind: a tree with the marks of the write, and nothing else changed. */
  ghost predicate WalkedTo(a: Objects, i: nat, b: Objects, marks: Marks)
    requires Ordered(a) && i < |a|
  {
    && Ordered(b) && |a| <= |b| && TreeAt(b, i) && ModelAt(b, i) == marks
    && (forall n :: 0 <= n < |a| && n !in Below(a, i) ==> b[n] == a[n])
    && (forall n :: n in Below(b, i) ==> n in Below(a, i) || n >= |a|)
  }

  lemma WalkInNew(a: Objects, i: nat, k: string, b: Objects, marks: Marks)
    requires Ordered(a) && i < |a| && TreeAt(a, i) && k !in a[i]
    requires WalkedTo(WithChild(a, i, k), |a|, b, marks)
    ensures WalkedTo(a, i, b, ModelAt(a, i)[k := Made(marks)])
  {
    var a' := WithChild(a, i, k);
    assert Below(a', |a|) == {|a|};
    assert b[i] == a'[i] && a'[i] == a[i][k := Child(|a|)];
    forall j, n | j in a[i] && j != k && a[i][j].Child? && n in Below(a, a[i][j].id)
      ensures b[n] == a[n] && n !in Below(b, |a|)
    {
      assert i < n < |a| && a'[n] == a[n];
    }
    OneChild(a, b, i, k, |a|);
    forall n | 0 <= n < |a| && n !in Below(a, i) ensures b[n] == a[n] {
      assert n != i && a'[n] == a[n];
    }
  }

  lemma WalkInOld(a: Objects, i: nat, k: string, b: Objects, marks: Marks)
    requires Ordered(a) && i < |a| && TreeAt(a, i) && k in a[i] && a[i][k].Child?
    requires WalkedTo(a, a[i][k].id, b, marks)
    ensures WalkedTo(a, i, b, ModelAt(a, i)[k := Made(marks)])
  {
    var c := a[i][k].id;
    assert forall n :: n in Below(a, c) ==> n in Below(a, i);
    assert b[i] == a[i] && a[i] == a[i][k := Child(c)];
    OneChild(a, b, i, k, c);
  }

  lemma LeafTree(a: Objects, b: Objects, i: nat, k: string, v: Value)
    requires Ordered(a) && Ordered(b) && i < |a| <= |b| && TreeAt(a, i) && SiblingsAlike(a, b, i, k)
    requires b[i] == a[i][k := Leaf(v)]
    ensures TreeAt(b, i) && forall n :: n in Below(b, i) ==> n in Below(a, i)
  {
    forall x, y | x in b[i] && y in b[i] && x != y && b[i][x].Child? && b[i][y].Child?
      ensures Below(b, b[i][x].id) !! Below(b, b[i][y].id)
    {
      assert b[i][x] == a[i][x] && b[i][y] == a[i][y];
    }
  }

  lemma LeafModel(a: Objects, b: Objects, i: nat, k: string, v: Value)
    requires Ordered(a) && Ordered(b) && i < |a| <= |b| && SiblingsAlike(a, b, i, k)
    requires b[i] == a[i][k := Leaf(v)]
    ensures ModelAt(b, i) == ModelAt(a, i)[k := Mapped(v)]
  {
  }

  lemma SetsLeaf(a: Objects, i: nat, k: string, v: Value)
    requires Ordered(a) && i < |a| && TreeAt(a, i)
    ensures WalkedTo(a, i, a[i := a[i][k := Leaf(v)]], ModelAt(a, i)[k := Mapped(v)])
  {
    var b := a[i := a[i][k := Leaf(v)]];
    assert SiblingsAlike(a, b, i, k) by {
      forall j | j in a[i] && j != k && a[i][j].Child?
        ensures Below(b, a[i][j].id) == Below(a, a[i][j].id) && TreeAt(b, a[i][j].id)
                && ModelAt(b, a[i][j].id) == ModelAt(a, a[i][j].id)
      {
        Unreached(a, b, a[i][j].id);
      }
    }
    LeafTree(a, b, i, k, v);
    LeafModel(a, b, i, k, v);
  }

  /** The walk over references does what the write does on marks. */
  lemma {:induction false} WalkWrites(a: Objects, i: nat, path: seq<string>, v: Value)
    requires Ordered(a) && i < |a| && TreeAt(a, i) && path != [] && !Enters(ModelAt(a, i), path)
    ensures PutAt(a, i, path, v).None? <==> WriteMarks(ModelAt(a, i), path, v).None?
    ensures PutAt(a, i, path, v).Some? ==>
              WalkedTo(a, i, PutAt(a, i, path, v).value, WriteMarks(ModelAt(a, i), path, v).value)
    decreases |path|
  {
    var k := path[0];
    if |path| == 1 {
      SetsLeaf(a, i, k, v);
    } else if k !in a[i] {
      var a' := WithChild(a, i, k);
      NothingInTheWay(path[1..], v);
      assert ModelAt(a', |a|) == map[] && TreeAt(a', |a|);
      WalkWrites(a', |a|, path[1..], v);
      WalkInNew(a, i, k, PutAt(a', |a|, path[1..], v).value, WriteMarks(map[], path[1..], v).value);
    } else if a[i][k].Child? {
      var c := a[i][k].id;
      WalkWrites(a, c, path[1..], v);
      if PutAt(a, c, path[1..], v).Some? {
        WalkInOld(a, i, k, PutAt(a, c, path[1..], v).value, WriteMarks(ModelAt(a, c), path[1..], v).value);
      }
    }
  }

  // ---------------------------------------------------------------- the runtime

  class Output {
    var objects: Objects

    ghost predicate Valid()
      reads this
    {
      Ordered(objects) && |objects| > 0 && TreeAt(objects, 0)
    }

    constructor ()
      ensures Valid() && ModelAt(objects, 0) == map[]
    {
      objects := [map[]];
    }

    /** `writePath`: one reference walks along the path; missing objects are made on the way. A conflict
        leaves the output as it was. */
    method WritePath(path: seq<string>, v: Value) returns (ok: bool)
      requires Valid() && path != [] && !Enters(ModelAt(objects, 0), path)
      modifies this
      ensures Valid()
      ensures ok <==> WriteMarks(old(ModelAt(objects, 0)), path, v).Some?
      ensures ok ==> ModelAt(objects, 0) == WriteMarks(old(ModelAt(objects, 0)), path, v).value
      ensures !ok ==> objects == old(objects)
    {
      ghost var first := objects;
      WalkWrites(first, 0, path, v);
      assert path[0..] == path;
      var current: nat := 0;
      for i := 0 to |path| - 1
        invariant Ordered(objects) && current < |objects|
        invariant PutAt(first, 0, path, v) == PutAt(objects, current, path[i..], v)
        invariant objects == first || objects[current] == map[]
      {
        PutStep(objects, current, path, i, v);
        var part := path[i];
        if part !in objects[current] {
          var made := |objects|;
          objects := WithChild(objects, current, part);
          current := made;
        } else if objects[current][part].Leaf? {
          return false;
        } else {
          current := objects[current][part].id;
        }
      }
      PutLast(objects, current, path, v);
      objects := objects[current := objects[current][path[|path| - 1] := Leaf(v)]];
      return true;
    }

    /** The loop over the mappings of a definition that has passed the check. */
    method ExecuteMappings(ms: seq<Mapping>, input: Value) returns (ok: bool)
      requires ValidTargets(ms) && PrefixFree(ms) && Valid() && ModelAt(objects, 0) == map[]
      modifies this
      ensures Valid()
      ensures ok <==> Execute(map[], ms, input).Some?
      ensures ok ==> Strip(ModelAt(objects, 0)) == Execute(map[], ms, input).value
      ensures ok ==> AtTargets(ModelAt(objects, 0), ms)
    {
      for i := 0 to |ms|
        invariant Valid() && AtTargets(ModelAt(objects, 0), ms[..i])
        invariant Execute(map[], ms[..i], input) == Some(Strip(ModelAt(objects, 0)))
      {
        var m := ms[i];
        ghost var before := ModelAt(objects, 0);
        OneMoreMapping(ms, i, input, Strip(before));
        match Evaluate(m, input)
        case Raised => return false;
        case Skipped => MoreTargets(before, ms[..i], m);
        case Got(v) =>
          ApartFromEarlier(ms, i);
          NeverEnters(before, ms[..i], m);
          StripWrite(before, Segments(m.target), v);
          ok := WritePath(Segments(m.target), v);
          if !ok {
            return;
          }
          AtTargetsAfter(before, ms[..i], m, v);
      }
      assert ms[..|ms|] == ms;
      return true;
    }

    /** `executeTransformation` in place: the result is that of `Execute`, and no walk ever enters a value that
        the output shares with the input. */
    method ExecuteTransformation(ms: seq<Mapping>, input: Value) returns (ok: bool)
      requires ValidTargets(ms) && Valid() && ModelAt(objects, 0) == map[]
      modifies this
      ensures Valid()
      ensures ok <==> PrefixFree(ms) && forall i :: 0 <= i < |ms| ==> !RaisesError(ms[i], input)
      ensures ok ==> Execute(map[], ms, input) == Some(Strip(ModelAt(objects, 0)))
      ensures ok ==> Shows(Strip(ModelAt(objects, 0)), ms, input)
      ensures ok ==> AtTargets(ModelAt(objects, 0), ms)
    {
      ok := CheckTargets(ms);
      if ok {
        ok := ExecuteMappings(ms, input);
        ExecutionIsExact(ms, input);
      }
    }
  }

  /** One part of the path. */
  lemma PutStep(a: Objects, i: nat, path: seq<string>, n: nat, v: Value)
    requires Ordered(a) && i < |a| && n < |path| - 1
    ensures PutAt(a, i, path[n..], v)
            == if path[n] !in a[i] then PutAt(WithChild(a, i, path[n]), |a|, path[n + 1..], v)
               else if a[i][path[n]].Leaf? then None
               else PutAt(a, a[i][path[n]].id, path[n + 1..], v)
  {
    assert path[n..][0] == path[n] && path[n..][1..] == path[n + 1..];
  }

  lemma PutLast(a: Objects, i: nat, path: seq<string>, v: Value)
    requires Ordered(a) && i < |a| && path != []
    ensures PutAt(a, i, path[|path| - 1..], v) == Some(a[i := a[i][path[|path| - 1] := Leaf(v)]])
  {
  }

  lemma MoreTargets(o: Marks, done: seq<Mapping>, m: Mapping)
    requires AtTargets(o, done)
    ensures AtTargets(o, done + [m])
  {
    forall q | MappedAt(o, q) ensures exists i :: 0 <= i < |done + [m]| && Segments((done + [m])[i].target) == q {
      var i :| 0 <= i < |done| && Segments(done[i].target) == q;
      assert (done + [m])[i] == done[i];
    }
  }

  /** One more round of `Execute`; an error in it is an error of the whole. */
  lemma OneMoreMapping(ms: seq<Mapping>, i: nat, input: Value, output: Fields)
    requires i < |ms| && Execute(map[], ms[..i], input) == Some(output)
    ensures ms[..i + 1] == ms[..i] + [ms[i]]
    ensures Execute(map[], ms[..i + 1], input) == Apply(output, ms[i], input)
    ensures Apply(output, ms[i], input).None? ==> Execute(map[], ms, input).None?
  {
    assert ms[..i + 1] == ms[..i] + [ms[i]];
    ExecuteAppend(map[], ms[..i], [ms[i]], input);
    assert [ms[i]][1..] == [];
    ExecuteAppend(map[], ms[..i + 1], ms[i + 1..], input);
    assert ms == ms[..i + 1] + ms[i + 1..];
  }
}
