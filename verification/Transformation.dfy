/** The transformation runtime: dotted-path reads and writes, the schema's check on target paths, and the
    execution of a definition. */
module Transformation {
  import opened Domain
  import J = Canonical

  /** A JSON value as paths see it: an object, or something paths do not lead into. */
  datatype Value = Scalar(json: J.Json) | Object(fields: Fields)
  type Fields = map<string, Value>

  const NULL := Scalar(J.JNull)

  // ---------------------------------------------------------------- paths

  /** One more character at the front of the first part. */
  function Extend(c: char, parts: seq<string>): (r: seq<string>)
    requires parts != []
    ensures r != []
  {
    [[c] + parts[0]] + parts[1..]
  }

  /** `split(".")`. */
  function Split(s: string): (parts: seq<string>)
    ensures parts != []
  {
    if s == [] then [""]
    else
      var rest := Split(s[1..]);
      if s[0] == '.' then [""] + rest else Extend(s[0], rest)
  }

  function Drop2(path: string): string {
    if |path| >= 2 then path[2..] else ""
  }

  function Segments(path: string): (parts: seq<string>)
    ensures parts != []
  {
    Split(Drop2(path))
  }

  predicate PathChar(c: char) {
    'A' <= c <= 'Z' || 'a' <= c <= 'z' || '0' <= c <= '9' || c == '_' || c == '.'
  }

  /** The pattern of the contract: `$.` and at least one more character of a path. */
  predicate ValidPath(path: string) {
    |path| >= 3 && path[..2] == "$." && forall i :: 2 <= i < |path| ==> PathChar(path[i])
  }

  predicate StartsWith(s: string, prefix: string) {
    prefix <= s
  }

  /** The schema's test on two targets. */
  predicate Clash(a: string, b: string) {
    a == b || StartsWith(a, b + ".") || StartsWith(b, a + ".")
  }

  /** One path leads through the other. */
  predicate Related(p: seq<string>, q: seq<string>) {
    p <= q || q <= p
  }

  function Dotted(a: string, b: string): string {
    a + (['.'] + b)
  }

  lemma DottedTail(a: string, b: string)
    ensures a == [] ==> Dotted(a, b) == ['.'] + b
    ensures a != [] ==> Dotted(a, b)[0] == a[0] && Dotted(a, b)[1..] == Dotted(a[1..], b)
  {
  }

  lemma ExtendConcat(c: char, x: seq<string>, y: seq<string>)
    requires x != []
    ensures Extend(c, x + y) == Extend(c, x) + y
    ensures [""] + (x + y) == ([""] + x) + y
  {
    assert (x + y)[0] == x[0] && (x + y)[1..] == x[1..] + y;
  }

  lemma {:induction false} SplitConcat(a: string, b: string)
    ensures Split(Dotted(a, b)) == Split(a) + Split(b)
  {
    DottedTail(a, b);
    if a == [] {
      assert Dotted(a, b)[1..] == b;
    } else {
      SplitConcat(a[1..], b);
      ExtendConcat(a[0], Split(a[1..]), Split(b));
    }
  }

  /** The inverse of `Split`. */
  function Unsplit(parts: seq<string>): string
    requires parts != []
  {
    if |parts| == 1 then parts[0] else Dotted(parts[0], Unsplit(parts[1..]))
  }

  lemma {:induction false} UnsplitSplit(s: string)
    ensures Unsplit(Split(s)) == s
  {
    if s != [] {
      UnsplitSplit(s[1..]);
      var rest := Split(s[1..]);
      if s[0] == '.' {
        assert ([""] + rest)[1..] == rest;
      } else {
        assert ([[s[0]] + rest[0]] + rest[1..])[1..] == rest[1..];
      }
    }
  }

  lemma {:induction false} UnsplitConcat(a: seq<string>, b: seq<string>)
    requires a != [] && b != []
    ensures Unsplit(a + b) == Dotted(Unsplit(a), Unsplit(b))
  {
    assert (a + b)[1..] == a[1..] + b;
    if |a| > 1 {
      UnsplitConcat(a[1..], b);
    } else {
      assert a[1..] + b == b;
    }
  }

  /** One dotted string continues the other exactly when its parts do. */
  lemma DottedPrefix(a: string, b: string)
    ensures StartsWith(b, a + ".") <==> Split(a) < Split(b)
  {
    if StartsWith(b, a + ".") {
      var rest := b[|a| + 1..];
      assert b == Dotted(a, rest);
      SplitConcat(a, rest);
    }
    if Split(a) < Split(b) {
      var rest := Split(b)[|Split(a)|..];
      assert Split(b) == Split(a) + rest;
      UnsplitConcat(Split(a), rest);
      UnsplitSplit(a);
      UnsplitSplit(b);
      assert b == Dotted(a, Unsplit(rest));
    }
  }

  lemma WithoutRoot(p: string, q: string)
    requires ValidPath(p) && ValidPath(q)
    ensures StartsWith(q, p + ".") <==> StartsWith(q[2..], p[2..] + ".")
    ensures p == q <==> p[2..] == q[2..]
  {
    assert p == p[..2] + p[2..] && q == q[..2] + q[2..];
    assert (p + ".")[2..] == p[2..] + ".";
    assert p + "." == p[..2] + (p[2..] + ".");
  }

  /** The string test of the schema says exactly whether one path leads through the other. */
  lemma ClashIsRelated(p: string, q: string)
    requires ValidPath(p) && ValidPath(q)
    ensures Clash(p, q) <==> Related(Segments(p), Segments(q))
  {
    WithoutRoot(p, q);
    WithoutRoot(q, p);
    DottedPrefix(p[2..], q[2..]);
    DottedPrefix(q[2..], p[2..]);
    UnsplitSplit(p[2..]);
    UnsplitSplit(q[2..]);
    if Related(Segments(p), Segments(q)) && |Segments(p)| == |Segments(q)| {
      assert Segments(p) == Segments(q);
    }
  }

  // ---------------------------------------------------------------- reading

  /** What a path leads to; None is JavaScript's undefined. */
  function Read(v: Value, path: seq<string>): Option<Value> {
    if path == [] then Some(v)
    else if v.Scalar? || path[0] !in v.fields then None
    else Read(v.fields[path[0]], path[1..])
  }

  /** `readPath`: the loop stops at the first segment that leads nowhere. */
  method ReadPath(value: Value, path: string) returns (r: Option<Value>)
    ensures r == Read(value, Segments(path))
  {
    var parts := Segments(path);
    r := Some(value);
    for i := 0 to |parts|
      invariant r.Some? ==> Read(value, parts) == Read(r.value, parts[i..])
      invariant r.None? ==> Read(value, parts) == None
    {
      if r.None? || r.value.Scalar? {
        return None;
      }
      r := if parts[i] in r.value.fields then Some(r.value.fields[parts[i]]) else None;
    }
  }

  // ---------------------------------------------------------------- writing

  /** `writePath`; None is the conflict error. */
  function Write(output: Fields, path: seq<string>, v: Value): Option<Fields>
    requires path != []
    decreases |path|
  {
    var k := path[0];
    if |path| == 1 then Some(output[k := v])
    else if k in output && output[k].Scalar? then None
    else
      var child := Write(if k in output then output[k].fields else map[], path[1..], v);
      if child.None? then None else Some(output[k := Object(child.value)])
  }

  /** The three things a path can see of a write: what was written, an object on the way to it, or
      what was there before. */
  lemma {:induction false} ReadAfterWrite(output: Fields, p: seq<string>, v: Value, q: seq<string>)
    requires p != [] && q != [] && Write(output, p, v).Some?
    ensures p <= q ==> Read(Object(Write(output, p, v).value), q) == Read(v, q[|p|..])
    ensures q < p ==> Read(Object(Write(output, p, v).value), q).Some?
                      && Read(Object(Write(output, p, v).value), q).value.Object?
    ensures !Related(p, q) ==> Read(Object(Write(output, p, v).value), q) == Read(Object(output), q)
    decreases |p|
  {
    var k := p[0];
    var after := Write(output, p, v).value;
    if q[0] == k {
      assert p == [k] + p[1..] && q == [k] + q[1..];
      if |p| == 1 {
        assert q[|p|..] == q[1..];
      } else {
        var inner := if k in output then output[k].fields else map[];
        if |q| > 1 {
          ReadAfterWrite(inner, p[1..], v, q[1..]);
          if p <= q { assert q[1..][|p[1..]|..] == q[|p|..]; }
          assert Related(p, q) <==> Related(p[1..], q[1..]);
        }
      }
    }
  }

  /** A write fails exactly when something other than an object is in its way. */
  lemma {:induction false} WriteFails(output: Fields, p: seq<string>, v: Value)
    requires p != []
    ensures Write(output, p, v).None? <==>
              exists n :: 0 < n < |p| && Read(Object(output), p[..n]).Some? && Read(Object(output), p[..n]).value.Scalar?
    decreases |p|
  {
    var k := p[0];
    if |p| > 1 {
      assert p[..1] == [k];
      if k in output && output[k].Scalar? {
        assert Read(Object(output), p[..1]) == Some(output[k]);
      } else {
        var inner := if k in output then output[k].fields else map[];
        WriteFails(inner, p[1..], v);
        forall n | 0 < n < |p|
          ensures n > 1 && k in output ==> Read(Object(output), p[..n]) == Read(Object(inner), p[1..][..n - 1])
          ensures k !in output ==> Read(Object(output), p[..n]).None?
        {
          assert p[..n][1..] == p[1..][..n - 1];
        }
        if Write(inner, p[1..], v).None? {
          var n :| 0 < n < |p[1..]| && Read(Object(inner), p[1..][..n]).Some? && Read(Object(inner), p[1..][..n]).value.Scalar?;
          assert p[..n + 1][1..] == p[1..][..n];
          assert Read(Object(output), p[..n + 1]) == Read(Object(inner), p[1..][..n]);
        }
      }
    }
  }

  function WriteBoth(output: Fields, p: seq<string>, v: Value, q: seq<string>, w: Value): Option<Fields>
    requires p != [] && q != []
  {
    var first := Write(output, p, v);
    if first.None? then None else Write(first.value, q, w)
  }

  /** Writes to paths that do not lead through each other commute, conflicts included. */
  lemma {:induction false} WritesCommute(output: Fields, p: seq<string>, v: Value, q: seq<string>, w: Value)
    requires p != [] && q != [] && !Related(p, q)
    ensures WriteBoth(output, p, v, q, w) == WriteBoth(output, q, w, p, v)
    decreases |p|
  {
    var k := p[0];
    assert p == [k] + p[1..] && q == [q[0]] + q[1..];
    if q[0] == k {
      assert |p| > 1 && |q| > 1 && !Related(p[1..], q[1..]);
      if k !in output || output[k].Object? {
        var inner := if k in output then output[k].fields else map[];
        WritesCommute(inner, p[1..], v, q[1..], w);
        SameChild(output, k, inner, p, v, q, w);
        SameChild(output, k, inner, q, w, p, v);
      }
    } else if Write(output, p, v).Some? && Write(output, q, w).Some? {
      var a, b := Write(output, p, v).value[k], Write(output, q, w).value[q[0]];
      assert output[k := a][q[0] := b] == output[q[0] := b][k := a];
    }
  }

  lemma SameChild(output: Fields, k: string, inner: Fields, p: seq<string>, v: Value, q: seq<string>, w: Value)
    requires |p| > 1 && |q| > 1 && p[0] == k && q[0] == k
    requires if k in output then output[k] == Object(inner) else inner == map[]
    ensures WriteBoth(output, p, v, q, w)
            == var r := WriteBoth(inner, p[1..], v, q[1..], w);
               if r.None? then None else Some(output[k := Object(r.value)])
  {
    var first := Write(inner, p[1..], v);
    if first.Some? {
      var r := WriteBoth(inner, p[1..], v, q[1..], w);
      if r.Some? {
        assert output[k := Object(first.value)][k := Object(r.value)] == output[k := Object(r.value)];
      }
    }
  }

  // ---------------------------------------------------------------- definitions

  /** A source path, or else a literal. */
  datatype Operand = Operand(source: Option<string>, literal: Option<Value>)

  /** The result of one of the string or enumeration transforms, which are left uninterpreted. */
  datatype Outcome = Converted(value: Value) | Refused

  datatype Rule =
    | Direct(from: Operand, transform: Value -> Outcome)
    | Concat(parts: seq<Operand>, separator: string)

  datatype Mapping = Mapping(target: string, required: bool, rule: Rule)

  function Fetch(input: Value, from: Operand): Option<Value> {
    if from.source.Some? then Read(input, Segments(from.source.value)) else from.literal
  }

  predicate Missing(v: Option<Value>) {
    v.None? || v.value == NULL
  }

  /** The value a mapping comes to, whether it is skipped, or whether it raises an error. */
  datatype Result = Got(value: Value) | Skipped | Raised

  function Text(v: Value): Option<string> {
    match v
    case Scalar(JStr(s)) => Some(s)
    case _ => None
  }

  /** The joined parts, if all of them are strings. */
  function Joined(input: Value, parts: seq<Operand>, separator: string): Option<string> {
    if parts == [] then Some("")
    else
      var v := Fetch(input, parts[0]);
      if v.None? || Text(v.value).None? then None
      else if |parts| == 1 then Text(v.value)
      else
        var rest := Joined(input, parts[1..], separator);
        if rest.None? then None else Some(Text(v.value).value + separator + rest.value)
  }

  predicate SomeMissing(input: Value, parts: seq<Operand>) {
    exists i :: 0 <= i < |parts| && Missing(Fetch(input, parts[i]))
  }

  function Evaluate(m: Mapping, input: Value): Result {
    var r :=
      match m.rule
      case Direct(from, transform) =>
        var v := Fetch(input, from);
        if Missing(v) then Skipped
        else (match transform(v.value)
              case Converted(w) => if w == NULL then Skipped else Got(w)
              case Refused => Raised)
      case Concat(parts, separator) =>
        if SomeMissing(input, parts) then Skipped
        else
          var text := Joined(input, parts, separator);
          if text.None? then Raised else Got(Scalar(J.JStr(text.value)));
    if r.Skipped? && m.required then Raised else r
  }

  // ---------------------------------------------------------------- what a mapping comes to

  /** An operand reads its source path, or else has its literal, and is there unless it is null. */
  predicate Present(input: Value, o: Operand, v: Value) {
    v != Scalar(J.JNull)
    && (if o.source.Some? then Read(input, Segments(o.source.value)) == Some(v) else o.literal == Some(v))
  }

  /** The texts one after the other, from the left, with the separator between them. */
  function Glue(texts: seq<string>, separator: string): string {
    if texts == [] then ""
    else if |texts| == 1 then texts[0]
    else Glue(texts[..|texts| - 1], separator) + separator + texts[|texts| - 1]
  }

  /** Gluing two lists is gluing each and putting the separator between. */
  lemma {:induction false} GlueConcat(a: seq<string>, b: seq<string>, separator: string)
    requires a != [] && b != []
    ensures Glue(a + b, separator) == Glue(a, separator) + separator + Glue(b, separator)
    decreases |b|
  {
    var all, init, last := a + b, b[..|b| - 1], b[|b| - 1];
    assert all[..|all| - 1] == a + init && all[|all| - 1] == last;
    if init == [] {
      assert a + init == a;
    } else {
      GlueConcat(a, init, separator);
      assert Glue(all, separator) == Glue(a, separator) + separator + Glue(init, separator) + separator + last;
    }
  }

  ghost predicate IsPresent(input: Value, o: Operand) {
    exists v :: Present(input, o, v)
  }

  ghost predicate AllPresent(input: Value, parts: seq<Operand>) {
    forall i :: 0 <= i < |parts| ==> IsPresent(input, parts[i])
  }

  /** The parts are these strings. */
  ghost predicate PartsAre(input: Value, parts: seq<Operand>, texts: seq<string>) {
    |texts| == |parts| && forall i :: 0 <= i < |parts| ==> Present(input, parts[i], Scalar(J.JStr(texts[i])))
  }

  /** A mapping writes this value to its target. */
  ghost predicate Yields(m: Mapping, input: Value, w: Value) {
    match m.rule
    case Direct(from, transform) =>
      w != Scalar(J.JNull) && exists v :: Present(input, from, v) && transform(v) == Converted(w)
    case Concat(parts, separator) =>
      exists texts :: PartsAre(input, parts, texts) && w == Scalar(J.JStr(Glue(texts, separator)))
  }

  /** A mapping raises an error: what it needs is missing, its transform refuses or comes to null though a value
      is required, or a part to be joined is not a string. */
  ghost predicate RaisesError(m: Mapping, input: Value) {
    match m.rule
    case Direct(from, transform) =>
      || (m.required && !IsPresent(input, from))
      || (exists v :: Present(input, from, v)
                      && (transform(v) == Refused || (m.required && transform(v) == Converted(Scalar(J.JNull)))))
    case Concat(parts, separator) =>
      if AllPresent(input, parts)
      then exists i, v :: 0 <= i < |parts| && Present(input, parts[i], v) && !(v.Scalar? && v.json.JStr?)
      else m.required
  }

  lemma PresentIs(input: Value, o: Operand, v: Value)
    ensures Present(input, o, v) <==> Fetch(input, o) == Some(v) && !Missing(Fetch(input, o))
  {
  }

  lemma MissingIs(input: Value, parts: seq<Operand>)
    ensures SomeMissing(input, parts) <==> !AllPresent(input, parts)
  {
    forall i | 0 <= i < |parts| ensures Missing(Fetch(input, parts[i])) <==> !IsPresent(input, parts[i]) {
      if !Missing(Fetch(input, parts[i])) {
        PresentIs(input, parts[i], Fetch(input, parts[i]).value);
      }
    }
  }

  lemma {:induction false} JoinedIsGlued(input: Value, parts: seq<Operand>, texts: seq<string>, separator: string)
    requires PartsAre(input, parts, texts)
    ensures Joined(input, parts, separator) == Some(Glue(texts, separator))
    decreases |parts|
  {
    if parts != [] {
      PresentIs(input, parts[0], Scalar(J.JStr(texts[0])));
      if |parts| > 1 {
        JoinedIsGlued(input, parts[1..], texts[1..], separator);
        GlueConcat([texts[0]], texts[1..], separator);
        assert [texts[0]] + texts[1..] == texts;
      }
    }
  }

  /** If joining is possible at all, then of strings. */
  lemma {:induction false} JoinedTexts(input: Value, parts: seq<Operand>, separator: string) returns (texts: seq<string>)
    requires !SomeMissing(input, parts) && Joined(input, parts, separator).Some?
    ensures PartsAre(input, parts, texts)
    decreases |parts|
  {
    if parts == [] {
      texts := [];
    } else {
      var v := Fetch(input, parts[0]).value;
      PresentIs(input, parts[0], v);
      var rest: seq<string> := [];
      if |parts| > 1 {
        assert forall i :: 0 <= i < |parts[1..]| ==> parts[1..][i] == parts[i + 1];
        rest := JoinedTexts(input, parts[1..], separator);
      }
      texts := [Text(v).value] + rest;
      forall i | 0 <= i < |parts| ensures Present(input, parts[i], Scalar(J.JStr(texts[i]))) {
        if i > 0 { assert parts[i] == parts[1..][i - 1] && texts[i] == rest[i - 1]; }
      }
    }
  }

  lemma {:induction false} NotJoined(input: Value, parts: seq<Operand>, separator: string) returns (i: nat)
    requires Joined(input, parts, separator).None? && !SomeMissing(input, parts)
    ensures i < |parts| && Fetch(input, parts[i]).Some? && Text(Fetch(input, parts[i]).value).None?
    decreases |parts|
  {
    assert !Missing(Fetch(input, parts[0]));
    if Text(Fetch(input, parts[0]).value).None? {
      i := 0;
    } else {
      assert forall k :: 0 <= k < |parts[1..]| ==> parts[1..][k] == parts[k + 1];
      var j := NotJoined(input, parts[1..], separator);
      i := j + 1;
    }
  }

  /** Exact: what a mapping yields and when it raises an error. */
  lemma EvaluateMeans(m: Mapping, input: Value, w: Value)
    ensures Evaluate(m, input).Raised? <==> RaisesError(m, input)
    ensures Evaluate(m, input) == Got(w) <==> Yields(m, input, w)
  {
    match m.rule
    case Direct(from, transform) =>
      forall v ensures Present(input, from, v) <==> Fetch(input, from) == Some(v) && !Missing(Fetch(input, from)) {
        PresentIs(input, from, v);
      }
      if !Missing(Fetch(input, from)) {
        assert Present(input, from, Fetch(input, from).value);
      }
    case Concat(parts, separator) => ConcatMeans(m, input, w, parts, separator);
  }

  lemma ConcatMeans(m: Mapping, input: Value, w: Value, parts: seq<Operand>, separator: string)
    requires m.rule == Concat(parts, separator)
    ensures Evaluate(m, input).Raised? <==> RaisesError(m, input)
    ensures Evaluate(m, input) == Got(w) <==> Yields(m, input, w)
  {
    MissingIs(input, parts);
    if exists texts :: PartsAre(input, parts, texts) {
      var texts :| PartsAre(input, parts, texts);
      StringsOnly(input, parts, texts);
      JoinedIsGlued(input, parts, texts, separator);
      forall other | PartsAre(input, parts, other) ensures other == texts {
        SameParts(input, parts, texts, other);
      }
    } else if !SomeMissing(input, parts) {
      if Joined(input, parts, separator).Some? {
        var texts := JoinedTexts(input, parts, separator);
      } else {
        var i := NotJoined(input, parts, separator);
        assert !Missing(Fetch(input, parts[i]));
        PresentIs(input, parts[i], Fetch(input, parts[i]).value);
      }
    }
  }

  lemma StringsOnly(input: Value, parts: seq<Operand>, texts: seq<string>)
    requires PartsAre(input, parts, texts)
    ensures AllPresent(input, parts)
    ensures forall i, v :: 0 <= i < |parts| && Present(input, parts[i], v) ==> v == Scalar(J.JStr(texts[i]))
  {
    forall i | 0 <= i < |parts| ensures IsPresent(input, parts[i]) {
      assert Present(input, parts[i], Scalar(J.JStr(texts[i])));
    }
  }

  lemma SameParts(input: Value, parts: seq<Operand>, a: seq<string>, b: seq<string>)
    requires PartsAre(input, parts, a) && PartsAre(input, parts, b)
    ensures a == b
  {
    forall i | 0 <= i < |a| ensures a[i] == b[i] {
      assert Present(input, parts[i], Scalar(J.JStr(a[i]))) && Present(input, parts[i], Scalar(J.JStr(b[i])));
    }
  }

  // ---------------------------------------------------------------- definitions that pass the check

  /** No target leads through another: what the schema demands. */
  predicate PrefixFree(ms: seq<Mapping>) {
    forall i, j :: 0 <= i < j < |ms| ==> !Clash(ms[i].target, ms[j].target)
  }

  predicate ValidTargets(ms: seq<Mapping>) {
    forall i :: 0 <= i < |ms| ==> ValidPath(ms[i].target)
  }

  /** The refinement of the schema: targets seen so far are collected in a set. */
  method CheckTargets(ms: seq<Mapping>) returns (ok: bool)
    ensures ok <==> PrefixFree(ms)
  {
    var targets: set<string> := {};
    ok := true;
    for i := 0 to |ms|
      invariant forall t :: t in targets <==> exists j :: 0 <= j < i && ms[j].target == t
      invariant ok <==> PrefixFree(ms[..i])
    {
      if exists t :: t in targets && Clash(t, ms[i].target) {
        ok := false;
      }
      targets := targets + {ms[i].target};
    }
    assert ms[..|ms|] == ms;
  }

  /** One round of the loop of `executeTransformation`; None is an error. */
  function Apply(output: Fields, m: Mapping, input: Value): Option<Fields> {
    match Evaluate(m, input)
    case Got(v) => Write(output, Segments(m.target), v)
    case Skipped => Some(output)
    case Raised => None
  }

  function Execute(output: Fields, ms: seq<Mapping>, input: Value): Option<Fields>
    decreases |ms|
  {
    if ms == [] then Some(output)
    else
      var next := Apply(output, ms[0], input);
      if next.None? then None else Execute(next.value, ms[1..], input)
  }

  lemma {:induction false} ExecuteAppend(output: Fields, ms: seq<Mapping>, rest: seq<Mapping>, input: Value)
    ensures Execute(output, ms + rest, input)
            == var r := Execute(output, ms, input);
               if r.None? then None else Execute(r.value, rest, input)
    decreases |ms|
  {
    if ms == [] {
      assert ms + rest == rest;
    } else {
      assert (ms + rest)[1..] == ms[1..] + rest;
      var next := Apply(output, ms[0], input);
      if next.Some? { ExecuteAppend(next.value, ms[1..], rest, input); }
    }
  }

  // ---------------------------------------------------------------- what an output shows

  /** A path shows something only where an executed mapping has put it: it leads to, into, or towards
      the target of one that was not skipped. */
  ghost predicate Explained(output: Fields, done: seq<Mapping>, input: Value) {
    forall q :: q != [] && Read(Object(output), q).Some? ==>
      exists i :: 0 <= i < |done| && Evaluate(done[i], input).Got? && Related(Segments(done[i].target), q)
  }

  /** Every executed mapping can be read back. */
  ghost predicate ReadsBack(output: Fields, done: seq<Mapping>, input: Value) {
    forall i :: 0 <= i < |done| ==>
      && !Evaluate(done[i], input).Raised?
      && (Evaluate(done[i], input).Got? ==>
            Read(Object(output), Segments(done[i].target)) == Some(Evaluate(done[i], input).value))
  }

  ghost predicate OutputOk(output: Fields, done: seq<Mapping>, input: Value) {
    Explained(output, done, input) && ReadsBack(output, done, input)
  }

  /** The target of a later mapping is unrelated to those of earlier ones. */
  predicate Apart(done: seq<Mapping>, m: Mapping) {
    forall i :: 0 <= i < |done| ==> !Related(Segments(done[i].target), Segments(m.target))
  }

  /** Nothing is in the way of a target that leads through no other: the walk passes only objects that
      earlier walks have made, never a mapped value. */
  lemma NoConflict(output: Fields, done: seq<Mapping>, m: Mapping, v: Value, input: Value)
    requires OutputOk(output, done, input) && Apart(done, m)
    ensures Write(output, Segments(m.target), v).Some?
    ensures Read(Object(output), Segments(m.target)).None?
  {
    var p := Segments(m.target);
    if Write(output, p, v).None? {
      WriteFails(output, p, v);
      var n :| 0 < n < |p| && Read(Object(output), p[..n]).Some? && Read(Object(output), p[..n]).value.Scalar?;
      var i := Explain(output, done, input, p[..n]);
      TowardsTarget(output, p, n, Segments(done[i].target));
    }
    if Read(Object(output), p).Some? {
      var i := Explain(output, done, input, p);
    }
  }

  lemma Explain(output: Fields, done: seq<Mapping>, input: Value, q: seq<string>) returns (i: nat)
    requires OutputOk(output, done, input) && q != [] && Read(Object(output), q).Some?
    ensures i < |done| && Related(Segments(done[i].target), q)
    ensures Read(Object(output), Segments(done[i].target)).Some?
  {
    i :| 0 <= i < |done| && Evaluate(done[i], input).Got? && Related(Segments(done[i].target), q);
  }

  lemma PrefixOfPrefix(q: seq<string>, p: seq<string>, n: nat)
    requires n <= |p|
    ensures q <= p[..n] ==> q <= p
    ensures p[..n] <= q && |q| <= n ==> q <= p
  {
  }

  /** A prefix of one target that is related to an unrelated target leads to an object. */
  lemma TowardsTarget(output: Fields, p: seq<string>, n: nat, q: seq<string>)
    requires 0 < n < |p| && Related(q, p[..n]) && !Related(q, p) && Read(Object(output), q).Some?
    ensures Read(Object(output), p[..n]).Some? && Read(Object(output), p[..n]).value.Object?
  {
    PrefixOfPrefix(q, p, n);
    ReadThrough(Object(output), p[..n], q);
  }

  /** What a path leads through is an object. */
  lemma {:induction false} ReadThrough(v: Value, p: seq<string>, q: seq<string>)
    requires p < q && Read(v, q).Some?
    ensures Read(v, p).Some? && Read(v, p).value.Object?
    decreases |p|
  {
    if p != [] {
      ReadThrough(v.fields[p[0]], p[1..], q[1..]);
    }
  }

  lemma ApplyKeeps(output: Fields, done: seq<Mapping>, m: Mapping, input: Value)
    requires OutputOk(output, done, input) && Apart(done, m) && !Evaluate(m, input).Raised?
    ensures Apply(output, m, input).Some?
    ensures OutputOk(Apply(output, m, input).value, done + [m], input)
  {
    var p := Segments(m.target);
    match Evaluate(m, input)
    case Skipped =>
      forall q | q != [] && Read(Object(output), q).Some?
        ensures exists i :: 0 <= i < |done + [m]| && Evaluate((done + [m])[i], input).Got?
                            && Related(Segments((done + [m])[i].target), q)
      {
        var i :| 0 <= i < |done| && Evaluate(done[i], input).Got? && Related(Segments(done[i].target), q);
        assert (done + [m])[i] == done[i];
      }
    case Got(v) =>
      NoConflict(output, done, m, v, input);
      var after := Write(output, p, v).value;
      forall q | q != [] && Read(Object(after), q).Some?
        ensures exists i :: 0 <= i < |done + [m]| && Evaluate((done + [m])[i], input).Got?
                            && Related(Segments((done + [m])[i].target), q)
      {
        ReadAfterWrite(output, p, v, q);
        if Related(p, q) {
          assert (done + [m])[|done|] == m;
        } else {
          var i :| 0 <= i < |done| && Evaluate(done[i], input).Got? && Related(Segments(done[i].target), q);
          assert (done + [m])[i] == done[i];
        }
      }
      forall i | 0 <= i < |done + [m]| && Evaluate((done + [m])[i], input).Got?
        ensures Read(Object(after), Segments((done + [m])[i].target)) == Some(Evaluate((done + [m])[i], input).value)
      {
        ReadAfterWrite(output, p, v, Segments((done + [m])[i].target));
      }
  }

  lemma ApartFromEarlier(ms: seq<Mapping>, i: nat)
    requires PrefixFree(ms) && ValidTargets(ms) && i < |ms|
    ensures Apart(ms[..i], ms[i])
  {
    forall j | 0 <= j < i ensures !Related(Segments(ms[j].target), Segments(ms[i].target)) {
      ClashIsRelated(ms[j].target, ms[i].target);
    }
  }

  lemma SkippedIsAbsent(output: Fields, ms: seq<Mapping>, input: Value)
    requires OutputOk(output, ms, input) && PrefixFree(ms) && ValidTargets(ms)
    ensures forall i :: 0 <= i < |ms| && Evaluate(ms[i], input).Skipped? ==>
              Read(Object(output), Segments(ms[i].target)).None?
  {
    forall i | 0 <= i < |ms| && Evaluate(ms[i], input).Skipped?
      ensures Read(Object(output), Segments(ms[i].target)).None?
    {
      if Read(Object(output), Segments(ms[i].target)).Some? {
        var j :| 0 <= j < |ms| && Evaluate(ms[j], input).Got? && Related(Segments(ms[j].target), Segments(ms[i].target));
        ClashIsRelated(ms[j].target, ms[i].target);
      }
    }
  }

  predicate SomeRaised(ms: seq<Mapping>, input: Value) {
    exists i :: 0 <= i < |ms| && Evaluate(ms[i], input).Raised?
  }

  /** After the first mappings: an error, if one of them has raised it, or an output that shows just them. */
  lemma {:induction false} ExecutedSoFar(ms: seq<Mapping>, n: nat, input: Value)
    requires ValidTargets(ms) && PrefixFree(ms) && n <= |ms|
    ensures Execute(map[], ms[..n], input).None? <==> SomeRaised(ms[..n], input)
    ensures Execute(map[], ms[..n], input).Some? ==> OutputOk(Execute(map[], ms[..n], input).value, ms[..n], input)
  {
    if n > 0 {
      ExecutedSoFar(ms, n - 1, input);
      var m, done := ms[n - 1], ms[..n - 1];
      assert ms[..n] == done + [m];
      ExecuteAppend(map[], done, [m], input);
      assert [m][1..] == [];
      ApartFromEarlier(ms, n - 1);
      var before := Execute(map[], done, input);
      if before.Some? && !Evaluate(m, input).Raised? {
        ApplyKeeps(before.value, done, m, input);
        assert !SomeRaised(done, input);
      } else if before.None? {
        var i :| 0 <= i < |done| && Evaluate(done[i], input).Raised?;
        assert Evaluate(ms[..n][i], input).Raised?;
      } else {
        assert Evaluate(ms[..n][n - 1], input).Raised?;
      }
    }
  }

  /** What an execution shows: every target as the value its mapping yields, and nothing elsewhere. */
  ghost predicate Shows(output: Fields, ms: seq<Mapping>, input: Value) {
    && (forall i, w :: 0 <= i < |ms| ==>
          (Read(Object(output), Segments(ms[i].target)) == Some(w) <==> Yields(ms[i], input, w)))
    && (forall q :: q != [] && Read(Object(output), q).Some? ==>
          exists i, w :: 0 <= i < |ms| && Yields(ms[i], input, w) && Related(Segments(ms[i].target), q))
  }

  /** A definition that passes the check never runs into a conflict: it fails exactly when one of its mappings
      raises an error of its own. On success every target reads back as the value its mapping yields, as
      absent if it yields none, and nothing else has been written. */
  lemma ExecutionIsExact(ms: seq<Mapping>, input: Value)
    requires ValidTargets(ms) && PrefixFree(ms)
    ensures Execute(map[], ms, input).None? <==> exists i :: 0 <= i < |ms| && RaisesError(ms[i], input)
    ensures Execute(map[], ms, input).Some? ==> Shows(Execute(map[], ms, input).value, ms, input)
  {
    assert ms[..|ms|] == ms;
    ExecutedSoFar(ms, |ms|, input);
    forall i | 0 <= i < |ms| ensures Evaluate(ms[i], input).Raised? <==> RaisesError(ms[i], input) {
      EvaluateMeans(ms[i], input, NULL);
    }
    if Execute(map[], ms, input).Some? {
      OutputShows(Execute(map[], ms, input).value, ms, input);
    }
  }

  lemma OutputShows(output: Fields, ms: seq<Mapping>, input: Value)
    requires OutputOk(output, ms, input) && ValidTargets(ms) && PrefixFree(ms)
    ensures Shows(output, ms, input)
  {
    SkippedIsAbsent(output, ms, input);
    forall i, w | 0 <= i < |ms|
      ensures Read(Object(output), Segments(ms[i].target)) == Some(w) <==> Yields(ms[i], input, w)
    {
      EvaluateMeans(ms[i], input, w);
    }
    forall q | q != [] && Read(Object(output), q).Some?
      ensures exists i, w :: 0 <= i < |ms| && Yields(ms[i], input, w) && Related(Segments(ms[i].target), q)
    {
      var i :| 0 <= i < |ms| && Evaluate(ms[i], input).Got? && Related(Segments(ms[i].target), q);
      EvaluateMeans(ms[i], input, Evaluate(ms[i], input).value);
    }
  }

  // ---------------------------------------------------------------- order independence

  predicate Unrelated(a: Mapping, b: Mapping) {
    !Related(Segments(a.target), Segments(b.target))
  }

  lemma AppliesCommute(output: Fields, a: Mapping, b: Mapping, rest: seq<Mapping>, input: Value)
    requires Unrelated(a, b)
    ensures Execute(output, [a, b] + rest, input) == Execute(output, [b, a] + rest, input)
  {
    assert ([a, b] + rest)[1..] == [b] + rest && ([b] + rest)[1..] == rest;
    assert ([b, a] + rest)[1..] == [a] + rest && ([a] + rest)[1..] == rest;
    if Evaluate(a, input).Got? && Evaluate(b, input).Got? {
      WritesCommute(output, Segments(a.target), Evaluate(a, input).value,
                    Segments(b.target), Evaluate(b, input).value);
    }
  }

  lemma {:induction false} MoveToFront(output: Fields, before: seq<Mapping>, m: Mapping, rest: seq<Mapping>, input: Value)
    requires forall x :: x in before ==> Unrelated(x, m)
    ensures Execute(output, before + [m] + rest, input) == Execute(output, [m] + (before + rest), input)
    decreases |before|
  {
    if before == [] {
      assert before + [m] + rest == [m] + (before + rest);
    } else {
      var a, tail := before[0], before[1..];
      assert before + [m] + rest == [a] + (tail + [m] + rest);
      assert ([a] + (tail + [m] + rest))[1..] == tail + [m] + rest;
      var next := Apply(output, a, input);
      if next.Some? { MoveToFront(next.value, tail, m, rest, input); }
      assert ([a] + ([m] + (tail + rest)))[1..] == [m] + (tail + rest);
      assert [a] + ([m] + (tail + rest)) == [a, m] + (tail + rest);
      AppliesCommute(output, a, m, tail + rest, input);
      assert [m] + (before + rest) == [m, a] + (tail + rest);
    }
  }

  ghost predicate AllUnrelated(ms: seq<Mapping>) {
    forall i, j :: 0 <= i < j < |ms| ==> Unrelated(ms[i], ms[j])
  }

  lemma RemoveOne<T>(before: seq<T>, m: T, rest: seq<T>, tail: seq<T>)
    requires multiset([m] + tail) == multiset(before + [m] + rest)
    ensures multiset(before + rest) == multiset(tail)
  {
    assert multiset(before + [m] + rest) == multiset(before) + multiset{m} + multiset(rest);
    assert multiset([m] + tail) == multiset{m} + multiset(tail);
    var others := multiset(before) + multiset(rest);
    assert multiset(tail) == multiset{m} + multiset(tail) - multiset{m};
    assert others == others + multiset{m} - multiset{m};
    assert multiset(before + rest) == others;
  }

  /** Where the first of the mappings is found in the other order. */
  lemma Find<T>(m: T, tail: seq<T>, ns: seq<T>) returns (k: nat)
    requires multiset([m] + tail) == multiset(ns)
    ensures k < |ns| && ns == ns[..k] + [m] + ns[k + 1..]
    ensures multiset(ns[..k] + ns[k + 1..]) == multiset(tail)
  {
    assert m in multiset([m] + tail);
    assert m in ns;
    k :| 0 <= k < |ns| && ns[k] == m;
    assert ns == ns[..k] + [m] + ns[k + 1..];
    RemoveOne(ns[..k], m, ns[k + 1..], tail);
  }

  lemma ExecuteFirst(output: Fields, m: Mapping, a: seq<Mapping>, b: seq<Mapping>, input: Value)
    requires Apply(output, m, input).Some? ==>
               Execute(Apply(output, m, input).value, a, input) == Execute(Apply(output, m, input).value, b, input)
    ensures Execute(output, [m] + a, input) == Execute(output, [m] + b, input)
  {
    assert ([m] + a)[1..] == a && ([m] + b)[1..] == b;
  }

  /** Any order of mappings whose targets are unrelated has the same result, errors included. */
  lemma {:induction false} OrderIsIrrelevant(output: Fields, ms: seq<Mapping>, ns: seq<Mapping>, input: Value)
    requires AllUnrelated(ms) && multiset(ms) == multiset(ns)
    ensures Execute(output, ms, input) == Execute(output, ns, input)
    ensures AllUnrelated(ns)
    decreases |ms|
  {
    if ms == [] {
      assert |multiset(ns)| == 0;
    } else {
      var m, tail := ms[0], ms[1..];
      assert ms == [m] + tail;
      var k := Find(m, tail, ns);
      var before, rest := ns[..k], ns[k + 1..];
      OthersUnrelated(m, tail, before + rest);
      var next := Apply(output, m, input);
      OrderIsIrrelevant(if next.Some? then next.value else output, tail, before + rest, input);
      ExecuteFirst(output, m, tail, before + rest, input);
      MoveToFront(output, before, m, rest, input);
      InsertUnrelated(before, m, rest);
    }
  }

  lemma OthersUnrelated(m: Mapping, tail: seq<Mapping>, others: seq<Mapping>)
    requires AllUnrelated([m] + tail) && multiset(tail) == multiset(others)
    ensures forall x :: x in others ==> Unrelated(x, m) && Unrelated(m, x)
    ensures AllUnrelated(tail)
  {
    forall x | x in others ensures Unrelated(x, m) && Unrelated(m, x) {
      assert x in multiset(tail);
      var i :| 0 <= i < |tail| && tail[i] == x;
      assert ([m] + tail)[i + 1] == x && ([m] + tail)[0] == m;
    }
    forall i, j | 0 <= i < j < |tail| ensures Unrelated(tail[i], tail[j]) {
      assert tail[i] == ([m] + tail)[i + 1] && tail[j] == ([m] + tail)[j + 1];
    }
  }

  lemma InsertUnrelated(before: seq<Mapping>, m: Mapping, rest: seq<Mapping>)
    requires AllUnrelated(before + rest)
    requires forall x :: x in before + rest ==> Unrelated(x, m) && Unrelated(m, x)
    ensures AllUnrelated(before + [m] + rest)
  {
    var all, others := before + [m] + rest, before + rest;
    forall i, j | 0 <= i < j < |all| ensures Unrelated(all[i], all[j]) {
      var x := if i < |before| then i else i - 1;
      var y := if j < |before| then j else j - 1;
      if i != |before| { assert all[i] == others[x] && others[x] in others; }
      if j != |before| { assert all[j] == others[y] && others[y] in others; }
    }
  }

  /** Output and success do not depend on the order in which a definition lists its mappings. */
  lemma OrderIndependence(ms: seq<Mapping>, ns: seq<Mapping>, input: Value)
    requires ValidTargets(ms) && PrefixFree(ms) && multiset(ms) == multiset(ns)
    ensures ValidTargets(ns) && PrefixFree(ns)
    ensures Execute(map[], ms, input) == Execute(map[], ns, input)
  {
    forall i, j | 0 <= i < j < |ms| ensures Unrelated(ms[i], ms[j]) {
      ClashIsRelated(ms[i].target, ms[j].target);
    }
    OrderIsIrrelevant(map[], ms, ns, input);
    forall i | 0 <= i < |ns| ensures ValidPath(ns[i].target) {
      assert ns[i] in multiset(ms);
    }
    forall i, j | 0 <= i < j < |ns| ensures !Clash(ns[i].target, ns[j].target) {
      ClashIsRelated(ns[i].target, ns[j].target);
    }
  }
}
