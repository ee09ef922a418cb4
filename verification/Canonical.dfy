/** The canonical serializer: `stable` of the transformation runtime, `stableJson` of the application and
    `canonical` of the portability package are this one function. Its output is what payload hashes,
    request hashes, fingerprints and bundle digests are taken of. */
module Canonical {
  import opened Domain

  /** JSON values. An object keeps its members in insertion order. A number is represented by the text
      JavaScript prints for it. */
  datatype Json =
    | JNull | JBool(b: bool) | JNum(text: string) | JStr(s: string)
    | JArr(items: Items) | JObj(members: Members)

  datatype Items = NoItems | Item(head: Json, tail: Items)
  datatype Members = NoMembers | Member(key: string, value: Json, rest: Members)

  function Lookup(m: Members, k: string): Option<Json> {
    match m
    case NoMembers => None
    case Member(j, v, rest) => if j == k then Some(v) else Lookup(rest, k)
  }

  // ---------------------------------------------------------------- well-formed values

  predicate NumberText(t: string) {
    t != [] && t[0] in "-0123456789" && forall c :: c in t ==> c in "+-.0123456789e"
  }

  /** Objects have distinct keys. */
  predicate WellFormed(v: Json) {
    match v
    case JNum(t) => NumberText(t)
    case JArr(items) => WellFormedItems(items)
    case JObj(m) => WellFormedMembers(m)
    case _ => true
  }

  predicate WellFormedItems(items: Items) {
    match items
    case NoItems => true
    case Item(h, t) => WellFormed(h) && WellFormedItems(t)
  }

  predicate WellFormedMembers(m: Members) {
    match m
    case NoMembers => true
    case Member(k, v, rest) => WellFormed(v) && Lookup(rest, k).None? && WellFormedMembers(rest)
  }

  // ---------------------------------------------------------------- equality up to key order

  predicate Same(a: Json, b: Json) {
    match a
    case JArr(items) => b.JArr? && SameItems(items, b.items)
    case JObj(m) => b.JObj? && Count(m) == Count(b.members) && SameMembers(m, b.members)
    case _ => a == b
  }

  predicate SameItems(a: Items, b: Items) {
    match a
    case NoItems => b.NoItems?
    case Item(h, t) => b.Item? && Same(h, b.head) && SameItems(t, b.tail)
  }

  /** Every member of the first object has its counterpart in the second. */
  predicate SameMembers(a: Members, b: Members) {
    match a
    case NoMembers => true
    case Member(k, v, rest) => Lookup(b, k).Some? && Same(v, Lookup(b, k).value) && SameMembers(rest, b)
  }

  function Count(m: Members): nat {
    match m
    case NoMembers => 0
    case Member(_, _, rest) => 1 + Count(rest)
  }

  // ---------------------------------------------------------------- sorting keys

  predicate Less(a: string, b: string) {
    b != [] && (a == [] || a[0] < b[0] || (a[0] == b[0] && Less(a[1..], b[1..])))
  }

  lemma {:induction false} LessTotal(a: string, b: string)
    ensures Less(a, b) || a == b || Less(b, a)
    ensures !(Less(a, b) && Less(b, a)) && !Less(a, a)
  {
    if a != [] && b != [] {
      LessTotal(a[1..], b[1..]);
      assert a == [a[0]] + a[1..] && b == [b[0]] + b[1..];
    }
    if a != [] {
      LessTotal(a[1..], a[1..]);
    }
  }

  lemma {:induction false} LessTransitive(a: string, b: string, c: string)
    requires Less(a, b) && Less(b, c)
    ensures Less(a, c)
  {
    if a != [] && a[0] == b[0] && b[0] == c[0] {
      LessTransitive(a[1..], b[1..], c[1..]);
    }
  }

  function Size(v: Json): (n: nat)
    ensures n >= 1
  {
    match v
    case JArr(items) => 1 + ItemsSize(items)
    case JObj(m) => 1 + MembersSize(m)
    case _ => 1
  }

  function ItemsSize(items: Items): nat {
    match items
    case NoItems => 0
    case Item(h, t) => Size(h) + ItemsSize(t)
  }

  function MembersSize(m: Members): nat {
    match m
    case NoMembers => 0
    case Member(_, v, rest) => Size(v) + MembersSize(rest)
  }

  function Insert(k: string, v: Json, m: Members): (r: Members)
    ensures MembersSize(r) == Size(v) + MembersSize(m) && Count(r) == Count(m) + 1
  {
    match m
    case NoMembers => Member(k, v, NoMembers)
    case Member(j, w, rest) => if Less(j, k) then Member(j, w, Insert(k, v, rest)) else Member(k, v, m)
  }

  /** `Object.keys(value).sort()`, with the values carried along. */
  function SortMembers(m: Members): (r: Members)
    ensures MembersSize(r) == MembersSize(m) && Count(r) == Count(m)
  {
    match m
    case NoMembers => NoMembers
    case Member(k, v, rest) => Insert(k, v, SortMembers(rest))
  }

  /** All keys of the members come after `k`. */
  predicate Above(k: string, m: Members) {
    match m
    case NoMembers => true
    case Member(j, _, rest) => Less(k, j) && Above(k, rest)
  }

  predicate Sorted(m: Members) {
    match m
    case NoMembers => true
    case Member(k, _, rest) => Above(k, rest) && Sorted(rest)
  }

  lemma {:induction false} AboveLookup(k: string, m: Members, j: string)
    requires Above(k, m) && Lookup(m, j).Some?
    ensures Less(k, j)
  {
    if m.key != j {
      AboveLookup(k, m.rest, j);
    }
  }

  lemma {:induction false} AboveTransitive(i: string, j: string, m: Members)
    requires Less(i, j) && Above(j, m)
    ensures Above(i, m)
  {
    if m.Member? {
      LessTransitive(i, j, m.key);
      AboveTransitive(i, j, m.rest);
    }
  }

  lemma {:induction false} AboveInsert(i: string, k: string, v: Json, m: Members)
    requires Less(i, k) && Above(i, m)
    ensures Above(i, Insert(k, v, m))
  {
    if m.Member? && Less(m.key, k) {
      AboveInsert(i, k, v, m.rest);
    }
  }

  lemma {:induction false} InsertSorts(k: string, v: Json, m: Members, j: string)
    requires Sorted(m) && Lookup(m, k).None?
    ensures Sorted(Insert(k, v, m))
    ensures Lookup(Insert(k, v, m), j) == if j == k then Some(v) else Lookup(m, j)
    decreases m
  {
    if m.Member? {
      if Less(m.key, k) {
        LessTotal(m.key, k);
        InsertSorts(k, v, m.rest, j);
        AboveInsert(m.key, k, v, m.rest);
      } else {
        LessTotal(m.key, k);
        AboveTransitive(k, m.key, m.rest);
      }
    }
  }

  lemma {:induction false} SortSorts(m: Members, j: string)
    requires WellFormedMembers(m)
    ensures Sorted(SortMembers(m)) && Lookup(SortMembers(m), j) == Lookup(m, j)
    decreases m
  {
    if m.Member? {
      SortSorts(m.rest, m.key);
      SortSorts(m.rest, j);
      InsertSorts(m.key, m.value, SortMembers(m.rest), j);
    }
  }

  /** A sorted object is determined by what its keys map to. */
  lemma {:induction false} SortedUnique(a: Members, b: Members)
    requires Sorted(a) && Sorted(b)
    requires forall k :: Lookup(a, k) == Lookup(b, k)
    ensures a == b
  {
    var k := if a.Member? then a.key else if b.Member? then b.key else "";
    assert Lookup(a, k) == Lookup(b, k);
    if a.Member? && b.Member? {
      assert Lookup(a, b.key) == Lookup(b, b.key);
      if a.key != b.key {
        AboveLookup(b.key, b.rest, a.key);
        AboveLookup(a.key, a.rest, b.key);
        LessTotal(a.key, b.key);
      }
      assert a.key == b.key;
      forall k ensures Lookup(a.rest, k) == Lookup(b.rest, k) {
        assert Lookup(a, k) == Lookup(b, k);
        if k == a.key {
          LessTotal(k, k);
          if Lookup(a.rest, k).Some? { AboveLookup(k, a.rest, k); }
          if Lookup(b.rest, k).Some? { AboveLookup(k, b.rest, k); }
        }
      }
      SortedUnique(a.rest, b.rest);
    }
  }

  // ---------------------------------------------------------------- the serializer

  function Hex(n: nat): char
    requires n < 16
  {
    if n < 10 then (n + 48) as char else (n + 87) as char
  }

  /** One character of a string literal as `JSON.stringify` writes it. */
  function Escape(c: char): (s: string)
    ensures 1 <= |s| <= 6
  {
    if c == '"' then "\\\""
    else if c == '\\' then "\\\\"
    else if c == 8 as char then "\\b"
    else if c == 9 as char then "\\t"
    else if c == 10 as char then "\\n"
    else if c == 12 as char then "\\f"
    else if c == 13 as char then "\\r"
    else if c < 32 as char then "\\u00" + [Hex(c as int / 16), Hex(c as int % 16)]
    else [c]
  }

  function EscapeAll(s: string): string {
    if s == [] then "" else Escape(s[0]) + EscapeAll(s[1..])
  }

  function Quote(s: string): string {
    "\"" + EscapeAll(s) + "\""
  }

  function Join(parts: seq<string>): string {
    if parts == [] then ""
    else if |parts| == 1 then parts[0]
    else parts[0] + "," + Join(parts[1..])
  }

  function Atom(v: Json): string
    requires !v.JArr? && !v.JObj?
  {
    match v
    case JNull => "null"
    case JBool(b) => if b then "true" else "false"
    case JNum(t) => t
    case JStr(s) => Quote(s)
  }

  function Stable(v: Json): string
    decreases Size(v), 0
  {
    match v
    case JArr(items) => "[" + Join(StableItems(items)) + "]"
    case JObj(m) => "{" + Join(StableMembers(SortMembers(m))) + "}"
    case _ => Atom(v)
  }

  function StableItems(items: Items): seq<string>
    decreases ItemsSize(items), 1, items
  {
    match items
    case NoItems => []
    case Item(h, t) => [Stable(h)] + StableItems(t)
  }

  function StableMembers(m: Members): seq<string>
    decreases MembersSize(m), 1, m
  {
    match m
    case NoMembers => []
    case Member(k, v, rest) => [Quote(k) + ":" + Stable(v)] + StableMembers(rest)
  }

  // ---------------------------------------------------------------- sorting first, printing after

  /** The value with the keys of every object in order. */
  function Order(v: Json): Json
    decreases Size(v), 0
  {
    match v
    case JArr(items) => JArr(OrderItems(items))
    case JObj(m) => JObj(OrderMembers(SortMembers(m)))
    case _ => v
  }

  function OrderItems(items: Items): Items
    decreases ItemsSize(items), 1, items
  {
    match items
    case NoItems => NoItems
    case Item(h, t) => Item(Order(h), OrderItems(t))
  }

  function OrderMembers(m: Members): Members
    decreases MembersSize(m), 1, m
  {
    match m
    case NoMembers => NoMembers
    case Member(k, v, rest) => Member(k, Order(v), OrderMembers(rest))
  }

  /** Printing without sorting. */
  function Print(v: Json): string {
    match v
    case JArr(items) => "[" + (if items.NoItems? then "]" else Print(items.head) + MoreItems(items.tail))
    case JObj(m) =>
      "{" + (if m.NoMembers? then "}" else Quote(m.key) + ":" + Print(m.value) + MoreMembers(m.rest))
    case _ => Atom(v)
  }

  function MoreItems(items: Items): string {
    match items
    case NoItems => "]"
    case Item(h, t) => "," + Print(h) + MoreItems(t)
  }

  function MoreMembers(m: Members): string {
    match m
    case NoMembers => "}"
    case Member(k, v, rest) => "," + Quote(k) + ":" + Print(v) + MoreMembers(rest)
  }

  lemma {:induction false} StableIsPrint(v: Json)
    ensures Stable(v) == Print(Order(v))
    decreases Size(v), 2
  {
    match v
    case JArr(items) => ArrayIsPrinted(items);
    case JObj(m) => ObjectIsPrinted(SortMembers(m));
    case _ =>
  }

  lemma {:induction false} ArrayIsPrinted(items: Items)
    ensures "[" + Join(StableItems(items)) + "]" == Print(JArr(OrderItems(items)))
    decreases 1 + ItemsSize(items), 1
  {
    if items.Item? {
      StableIsPrint(items.head);
      ItemsArePrinted(items.tail);
      JoinMore(Stable(items.head), StableItems(items.tail));
      assert StableItems(items) == [Stable(items.head)] + StableItems(items.tail);
      assert Print(JArr(OrderItems(items))) == "[" + (Stable(items.head) + (More(StableItems(items.tail)) + "]"));
    }
  }

  lemma {:induction false} ObjectIsPrinted(m: Members)
    ensures "{" + Join(StableMembers(m)) + "}" == Print(JObj(OrderMembers(m)))
    decreases 1 + MembersSize(m), 1
  {
    if m.Member? {
      var first := Quote(m.key) + ":" + Stable(m.value);
      StableIsPrint(m.value);
      MembersArePrinted(m.rest);
      JoinMore(first, StableMembers(m.rest));
      assert StableMembers(m) == [first] + StableMembers(m.rest);
      assert Print(JObj(OrderMembers(m))) == "{" + (first + (More(StableMembers(m.rest)) + "}"));
    }
  }

  /** Every part after the first, with its comma. */
  function More(parts: seq<string>): string {
    if parts == [] then "" else "," + parts[0] + More(parts[1..])
  }

  lemma {:induction false} JoinMore(first: string, parts: seq<string>)
    ensures Join([first] + parts) == first + More(parts)
    decreases parts
  {
    if parts != [] {
      JoinMore(parts[0], parts[1..]);
      assert [parts[0]] + parts[1..] == parts;
      assert ([first] + parts)[1..] == parts;
      assert Join([first] + parts) == first + "," + Join(parts);
    }
  }

  lemma {:induction false} ItemsArePrinted(items: Items)
    ensures More(StableItems(items)) + "]" == MoreItems(OrderItems(items))
    decreases ItemsSize(items), 3, items
  {
    if items.Item? {
      StableIsPrint(items.head);
      ItemsArePrinted(items.tail);
      assert StableItems(items)[1..] == StableItems(items.tail);
    }
  }

  lemma {:induction false} MembersArePrinted(m: Members)
    ensures More(StableMembers(m)) + "}" == MoreMembers(OrderMembers(m))
    decreases MembersSize(m), 3, m
  {
    if m.Member? {
      StableIsPrint(m.value);
      MembersArePrinted(m.rest);
      assert StableMembers(m)[1..] == StableMembers(m.rest);
    }
  }
}
