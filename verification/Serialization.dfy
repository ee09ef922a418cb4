/** The canonical serializer is injective: two JSON values serialize equally exactly when they are equal
    up to the order of object keys. */
module Serialization {
  import opened Domain
  import opened Canonical

  lemma Regroup(a: string, b: string, c: string)
    ensures (a + b) + c == a + (b + c)
  {
  }

  lemma Head(c: char, x: string, d: char, y: string)
    requires [c] + x == [d] + y
    ensures c == d && x == y
  {
    assert ([c] + x)[0] == c && ([d] + y)[0] == d;
    assert x == ([c] + x)[1..] && y == ([d] + y)[1..];
  }

  // ---------------------------------------------------------------- string literals

  /** The value of a hexadecimal digit. */
  function HexValue(c: char): Option<nat> {
    if '0' <= c <= '9' then Some(c as int - '0' as int)
    else if 'a' <= c <= 'f' then Some(c as int - 'a' as int + 10)
    else if 'A' <= c <= 'F' then Some(c as int - 'A' as int + 10)
    else None
  }

  /** The character of a `\u` escape, surrogates apart. */
  function FourHex(a: char, b: char, c: char, d: char): Option<char> {
    var w, x, y, z := HexValue(a), HexValue(b), HexValue(c), HexValue(d);
    if w.None? || x.None? || y.None? || z.None? then None
    else
      var n := w.value * 4096 + x.value * 256 + y.value * 16 + z.value;
      if 0 <= n < 0xD800 || 0xE000 <= n < 0x11_0000 then Some(n as char) else None
  }

  /** One character of a string literal (section 7 of RFC 8259), and what follows it. */
  function ReadChar(s: string): (r: Option<(char, string)>)
    requires s != []
    ensures r.Some? ==> |r.value.1| < |s|
  {
    if s[0] != '\\' then (if s[0] < ' ' then None else Some((s[0], s[1..])))
    else if |s| < 2 then None
    else
      match s[1]
      case '"' => Some(('"', s[2..]))
      case '\\' => Some(('\\', s[2..]))
      case '/' => Some(('/', s[2..]))
      case 'b' => Some((8 as char, s[2..]))
      case 'f' => Some((12 as char, s[2..]))
      case 'n' => Some((10 as char, s[2..]))
      case 'r' => Some((13 as char, s[2..]))
      case 't' => Some((9 as char, s[2..]))
      case 'u' =>
        if |s| < 6 then None
        else
          var c := FourHex(s[2], s[3], s[4], s[5]);
          if c.None? then None else Some((c.value, s[6..]))
      case _ => None
  }

  /** The rest of a string literal up to its quotation mark, and what follows it. */
  function ReadChars(s: string): (r: Option<(string, string)>)
    ensures r.Some? ==> |r.value.1| < |s|
    decreases |s|
  {
    if s == [] then None
    else if s[0] == '"' then Some(("", s[1..]))
    else
      var c := ReadChar(s);
      if c.None? then None
      else
        var rest := ReadChars(c.value.1);
        if rest.None? then None else Some(([c.value.0] + rest.value.0, rest.value.1))
  }

  lemma HexReads(n: nat)
    requires n < 16
    ensures HexValue(Hex(n)) == Some(n)
  {
  }

  lemma ControlReads(c: char, x: string)
    requires c < ' ' && |Escape(c)| == 6
    ensures ReadChar(Escape(c) + x) == Some((c, x))
  {
    HexReads(c as int / 16);
    HexReads(c as int % 16);
    HexReads(0);
    var s := Escape(c) + x;
    assert s[0] == '\\' && s[1] == 'u' && s[2] == '0' && s[3] == '0';
    assert s[4] == Hex(c as int / 16) && s[5] == Hex(c as int % 16) && s[6..] == x;
    assert FourHex('0', '0', s[4], s[5]) == Some(c);
  }

  /** An escape sequence is read as the character it was written for. */
  lemma EscapeReads(c: char, x: string)
    ensures ReadChar(Escape(c) + x) == Some((c, x)) && (Escape(c) + x)[0] != '"'
  {
    var s := Escape(c) + x;
    assert s[|Escape(c)|..] == x && s[0] == Escape(c)[0];
    if |Escape(c)| == 6 {
      ControlReads(c, x);
    } else if |Escape(c)| == 2 {
      assert s[1] == Escape(c)[1];
    }
  }

  /** The rest of a literal and what follows it. */
  function LiteralOn(s: string, x: string): (r: string)
    ensures r != []
  {
    if s == [] then ['"'] + x else Escape(s[0]) + LiteralOn(s[1..], x)
  }

  lemma {:induction false} LiteralIs(s: string, x: string)
    ensures EscapeAll(s) + (['"'] + x) == LiteralOn(s, x)
  {
    if s != [] {
      LiteralIs(s[1..], x);
      Regroup(Escape(s[0]), EscapeAll(s[1..]), ['"'] + x);
    } else {
      assert EscapeAll(s) + (['"'] + x) == ['"'] + x;
    }
  }

  lemma {:induction false} LiteralReads(s: string, x: string)
    ensures ReadChars(LiteralOn(s, x)) == Some((s, x))
  {
    if s == [] {
      assert (['"'] + x)[1..] == x;
    } else {
      EscapeReads(s[0], LiteralOn(s[1..], x));
      LiteralReads(s[1..], x);
      assert [s[0]] + s[1..] == s;
    }
  }

  function QuoteOn(s: string, x: string): string {
    ['"'] + LiteralOn(s, x)
  }

  lemma QuoteIs(s: string, x: string)
    ensures Quote(s) + x == QuoteOn(s, x)
  {
    LiteralIs(s, x);
    Regroup(['"'], EscapeAll(s), ['"'] + x);
    Regroup(['"'] + EscapeAll(s), ['"'], x);
  }

  /** String literals are self-delimiting. */
  lemma QuoteUnambiguous(s: string, t: string, x: string, y: string)
    requires QuoteOn(s, x) == QuoteOn(t, y)
    ensures s == t && x == y
  {
    Head('"', LiteralOn(s, x), '"', LiteralOn(t, y));
    LiteralReads(s, x);
    LiteralReads(t, y);
  }

  // ---------------------------------------------------------------- numbers

  predicate NumberChar(c: char) {
    c in "+-.0123456789e"
  }

  /** Where a value can end. */
  predicate Stops(x: string) {
    x == [] || !NumberChar(x[0])
  }

  predicate NumberChars(s: string) {
    forall c :: c in s ==> NumberChar(c)
  }

  /** The characters of a number, and what follows them. */
  function ReadNumber(s: string): (r: (string, string))
    ensures |r.0| + |r.1| == |s|
  {
    if Stops(s) then ("", s)
    else
      var rest := ReadNumber(s[1..]);
      ([s[0]] + rest.0, rest.1)
  }

  lemma {:induction false} NumberReads(t: string, x: string)
    requires NumberChars(t) && Stops(x)
    ensures ReadNumber(t + x) == (t, x)
  {
    if t == [] {
      assert t + x == x;
    } else {
      assert (t + x)[1..] == t[1..] + x && (t + x)[0] == t[0];
      NumberReads(t[1..], x);
      assert [t[0]] + t[1..] == t;
    }
  }

  // ---------------------------------------------------------------- values

  predicate NumbersOk(v: Json) {
    match v
    case JNum(t) => NumberText(t)
    case JArr(items) => ItemNumbersOk(items)
    case JObj(m) => MemberNumbersOk(m)
    case _ => true
  }

  predicate ItemNumbersOk(items: Items) {
    match items
    case NoItems => true
    case Item(h, t) => NumbersOk(h) && ItemNumbersOk(t)
  }

  predicate MemberNumbersOk(m: Members) {
    match m
    case NoMembers => true
    case Member(_, v, rest) => NumbersOk(v) && MemberNumbersOk(rest)
  }

  /** The first character tells what kind of value is printed. */
  function Opening(v: Json): char
    requires NumbersOk(v)
  {
    match v
    case JNull => 'n'
    case JBool(b) => if b then 't' else 'f'
    case JNum(t) => t[0]
    case JStr(_) => '"'
    case JArr(_) => '['
    case JObj(_) => '{'
  }

  // A printed value together with what follows it.

  function PrintOn(v: Json, x: string): string
    decreases v, 1
  {
    match v
    case JArr(items) => ['['] + (if items.NoItems? then [']'] + x else PrintOn(items.head, MoreItemsOn(items.tail, x)))
    case JObj(m) => ['{'] + (if m.NoMembers? then ['}'] + x else MemberOn(m, x))
    case _ => Atom(v) + x
  }

  function MoreItemsOn(items: Items, x: string): string
    decreases items, 1
  {
    match items
    case NoItems => [']'] + x
    case Item(h, t) => [','] + PrintOn(h, MoreItemsOn(t, x))
  }

  function MemberOn(m: Members, x: string): string
    requires m.Member?
    decreases m, 0
  {
    QuoteOn(m.key, [':'] + PrintOn(m.value, MoreMembersOn(m.rest, x)))
  }

  function MoreMembersOn(m: Members, x: string): string
    decreases m, 1
  {
    match m
    case NoMembers => ['}'] + x
    case Member(_, _, _) => [','] + MemberOn(m, x)
  }

  lemma {:induction false} PrintIs(v: Json, x: string)
    ensures Print(v) + x == PrintOn(v, x)
    decreases v, 1
  {
    match v
    case JArr(items) =>
      if items.Item? {
        PrintIs(items.head, MoreItemsOn(items.tail, x));
        MoreItemsIs(items.tail, x);
        Regroup(Print(items.head), MoreItems(items.tail), x);
        Regroup(['['], Print(items.head) + MoreItems(items.tail), x);
      } else {
        Regroup(['['], [']'], x);
      }
    case JObj(m) =>
      if m.Member? {
        MemberIs(m, x);
        Regroup(['{'], Quote(m.key) + ":" + Print(m.value) + MoreMembers(m.rest), x);
      } else {
        Regroup(['{'], ['}'], x);
      }
    case _ =>
  }

  lemma {:induction false} MoreItemsIs(items: Items, x: string)
    ensures MoreItems(items) + x == MoreItemsOn(items, x)
    decreases items, 1
  {
    if items.Item? {
      PrintIs(items.head, MoreItemsOn(items.tail, x));
      MoreItemsIs(items.tail, x);
      Regroup([','] + Print(items.head), MoreItems(items.tail), x);
      Regroup([','], Print(items.head), MoreItems(items.tail) + x);
    }
  }

  lemma {:induction false} MemberIs(m: Members, x: string)
    requires m.Member?
    ensures (Quote(m.key) + ":" + Print(m.value) + MoreMembers(m.rest)) + x == MemberOn(m, x)
    decreases m, 0
  {
    var rest := MoreMembersOn(m.rest, x);
    MoreMembersIs(m.rest, x);
    PrintIs(m.value, rest);
    QuoteIs(m.key, [':'] + PrintOn(m.value, rest));
    Regroup(Quote(m.key) + ":" + Print(m.value), MoreMembers(m.rest), x);
    Regroup(Quote(m.key) + ":", Print(m.value), rest);
    Regroup(Quote(m.key), [':'], PrintOn(m.value, rest));
  }

  lemma {:induction false} MoreMembersIs(m: Members, x: string)
    ensures MoreMembers(m) + x == MoreMembersOn(m, x)
    decreases m, 1
  {
    if m.Member? {
      MemberIs(m, x);
      var member := Quote(m.key) + ":" + Print(m.value) + MoreMembers(m.rest);
      Regroup([','], Quote(m.key), ":");
      Regroup([','], Quote(m.key) + ":", Print(m.value));
      Regroup([','], Quote(m.key) + ":" + Print(m.value), MoreMembers(m.rest));
      assert MoreMembers(m) == [','] + member;
      Regroup([','], member, x);
    }
  }

  // ---------------------------------------------------------------- reading

  /** A JSON value at the beginning of a text (RFC 8259, without insignificant whitespace), and what follows it. */
  function ReadValue(s: string): (r: Option<(Json, string)>)
    ensures r.Some? ==> |r.value.1| < |s|
    decreases |s|, 1
  {
    if s == [] then None
    else if s[0] == '"' then
      var t := ReadChars(s[1..]);
      if t.None? then None else Some((JStr(t.value.0), t.value.1))
    else if s[0] == '[' then
      if |s| > 1 && s[1] == ']' then Some((JArr(NoItems), s[2..]))
      else
        var items := ReadItems(s[1..]);
        if items.None? then None else Some((JArr(items.value.0), items.value.1))
    else if s[0] == '{' then
      if |s| > 1 && s[1] == '}' then Some((JObj(NoMembers), s[2..]))
      else
        var members := ReadMembers(s[1..]);
        if members.None? then None else Some((JObj(members.value.0), members.value.1))
    else if NumberChar(s[0]) then
      var n := ReadNumber(s);
      Some((JNum(n.0), n.1))
    else if "null" <= s then Some((JNull, s[4..]))
    else if "true" <= s then Some((JBool(true), s[4..]))
    else if "false" <= s then Some((JBool(false), s[5..]))
    else None
  }

  /** A value and the items after it, up to the closing bracket. */
  function ReadItems(s: string): (r: Option<(Items, string)>)
    ensures r.Some? ==> |r.value.1| < |s|
    decreases |s|, 2
  {
    var head := ReadValue(s);
    if head.None? || head.value.1 == [] then None
    else if head.value.1[0] == ']' then Some((Item(head.value.0, NoItems), head.value.1[1..]))
    else if head.value.1[0] == ',' then
      var rest := ReadItems(head.value.1[1..]);
      if rest.None? then None else Some((Item(head.value.0, rest.value.0), rest.value.1))
    else None
  }

  /** A member and those after it, up to the closing brace. */
  function ReadMembers(s: string): (r: Option<(Members, string)>)
    ensures r.Some? ==> |r.value.1| < |s|
    decreases |s|, 2
  {
    if s == [] || s[0] != '"' then None
    else
      var key := ReadChars(s[1..]);
      if key.None? || key.value.1 == [] || key.value.1[0] != ':' then None
      else
        var v := ReadValue(key.value.1[1..]);
        if v.None? || v.value.1 == [] then None
        else if v.value.1[0] == '}' then Some((Member(key.value.0, v.value.0, NoMembers), v.value.1[1..]))
        else if v.value.1[0] == ',' then
          var rest := ReadMembers(v.value.1[1..]);
          if rest.None? then None else Some((Member(key.value.0, v.value.0, rest.value.0), rest.value.1))
        else None
  }

  lemma PrintOpens(v: Json, x: string)
    requires NumbersOk(v)
    ensures PrintOn(v, x) != [] && PrintOn(v, x)[0] == Opening(v) && Opening(v) !in "]},:"
  {
  }

  lemma Prefixed(word: string, x: string)
    ensures word <= word + x && (word + x)[|word|..] == x
  {
  }

  lemma StringReads(t: string, x: string)
    ensures ReadValue(Quote(t) + x) == Some((JStr(t), x))
  {
    QuoteIs(t, x);
    LiteralReads(t, x);
    assert QuoteOn(t, x)[1..] == LiteralOn(t, x);
  }

  lemma NumberTextReads(t: string, x: string)
    requires NumberText(t) && Stops(x)
    ensures ReadValue(t + x) == Some((JNum(t), x))
  {
    assert (t + x)[0] == t[0] && NumberChar(t[0]);
    NumberReads(t, x);
  }

  lemma NullReads(x: string)
    ensures ReadValue("null" + x) == Some((JNull, x))
  {
    Prefixed("null", x);
    assert ("null" + x)[0] == 'n';
  }

  lemma TrueReads(x: string)
    ensures ReadValue("true" + x) == Some((JBool(true), x))
  {
    Prefixed("true", x);
    assert ("true" + x)[0] == 't';
  }

  lemma FalseReads(x: string)
    ensures ReadValue("false" + x) == Some((JBool(false), x))
  {
    Prefixed("false", x);
    assert ("false" + x)[0] == 'f';
  }

  lemma AtomReads(v: Json, x: string)
    requires NumbersOk(v) && !v.JArr? && !v.JObj? && Stops(x)
    ensures ReadValue(Atom(v) + x) == Some((v, x))
  {
    match v
    case JNull => NullReads(x);
    case JBool(b) => if b { TrueReads(x); } else { FalseReads(x); }
    case JStr(t) => StringReads(t, x);
    case JNum(t) => NumberTextReads(t, x);
  }

  /** Reading a printed value gives the value and what follows it. */
  lemma {:induction false} PrintReads(v: Json, x: string)
    requires NumbersOk(v) && Stops(x)
    ensures ReadValue(PrintOn(v, x)) == Some((v, x))
    decreases v, 1
  {
    match v
    case JArr(items) =>
      if items.Item? {
        PrintOpens(items.head, MoreItemsOn(items.tail, x));
        assert PrintOn(v, x)[1..] == PrintOn(items.head, MoreItemsOn(items.tail, x));
        ItemsRead(items, x);
      } else {
        assert PrintOn(v, x)[2..] == x;
      }
    case JObj(m) =>
      if m.Member? {
        assert PrintOn(v, x)[1..] == MemberOn(m, x);
        MembersRead(m, x);
      } else {
        assert PrintOn(v, x)[2..] == x;
      }
    case _ => AtomReads(v, x);
  }

  lemma {:induction false} ItemsRead(items: Items, x: string)
    requires items.Item? && ItemNumbersOk(items) && Stops(x)
    ensures ReadItems(PrintOn(items.head, MoreItemsOn(items.tail, x))) == Some((items, x))
    decreases items, 0
  {
    var more := MoreItemsOn(items.tail, x);
    PrintReads(items.head, more);
    if items.tail.Item? {
      assert more[1..] == PrintOn(items.tail.head, MoreItemsOn(items.tail.tail, x));
      ItemsRead(items.tail, x);
    } else {
      assert more[1..] == x;
    }
  }

  lemma {:induction false} MembersRead(m: Members, x: string)
    requires m.Member? && MemberNumbersOk(m) && Stops(x)
    ensures ReadMembers(MemberOn(m, x)) == Some((m, x))
    decreases m, 0
  {
    var more := MoreMembersOn(m.rest, x);
    var valued := [':'] + PrintOn(m.value, more);
    LiteralReads(m.key, valued);
    assert MemberOn(m, x)[1..] == LiteralOn(m.key, valued) && valued[1..] == PrintOn(m.value, more);
    PrintReads(m.value, more);
    if m.rest.Member? {
      assert more[1..] == MemberOn(m.rest, x);
      MembersRead(m.rest, x);
    } else {
      assert more[1..] == x;
    }
  }

  /** So printing is unambiguous, whatever follows. */
  lemma PrintUnambiguous(a: Json, b: Json, x: string, y: string)
    requires NumbersOk(a) && NumbersOk(b) && Stops(x) && Stops(y) && PrintOn(a, x) == PrintOn(b, y)
    ensures a == b && x == y
  {
    PrintReads(a, x);
    PrintReads(b, y);
  }

  // ---------------------------------------------------------------- ordered values

  lemma {:induction false} OrderKeepsNumbers(v: Json)
    requires WellFormed(v)
    ensures NumbersOk(Order(v))
    decreases Size(v), 0
  {
    match v
    case JArr(items) => OrderItemsKeepsNumbers(items);
    case JObj(m) =>
      SortKeepsWellFormed(m);
      OrderMembersKeepsNumbers(SortMembers(m));
    case _ =>
  }

  lemma {:induction false} OrderItemsKeepsNumbers(items: Items)
    requires WellFormedItems(items)
    ensures ItemNumbersOk(OrderItems(items))
    decreases ItemsSize(items), 1, items
  {
    if items.Item? {
      OrderKeepsNumbers(items.head);
      OrderItemsKeepsNumbers(items.tail);
    }
  }

  lemma {:induction false} OrderMembersKeepsNumbers(m: Members)
    requires WellFormedMembers(m)
    ensures MemberNumbersOk(OrderMembers(m))
    decreases MembersSize(m), 1, m
  {
    if m.Member? {
      OrderKeepsNumbers(m.value);
      OrderMembersKeepsNumbers(m.rest);
    }
  }

  lemma {:induction false} InsertKeepsWellFormed(k: string, v: Json, m: Members)
    requires WellFormed(v) && WellFormedMembers(m) && Sorted(m) && Lookup(m, k).None?
    ensures WellFormedMembers(Insert(k, v, m))
    decreases m
  {
    if m.Member? && Less(m.key, k) {
      LessTotal(m.key, k);
      InsertKeepsWellFormed(k, v, m.rest);
      InsertSorts(k, v, m.rest, m.key);
    }
  }

  lemma {:induction false} SortKeepsWellFormed(m: Members)
    requires WellFormedMembers(m)
    ensures WellFormedMembers(SortMembers(m))
  {
    if m.Member? {
      SortKeepsWellFormed(m.rest);
      SortSorts(m.rest, m.key);
      InsertKeepsWellFormed(m.key, m.value, SortMembers(m.rest));
    }
  }

  function OrderFound(v: Option<Json>): Option<Json> {
    if v.None? then None else Some(Order(v.value))
  }

  lemma {:induction false} OrderLookup(m: Members, k: string)
    ensures Lookup(OrderMembers(m), k) == OrderFound(Lookup(m, k))
  {
    if m.Member? && m.key != k {
      OrderLookup(m.rest, k);
    }
  }

  lemma {:induction false} OrderAbove(k: string, m: Members)
    requires Above(k, m)
    ensures Above(k, OrderMembers(m))
  {
    if m.Member? {
      OrderAbove(k, m.rest);
    }
  }

  lemma {:induction false} OrderSorted(m: Members)
    requires Sorted(m)
    ensures Sorted(OrderMembers(m))
  {
    if m.Member? {
      OrderSorted(m.rest);
      OrderAbove(m.key, m.rest);
    }
  }

  /** What an ordered object maps its keys to, and that nothing else matters. */
  lemma OrderedMembers(m: Members, k: string)
    requires WellFormedMembers(m)
    ensures Sorted(OrderMembers(SortMembers(m)))
    ensures Lookup(OrderMembers(SortMembers(m)), k) == OrderFound(Lookup(m, k))
  {
    SortSorts(m, k);
    OrderSorted(SortMembers(m));
    OrderLookup(SortMembers(m), k);
  }

  // ---------------------------------------------------------------- equal up to key order

  lemma {:induction false} WellFormedLookup(m: Members, k: string)
    requires WellFormedMembers(m) && Lookup(m, k).Some?
    ensures WellFormed(Lookup(m, k).value)
  {
    if m.key != k {
      WellFormedLookup(m.rest, k);
    }
  }

  lemma {:induction false} SameIsOrder(a: Json, b: Json)
    requires WellFormed(a) && WellFormed(b)
    ensures Same(a, b) <==> Order(a) == Order(b)
    decreases a
  {
    match a
    case JArr(items) =>
      if b.JArr? {
        SameItemsIsOrder(items, b.items);
      }
    case JObj(m) =>
      if b.JObj? {
        SameMembersIsOrder(m, b.members);
        ObjectsAgree(m, b.members);
      }
    case _ =>
  }

  lemma {:induction false} SameItemsIsOrder(a: Items, b: Items)
    requires WellFormedItems(a) && WellFormedItems(b)
    ensures SameItems(a, b) <==> OrderItems(a) == OrderItems(b)
    decreases a
  {
    if a.Item? && b.Item? {
      SameIsOrder(a.head, b.head);
      SameItemsIsOrder(a.tail, b.tail);
    }
  }

  /** All members of the first object are found in the second, with values of equal order. */
  ghost predicate FoundIn(a: Members, b: Members) {
    forall k :: Lookup(a, k).Some? ==> OrderFound(Lookup(a, k)) == OrderFound(Lookup(b, k))
  }

  lemma {:induction false} SameMembersIsOrder(a: Members, b: Members)
    requires WellFormedMembers(a) && WellFormedMembers(b)
    ensures SameMembers(a, b) <==> FoundIn(a, b)
    decreases a
  {
    if a.Member? {
      SameMembersIsOrder(a.rest, b);
      assert Lookup(a, a.key) == Some(a.value);
      if Lookup(b, a.key).Some? {
        WellFormedLookup(b, a.key);
        SameIsOrder(a.value, Lookup(b, a.key).value);
      }
      if FoundIn(a, b) {
        forall k | Lookup(a.rest, k).Some? ensures OrderFound(Lookup(a.rest, k)) == OrderFound(Lookup(b, k)) {
          assert k != a.key;
          assert Lookup(a, k) == Lookup(a.rest, k);
        }
      }
      if SameMembers(a, b) {
        forall k | Lookup(a, k).Some? ensures OrderFound(Lookup(a, k)) == OrderFound(Lookup(b, k)) {
          if k != a.key {
            assert Lookup(a, k) == Lookup(a.rest, k);
          }
        }
      }
    }
  }

  // ---------------------------------------------------------------- counting keys

  function Keys(m: Members): set<string> {
    match m
    case NoMembers => {}
    case Member(k, _, rest) => {k} + Keys(rest)
  }

  lemma {:induction false} KeysAreFound(m: Members, k: string)
    ensures k in Keys(m) <==> Lookup(m, k).Some?
  {
    if m.Member? {
      KeysAreFound(m.rest, k);
    }
  }

  lemma {:induction false} KeysAreCounted(m: Members)
    requires WellFormedMembers(m)
    ensures |Keys(m)| == Count(m)
  {
    if m.Member? {
      KeysAreCounted(m.rest);
      KeysAreFound(m.rest, m.key);
    }
  }

  lemma {:induction false} OrderCount(m: Members)
    ensures Count(OrderMembers(m)) == Count(m)
  {
    if m.Member? {
      OrderCount(m.rest);
    }
  }

  lemma FullSubset<T>(a: set<T>, b: set<T>)
    requires a <= b && |a| == |b|
    ensures a == b
  {
    assert b == a + (b - a);
    assert |b| == |a| + |b - a|;
  }

  lemma SameKeys(a: Members, b: Members, k: string)
    requires WellFormedMembers(a) && WellFormedMembers(b) && FoundIn(a, b) && Count(a) == Count(b)
    ensures Lookup(a, k).Some? <==> Lookup(b, k).Some?
  {
    forall j | j in Keys(a) ensures j in Keys(b) {
      KeysAreFound(a, j);
      KeysAreFound(b, j);
    }
    KeysAreCounted(a);
    KeysAreCounted(b);
    FullSubset(Keys(a), Keys(b));
    KeysAreFound(a, k);
    KeysAreFound(b, k);
  }

  lemma ObjectsAgree(a: Members, b: Members)
    requires WellFormedMembers(a) && WellFormedMembers(b)
    ensures Count(a) == Count(b) && FoundIn(a, b)
            <==> OrderMembers(SortMembers(a)) == OrderMembers(SortMembers(b))
  {
    var x, y := OrderMembers(SortMembers(a)), OrderMembers(SortMembers(b));
    OrderCount(SortMembers(a));
    OrderCount(SortMembers(b));
    forall k ensures Lookup(x, k) == OrderFound(Lookup(a, k)) && Lookup(y, k) == OrderFound(Lookup(b, k)) {
      OrderedMembers(a, k);
      OrderedMembers(b, k);
    }
    if Count(a) == Count(b) && FoundIn(a, b) {
      forall k ensures Lookup(x, k) == Lookup(y, k) {
        SameKeys(a, b, k);
      }
      OrderedMembers(a, "");
      OrderedMembers(b, "");
      SortedUnique(x, y);
    }
  }

  // ---------------------------------------------------------------- the theorem

  lemma {:induction false} OrderKeepsWellFormed(v: Json)
    requires WellFormed(v)
    ensures WellFormed(Order(v))
    decreases Size(v), 0
  {
    match v
    case JArr(items) => OrderItemsKeepsWellFormed(items);
    case JObj(m) =>
      SortKeepsWellFormed(m);
      OrderMembersKeepsWellFormed(SortMembers(m));
    case _ =>
  }

  lemma {:induction false} OrderItemsKeepsWellFormed(items: Items)
    requires WellFormedItems(items)
    ensures WellFormedItems(OrderItems(items))
    decreases ItemsSize(items), 1, items
  {
    if items.Item? {
      OrderKeepsWellFormed(items.head);
      OrderItemsKeepsWellFormed(items.tail);
    }
  }

  lemma {:induction false} OrderMembersKeepsWellFormed(m: Members)
    requires WellFormedMembers(m)
    ensures WellFormedMembers(OrderMembers(m))
    decreases MembersSize(m), 1, m
  {
    if m.Member? {
      OrderKeepsWellFormed(m.value);
      OrderMembersKeepsWellFormed(m.rest);
      OrderLookup(m.rest, m.key);
    }
  }

  lemma {:induction false} InsertInFront(k: string, v: Json, m: Members)
    requires Above(k, m)
    ensures Insert(k, v, m) == Member(k, v, m)
  {
    if m.Member? {
      LessTotal(k, m.key);
    }
  }

  lemma {:induction false} SortedStays(m: Members)
    requires Sorted(m)
    ensures SortMembers(m) == m
  {
    if m.Member? {
      SortedStays(m.rest);
      InsertInFront(m.key, m.value, m.rest);
    }
  }

  /** Ordering twice is ordering once. */
  lemma {:induction false} OrderTwice(v: Json)
    requires WellFormed(v)
    ensures Order(Order(v)) == Order(v)
    decreases Size(v), 0
  {
    match v
    case JArr(items) => OrderItemsTwice(items);
    case JObj(m) =>
      SortSorts(m, "");
      SortKeepsWellFormed(m);
      OrderSorted(SortMembers(m));
      SortedStays(OrderMembers(SortMembers(m)));
      OrderMembersTwice(SortMembers(m));
    case _ =>
  }

  lemma {:induction false} OrderItemsTwice(items: Items)
    requires WellFormedItems(items)
    ensures OrderItems(OrderItems(items)) == OrderItems(items)
    decreases ItemsSize(items), 1, items
  {
    if items.Item? {
      OrderTwice(items.head);
      OrderItemsTwice(items.tail);
    }
  }

  lemma {:induction false} OrderMembersTwice(m: Members)
    requires WellFormedMembers(m)
    ensures OrderMembers(OrderMembers(m)) == OrderMembers(m)
    decreases MembersSize(m), 1, m
  {
    if m.Member? {
      OrderTwice(m.value);
      OrderMembersTwice(m.rest);
    }
  }

  /** A value and its ordered form are equal up to the order of keys. */
  lemma OrderIsSame(v: Json)
    requires WellFormed(v)
    ensures Same(v, Order(v))
  {
    OrderKeepsWellFormed(v);
    OrderTwice(v);
    SameIsOrder(v, Order(v));
  }

  /** Every object has its keys in ascending order. */
  predicate KeysInOrder(v: Json) {
    match v
    case JArr(items) => ItemKeysInOrder(items)
    case JObj(m) => Sorted(m) && MemberKeysInOrder(m)
    case _ => true
  }

  predicate ItemKeysInOrder(items: Items) {
    match items
    case NoItems => true
    case Item(h, t) => KeysInOrder(h) && ItemKeysInOrder(t)
  }

  predicate MemberKeysInOrder(m: Members) {
    match m
    case NoMembers => true
    case Member(_, v, rest) => KeysInOrder(v) && MemberKeysInOrder(rest)
  }

  lemma {:induction false} OrderPutsKeysInOrder(v: Json)
    requires WellFormed(v)
    ensures KeysInOrder(Order(v))
    decreases Size(v), 0
  {
    match v
    case JArr(items) => ItemsInOrder(items);
    case JObj(m) =>
      SortSorts(m, "");
      SortKeepsWellFormed(m);
      OrderSorted(SortMembers(m));
      MembersInOrder(SortMembers(m));
    case _ =>
  }

  lemma {:induction false} ItemsInOrder(items: Items)
    requires WellFormedItems(items)
    ensures ItemKeysInOrder(OrderItems(items))
    decreases ItemsSize(items), 1, items
  {
    if items.Item? {
      OrderPutsKeysInOrder(items.head);
      ItemsInOrder(items.tail);
    }
  }

  lemma {:induction false} MembersInOrder(m: Members)
    requires WellFormedMembers(m)
    ensures MemberKeysInOrder(OrderMembers(m))
    decreases MembersSize(m), 1, m
  {
    if m.Member? {
      OrderPutsKeysInOrder(m.value);
      MembersInOrder(m.rest);
    }
  }

  /** Ascending means: at the first difference the smaller character, or else the shorter key, comes first. */
  lemma {:induction false} LessIsLexicographic(a: string, b: string)
    ensures Less(a, b)
            <==> a < b || exists n :: 0 <= n < |a| && n < |b| && a[..n] == b[..n] && a[n] < b[n]
  {
    if a != [] && b != [] {
      LessIsLexicographic(a[1..], b[1..]);
      var x, y := a[1..], b[1..];
      if a[0] == b[0] {
        if n :| 0 <= n < |x| && n < |y| && x[..n] == y[..n] && x[n] < y[n] {
          assert a[..n + 1] == [a[0]] + x[..n] && b[..n + 1] == [b[0]] + y[..n];
        }
        if n :| 0 <= n < |a| && n < |b| && a[..n] == b[..n] && a[n] < b[n] {
          assert n > 0 && x[..n - 1] == a[..n][1..] && y[..n - 1] == b[..n][1..] && x[n - 1] == a[n] && y[n - 1] == b[n];
        }
        assert a == [a[0]] + x && b == [b[0]] + y;
      } else if a[0] < b[0] {
        assert a[..0] == b[..0];
      } else {
        forall n | 0 < n < |a| && n < |b| ensures a[..n] != b[..n] {
          assert a[..n][0] != b[..n][0];
        }
      }
    }
  }

  /** The serialization is JSON, and reads back as the value with its keys in order. */
  lemma StableReadsBack(v: Json)
    requires WellFormed(v)
    ensures ReadValue(Stable(v)) == Some((Order(v), "")) && KeysInOrder(Order(v)) && Same(v, Order(v))
  {
    OrderPutsKeysInOrder(v);
    OrderIsSame(v);
    StableIsPrint(v);
    OrderKeepsNumbers(v);
    PrintIs(Order(v), "");
    assert Print(Order(v)) + "" == Print(Order(v));
    PrintReads(Order(v), "");
  }

  /** Two values serialize equally if and only if they are equal up to the order of object keys. So
      every hash, fingerprint and digest of a serialization identifies the value, hashes being taken
      as injective. */
  lemma StableIsInjective(a: Json, b: Json)
    requires WellFormed(a) && WellFormed(b)
    ensures Stable(a) == Stable(b) <==> Same(a, b)
  {
    StableIsPrint(a);
    StableIsPrint(b);
    SameIsOrder(a, b);
    if Stable(a) == Stable(b) {
      OrderKeepsNumbers(a);
      OrderKeepsNumbers(b);
      PrintIs(Order(a), "");
      PrintIs(Order(b), "");
      assert Print(Order(a)) + "" == Print(Order(a)) && Print(Order(b)) + "" == Print(Order(b));
      PrintUnambiguous(Order(a), Order(b), "", "");
    }
  }

  /** A serialized value never runs into what follows it: at most one value is a prefix of a text, up to
      key order, if the text goes on with a delimiter. */
  lemma StableIsDelimited(a: Json, b: Json, x: string, y: string)
    requires WellFormed(a) && WellFormed(b) && Stops(x) && Stops(y)
    requires Stable(a) + x == Stable(b) + y
    ensures Same(a, b) && x == y
  {
    StableIsPrint(a);
    StableIsPrint(b);
    OrderKeepsNumbers(a);
    OrderKeepsNumbers(b);
    PrintIs(Order(a), x);
    PrintIs(Order(b), y);
    PrintUnambiguous(Order(a), Order(b), x, y);
    SameIsOrder(a, b);
  }
}
