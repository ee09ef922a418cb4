/** `deterministicIdentifier`: a digest is written in base 32 through a bit buffer that is never masked
    and wraps around in 32-bit signed arithmetic. */
module Encoder {

  // ---------------------------------------------------------------- 32-bit operators

  /** What `<<`, `|`, `>>` and `&` reduce their results to. */
  function ToInt32(x: int): int {
    (x + 0x8000_0000) % 0x1_0000_0000 - 0x8000_0000
  }

  function Pow2(n: nat): (p: int)
    ensures p >= 1
  {
    if n == 0 then 1 else 2 * Pow2(n - 1)
  }

  function ShiftLeft8(x: int): int {
    ToInt32(x * 256)
  }

  /** `x | y` where the low byte of `x` is clear. */
  function OrByte(x: int, y: int): int
    requires x % 256 == 0 && 0 <= y < 256
  {
    x + y
  }

  /** Arithmetic shift: division rounds down. */
  function ShiftRight(x: int, n: nat): int {
    x / Pow2(n)
  }

  function And31(x: int): (r: nat)
    ensures r < 32
  {
    x % 32
  }

  // ---------------------------------------------------------------- numbers

  predicate Bytes(b: seq<int>) {
    forall i :: 0 <= i < |b| ==> 0 <= b[i] < 256
  }

  predicate Base32Digits(d: seq<nat>) {
    forall i :: 0 <= i < |d| ==> d[i] < 32
  }

  /** The digest as a number, most significant byte first. */
  function Number(b: seq<int>): int {
    if b == [] then 0 else Number(b[..|b| - 1]) * 256 + b[|b| - 1]
  }

  function Value(d: seq<nat>): int {
    if d == [] then 0 else Value(d[..|d| - 1]) * 32 + d[|d| - 1]
  }

  /** The leading 130 bits of a 256-bit digest. */
  function Leading(digest: seq<int>): int {
    Number(digest) / Pow2(126)
  }

  const ALPHABET: string := "0123456789ABCDEFGHJKMNPQRSTVWXYZ"

  function Spell(d: seq<nat>): (s: string)
    requires Base32Digits(d)
    ensures |s| == |d|
  {
    if d == [] then "" else Spell(d[..|d| - 1]) + [ALPHABET[d[|d| - 1]]]
  }

  function PadEnd(s: string, length: nat, c: char): string {
    if |s| >= length then s else s + seq(length - |s|, _ => c)
  }

  // ---------------------------------------------------------------- arithmetic

  lemma {:induction false} PowerOfSum(m: nat, n: nat)
    ensures Pow2(m + n) == Pow2(m) * Pow2(n)
  {
    if m > 0 {
      PowerOfSum(m - 1, n);
    }
  }

  lemma Product(d: int, x: int, y: int)
    requires d > 0
    ensures d * (x + y) == d * x + d * y
    ensures y >= 1 ==> d * y >= d
  {
  }

  lemma OneQuotient(d: int, q: int, r: int, p: int, s: int)
    requires d * q + r == d * p + s && 0 <= r < d && 0 <= s < d
    ensures q == p
  {
    Product(d, p, q - p);
    Product(d, q, p - q);
    assert p + (q - p) == q && q + (p - q) == p;
  }

  lemma Quotient(v: int, d: int, q: int, r: int)
    requires v == d * q + r && 0 <= r < d
    ensures v / d == q
  {
    assert v == d * (v / d) + v % d;
    OneQuotient(d, q, r, v / d, v % d);
  }

  lemma Nested(a: int, b: int, p: int, s: int, r: int)
    requires 0 <= s < b && 0 <= r < a
    ensures a * (b * p + s) + r == (a * b) * p + (a * s + r)
    ensures 0 <= a * s + r < a * b
  {
    assert a * (b * p + s) == (a * b) * p + a * s;
    assert a * (b - 1 - s) >= 0;
  }

  lemma QuotientOfQuotient(v: int, a: int, b: int)
    requires a > 0 && b > 0
    ensures a * b > 0 && v / (a * b) == v / a / b
  {
    var q, r := v / a, v % a;
    var p, s := q / b, q % b;
    assert v == a * q + r && q == b * p + s;
    Nested(a, b, p, s, r);
    Quotient(v, a * b, p, a * s + r);
  }

  /** Multiples of 32 times the divisor do not change the last digit of a quotient. */
  lemma DigitOfDifference(v: int, d: int, n: int)
    requires d > 0
    ensures ((v - d * (32 * n)) / d) % 32 == (v / d) % 32
  {
    assert v == d * (v / d) + v % d;
    assert d * (v / d) - d * (32 * n) == d * (v / d - 32 * n);
    Quotient(v - d * (32 * n), d, v / d - 32 * n, v % d);
  }

  lemma Word()
    ensures Pow2(32) == 0x1_0000_0000
  {
    PowerOfSum(16, 16);
    PowerOfSum(8, 8);
    assert Pow2(8) == 256;
  }

  lemma WordIsMultiple(k: nat)
    requires k <= 7
    ensures Pow2(k) * (32 * Pow2(27 - k)) == 0x1_0000_0000
  {
    Word();
    PowerOfSum(k, 32 - k);
    PowerOfSum(5, 27 - k);
    assert Pow2(5) == 32;
  }

  lemma Regroup(d: int, c: int, q: int, word: int)
    requires d * (32 * c) == word
    ensures word * q == d * (32 * (c * q))
  {
    assert (d * (32 * c)) * q == d * ((32 * c) * q);
    assert (32 * c) * q == 32 * (c * q);
  }

  /** What wrap-around takes away is a multiple of the word. */
  lemma Lost(v: int) returns (q: int)
    ensures ToInt32(v) == v - 0x1_0000_0000 * q
  {
    q := (v + 0x8000_0000) / 0x1_0000_0000;
  }

  /** The digit above the lowest k bits is not affected by what the buffer has lost. */
  lemma DigitSurvives(v: int, k: nat)
    requires k <= 7
    ensures And31(ShiftRight(ToInt32(v), k)) == (v / Pow2(k)) % 32
  {
    var q := Lost(v);
    WordIsMultiple(k);
    Regroup(Pow2(k), Pow2(27 - k), q, 0x1_0000_0000);
    DigitOfDifference(v, Pow2(k), Pow2(27 - k) * q);
  }

  lemma InRange(x: int, y: int, n: int)
    requires y == x - 0x1_0000_0000 * n && -0x8000_0000 <= y < 0x8000_0000
    ensures ToInt32(x) == y
  {
  }

  lemma ClearByte(v: int)
    ensures ShiftLeft8(v) % 256 == 0
  {
    var q := Lost(v * 256);
    assert ShiftLeft8(v) == 256 * (v - 0x100_0000 * q);
  }

  lemma NextByte(v: int, byte: int)
    requires 0 <= byte < 256
    ensures ShiftLeft8(ToInt32(v)) % 256 == 0
    ensures OrByte(ShiftLeft8(ToInt32(v)), byte) == ToInt32(v * 256 + byte)
  {
    var w := ToInt32(v);
    ClearByte(w);
    var p := Lost(v);
    var q := Lost(w * 256);
    assert -0x8000_0000 <= ShiftLeft8(w) <= 0x8000_0000 - 256;
    InRange(v * 256 + byte, ShiftLeft8(w) + byte, 256 * p + q);
  }

  lemma SplitQuotient(v: int, k: nat)
    requires k <= 7
    ensures v / Pow2(k) == v / Pow2(k + 5) * 32 + (v / Pow2(k)) % 32
  {
    PowerOfSum(5, k);
    assert Pow2(5) == 32;
    QuotientOfQuotient(v, Pow2(k), 32);
  }

  lemma AppendByte(v: int, byte: int, k: nat)
    requires 0 <= byte < 256
    ensures (v * 256 + byte) / Pow2(k + 8) == v / Pow2(k)
  {
    assert Pow2(k + 8) == 256 * Pow2(k) by { PowerOfSum(8, k); assert Pow2(8) == 256; }
    QuotientOfQuotient(v * 256 + byte, 256, Pow2(k));
    assert (v * 256 + byte) / 256 == v;
  }

  // ---------------------------------------------------------------- the encoder

  /** How far the loop has come: `encoded` spells all read bits but the lowest `bits`, and the buffer
      is what is left of them after wrap-around. */
  ghost predicate Encoded(read: seq<int>, bits: nat, buffer: int, digits: seq<nat>) {
    && Base32Digits(digits) && |digits| <= 26
    && 5 * |digits| + bits == 8 * |read|
    && buffer == ToInt32(Number(read))
    && Value(digits) == Number(read) / Pow2(bits)
  }

  lemma AppendDigit(read: seq<int>, bits: nat, buffer: int, digits: seq<nat>)
    requires Encoded(read, bits, buffer, digits) && 5 <= bits <= 12 && |digits| < 26
    ensures Encoded(read, bits - 5, buffer, digits + [And31(ShiftRight(buffer, bits - 5))])
  {
    var d := And31(ShiftRight(buffer, bits - 5));
    DigitSurvives(Number(read), bits - 5);
    SplitQuotient(Number(read), bits - 5);
    assert (digits + [d])[..|digits|] == digits;
  }

  lemma ReadByte(read: seq<int>, bits: nat, buffer: int, digits: seq<nat>, byte: int)
    requires Encoded(read, bits, buffer, digits) && 0 <= byte < 256
    ensures ShiftLeft8(buffer) % 256 == 0
    ensures Encoded(read + [byte], bits + 8, OrByte(ShiftLeft8(buffer), byte), digits)
  {
    var v := Number(read);
    assert Number(read + [byte]) == v * 256 + byte by { assert (read + [byte])[..|read|] == read; }
    NextByte(v, byte);
    AppendByte(v, byte, bits);
  }

  /** The first 17 bytes hold the 130 leading bits and 6 more. */
  lemma {:induction false} LeadingOfPrefix(digest: seq<int>, n: nat)
    requires Bytes(digest) && n <= |digest|
    ensures Number(digest[..n]) == Number(digest) / Pow2(8 * (|digest| - n))
  {
    if n == |digest| {
      assert digest[..n] == digest;
    } else {
      var init := digest[..|digest| - 1];
      LeadingOfPrefix(init, n);
      assert init[..n] == digest[..n];
      AppendByte(Number(init), digest[|digest| - 1], 8 * (|init| - n));
      assert 8 * (|init| - n) + 8 == 8 * (|digest| - n);
    }
  }

  lemma Leading130(digest: seq<int>)
    requires Bytes(digest) && |digest| == 32
    ensures Number(digest[..17]) / Pow2(6) == Leading(digest)
  {
    LeadingOfPrefix(digest, 17);
    PowerOfSum(120, 6);
    QuotientOfQuotient(Number(digest), Pow2(120), Pow2(6));
  }

  /** The last `n` base-32 digits of a number. */
  function ToDigits(v: int, n: nat): (d: seq<nat>)
    ensures |d| == n && Base32Digits(d)
    decreases n
  {
    if n == 0 then [] else ToDigits(v / 32, n - 1) + [v % 32]
  }

  /** The digits of a value are those digits. */
  lemma {:induction false} DigitsOfValue(d: seq<nat>)
    requires Base32Digits(d)
    ensures ToDigits(Value(d), |d|) == d
  {
    if d != [] {
      LastDigit(d);
      DigitsOfValue(d[..|d| - 1]);
      assert d == d[..|d| - 1] + [d[|d| - 1]];
    }
  }

  /** With 26 digits the loop has read 17 bytes and left 6 bits over. */
  lemma EncodedAll(digest: seq<int>, i: nat, bits: nat, buffer: int, digits: seq<nat>)
    requires Bytes(digest) && |digest| == 32 && i <= 32
    requires Encoded(digest[..i], bits, buffer, digits) && |digits| == 26 && bits <= 12
    ensures digits == ToDigits(Leading(digest), 26)
  {
    assert i == 17 && bits == 6;
    Leading130(digest);
    DigitsOfValue(digits);
  }

  /** The inner loop: digits are taken off as long as there are five bits and room. */
  method TakeDigits(bits: nat, buffer: int, encoded: string, ghost read: seq<int>, ghost digits: seq<nat>)
    returns (left: nat, longer: string, ghost all: seq<nat>)
    requires bits <= 12 && Encoded(read, bits, buffer, digits) && encoded == Spell(digits)
    ensures left <= 12 && Encoded(read, left, buffer, all) && longer == Spell(all)
    ensures left < 5 || |longer| == 26
  {
    left, longer, all := bits, encoded, digits;
    while left >= 5 && |longer| < 26
      invariant left <= 12 && Encoded(read, left, buffer, all) && longer == Spell(all)
    {
      AppendDigit(read, left, buffer, all);
      left := left - 5;
      var digit := And31(ShiftRight(buffer, left));
      ghost var next := all + [digit];
      assert next[..|next| - 1] == all;
      longer := longer + [ALPHABET[digit]];
      all := next;
    }
  }

  /** `deterministicIdentifier` on a SHA-256 digest: the prefix and exactly 26 digits, which spell the leading
      130 bits of the digest, so that the padding adds nothing. */
  method DeterministicIdentifier(prefix: string, digest: seq<int>) returns (id: string)
    requires Bytes(digest) && |digest| == 32
    ensures id == prefix + "_" + Spell(ToDigits(Leading(digest), 26))
  {
    var bits, buffer := 0, 0;
    var encoded := "";
    ghost var digits: seq<nat> := [];
    var i := 0;
    while i < |digest|
      invariant i <= |digest|
      invariant Encoded(digest[..i], bits, buffer, digits) && encoded == Spell(digits)
      invariant bits < 5 && |digits| < 26
    {
      assert digest[..i + 1] == digest[..i] + [digest[i]];
      ReadByte(digest[..i], bits, buffer, digits, digest[i]);
      buffer := OrByte(ShiftLeft8(buffer), digest[i]);
      i := i + 1;
      bits, encoded, digits := TakeDigits(bits + 8, buffer, encoded, digest[..i], digits);
      if |encoded| == 26 {
        break;
      }
    }
    EncodedAll(digest, i, bits, buffer, digits);
    id := prefix + "_" + PadEnd(encoded, 26, '0');
  }

  // ---------------------------------------------------------------- distinctness

  lemma AlphabetAscends(i: nat)
    requires i < 31
    ensures ALPHABET[i] < ALPHABET[i + 1]
  {
  }

  lemma {:induction false} AlphabetOrdered(a: nat, b: nat)
    requires a < b < 32
    ensures ALPHABET[a] < ALPHABET[b]
    decreases b
  {
    AlphabetAscends(b - 1);
    if a < b - 1 {
      AlphabetOrdered(a, b - 1);
    }
  }

  lemma AlphabetDistinct(a: nat, b: nat)
    requires a < 32 && b < 32 && ALPHABET[a] == ALPHABET[b]
    ensures a == b
  {
    if a < b {
      AlphabetOrdered(a, b);
    } else if b < a {
      AlphabetOrdered(b, a);
    }
  }

  lemma {:induction false} SpellInjective(a: seq<nat>, b: seq<nat>)
    requires Base32Digits(a) && Base32Digits(b) && Spell(a) == Spell(b)
    ensures a == b
  {
    if a != [] && b != [] {
      var x, y := a[..|a| - 1], b[..|b| - 1];
      assert Spell(a)[..|a| - 1] == Spell(x) && Spell(b)[..|b| - 1] == Spell(y);
      assert Spell(a)[|a| - 1] == ALPHABET[a[|a| - 1]];
      SpellInjective(x, y);
      AlphabetDistinct(a[|a| - 1], b[|b| - 1]);
      assert a == x + [a[|a| - 1]] && b == y + [b[|b| - 1]];
    }
  }

  lemma LastDigit(a: seq<nat>)
    requires Base32Digits(a) && a != []
    ensures a[|a| - 1] == Value(a) % 32 && Value(a[..|a| - 1]) == Value(a) / 32
  {
  }

  lemma {:induction false} NumberBound(b: seq<int>)
    requires Bytes(b)
    ensures 0 <= Number(b) < Pow2(8 * |b|)
  {
    if b != [] {
      NumberBound(b[..|b| - 1]);
      PowerOfSum(8, 8 * (|b| - 1));
      assert Pow2(8) == 256;
    }
  }

  lemma LeadingBound(digest: seq<int>)
    requires Bytes(digest) && |digest| == 32
    ensures 0 <= Leading(digest) < Pow2(130)
  {
    NumberBound(digest);
    PowerOfSum(126, 130);
    Below(Number(digest), Pow2(126), Pow2(130));
  }

  lemma Below(v: int, a: int, b: int)
    requires 0 <= v < a * b && a > 0
    ensures 0 <= v / a < b
  {
    var q, r := v / a, v % a;
    assert v == a * q + r;
    if q >= b {
      Product(a, b, q - b);
    }
    if q < 0 {
      Product(a, q, -q);
    }
  }

  lemma Shrink(v: int, n: nat)
    requires n > 0 && 0 <= v < Pow2(5 * n)
    ensures 0 <= v / 32 < Pow2(5 * (n - 1)) && v == 32 * (v / 32) + v % 32
  {
    PowerOfSum(5, 5 * (n - 1));
    assert Pow2(5) == 32;
    Below(v, 32, Pow2(5 * (n - 1)));
  }

  /** Digits of a number below 32^n determine it. */
  lemma {:induction false} ToDigitsInjective(v: int, w: int, n: nat)
    requires 0 <= v < Pow2(5 * n) && 0 <= w < Pow2(5 * n) && ToDigits(v, n) == ToDigits(w, n)
    ensures v == w
    decreases n
  {
    if n > 0 {
      Shrink(v, n);
      Shrink(w, n);
      var x, y := ToDigits(v, n), ToDigits(w, n);
      assert x[n - 1] == v % 32 && y[n - 1] == w % 32;
      assert x[..n - 1] == ToDigits(v / 32, n - 1) && y[..n - 1] == ToDigits(w / 32, n - 1);
      ToDigitsInjective(v / 32, w / 32, n - 1);
    }
  }

  /** Two identifiers with the same prefix are equal exactly when the digests agree in their leading
      130 bits. */
  lemma IdentifiersDiffer(prefix: string, a: seq<int>, b: seq<int>)
    requires Bytes(a) && |a| == 32 && Bytes(b) && |b| == 32
    ensures prefix + "_" + Spell(ToDigits(Leading(a), 26)) == prefix + "_" + Spell(ToDigits(Leading(b), 26))
            <==> Leading(a) == Leading(b)
  {
    var x, y := ToDigits(Leading(a), 26), ToDigits(Leading(b), 26);
    if prefix + "_" + Spell(x) == prefix + "_" + Spell(y) {
      assert (prefix + "_" + Spell(x))[|prefix| + 1..] == Spell(x);
      assert (prefix + "_" + Spell(y))[|prefix| + 1..] == Spell(y);
      SpellInjective(x, y);
      LeadingBound(a);
      LeadingBound(b);
      ToDigitsInjective(Leading(a), Leading(b), 26);
    }
  }
}
