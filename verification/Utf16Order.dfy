/** The key order of RFC 8785 section 3.2.3: UTF-8 bytes, remapped, compare as UTF-16 code units. */
module Utf16Order {
  import opened Orders
  import opened Bytes

  /** A Unicode scalar value: a code point that is not a surrogate. */
  predicate IsScalar(c: nat) { c < 0xD800 || 0xE000 <= c < 0x11_0000 }

  predicate IsScalars(s: seq<nat>) { forall c :: c in s ==> IsScalar(c) }

  /** Section 3 of RFC 3629. */
  function Utf8Of(c: nat): (b: seq<nat>)
    requires IsScalar(c)
    ensures 1 <= |b| <= 4 && forall x :: x in b ==> x < 256
  {
    if c < 0x80 then [c]
    else if c < 0x800 then [0xC0 + c / 64, 0x80 + c % 64]
    else if c < 0x1_0000 then [0xE0 + c / 4096, 0x80 + c / 64 % 64, 0x80 + c % 64]
    else [0xF0 + c / 262144, 0x80 + c / 4096 % 64, 0x80 + c / 64 % 64, 0x80 + c % 64]
  }

  /** Section 2.1 of RFC 2781. */
  function Utf16Of(c: nat): (u: seq<nat>)
    requires IsScalar(c)
    ensures 1 <= |u| <= 2
  {
    if c < 0x1_0000 then [c] else [0xD800 + (c - 0x1_0000) / 1024, 0xDC00 + (c - 0x1_0000) % 1024]
  }

  function Utf8(s: seq<nat>): (t: Text)
    requires IsScalars(s)
  {
    if s == [] then [] else Utf8Of(s[0]) + Utf8(s[1..])
  }

  function Utf16(s: seq<nat>): seq<nat>
    requires IsScalars(s)
  {
    if s == [] then [] else Utf16Of(s[0]) + Utf16(s[1..])
  }

  // ---------------------------------------------------------------- the remap

  const LEAD_AFTER_SURROGATES: nat := 0xEE
  const FIRST_FOUR_BYTE_LEAD: nat := 0xF0
  const LAST_FOUR_BYTE_LEAD: nat := 0xF4
  const FOUR_BYTE_LEADS: nat := LAST_FOUR_BYTE_LEAD - FIRST_FOUR_BYTE_LEAD + 1

  function Utf16OrderOf(b: Byte): (r: nat) {
    if FIRST_FOUR_BYTE_LEAD <= b <= LAST_FOUR_BYTE_LEAD then b - FIRST_FOUR_BYTE_LEAD + LEAD_AFTER_SURROGATES
    else if LEAD_AFTER_SURROGATES <= b < FIRST_FOUR_BYTE_LEAD then b + FOUR_BYTE_LEADS
    else b
  }

  function Remapped(t: Text): (r: seq<nat>)
    ensures |r| == |t| && forall i :: 0 <= i < |t| ==> r[i] == Utf16OrderOf(t[i])
  {
    seq(|t|, i requires 0 <= i < |t| => Utf16OrderOf(t[i]))
  }

  predicate KeyLess(a: Text, b: Text) { LexLess(Remapped(a), Remapped(b)) }

  const KeyOrder: (Text, Text) -> bool := (a: Text, b: Text) => KeyLess(a, b)

  /** The remap permutes the bytes, so on arbitrary byte strings the key order is a strict total order. */
  lemma RemapIsPermutation(a: Byte, b: Byte)
    ensures Utf16OrderOf(a) < 256 && (Utf16OrderOf(a) == Utf16OrderOf(b) <==> a == b)
    ensures exists c: Byte :: Utf16OrderOf(c) == a
  {
    var c: Byte := if 0xEE <= a <= 0xF2 then a + 2 else if 0xF3 <= a <= 0xF4 then a - 5 else a;
    assert Utf16OrderOf(c) == a;
  }

  lemma KeyOrderIsTotal()
    ensures StrictTotal(KeyOrder)
  {
    forall x: Text ensures !KeyOrder(x, x) { LexIrreflexive(Remapped(x)); }
    forall x: Text, y: Text, z: Text | KeyOrder(x, y) && KeyOrder(y, z) ensures KeyOrder(x, z) {
      LexTransitive(Remapped(x), Remapped(y), Remapped(z));
    }
    forall x: Text, y: Text ensures x == y || KeyOrder(x, y) || KeyOrder(y, x) {
      LexTrichotomy(Remapped(x), Remapped(y));
      if Remapped(x) == Remapped(y) {
        assert |x| == |Remapped(x)| == |y|;
        forall i | 0 <= i < |x| ensures x[i] == y[i] {
          assert Remapped(x)[i] == Remapped(y)[i];
          RemapIsPermutation(x[i], y[i]);
        }
      }
    }
  }

  // ---------------------------------------------------------------- equivalence with UTF-16

  /** Two sequences that differ at their first place, or with one of them empty, compare there. */
  predicate Decided(a: seq<nat>, b: seq<nat>) { a != [] && b != [] && a[0] != b[0] }

  lemma LexDecided(a: seq<nat>, b: seq<nat>, s: seq<nat>, t: seq<nat>)
    requires Decided(a, b)
    ensures LexLess(a + s, b + t) == (a[0] < b[0])
  {}

  /** How one code point's encoding starts: one byte, or a lead byte and its continuations. */
  lemma FirstByte(c: nat)
    requires IsScalar(c)
    ensures c < 0x80 ==> Utf8Of(c)[0] == c
    ensures 0x80 <= c < 0x800 ==> 0xC2 <= Utf8Of(c)[0] < 0xE0
    ensures 0x800 <= c < 0xD800 ==> 0xE0 <= Utf8Of(c)[0] < 0xEE
    ensures 0xE000 <= c < 0x1_0000 ==> 0xEE <= Utf8Of(c)[0] < 0xF0
    ensures 0x1_0000 <= c ==> 0xF0 <= Utf8Of(c)[0] <= 0xF4
  {}

  /** The group a code point sorts in under UTF-16: below the surrogates, a surrogate pair, above them. */
  function Group(c: nat): nat
    requires IsScalar(c)
  {
    if c < 0xD800 then 0 else if c < 0x1_0000 then 2 else 1
  }

  predicate PointLess(c: nat, d: nat)
    requires IsScalar(c) && IsScalar(d)
  {
    Group(c) < Group(d) || (Group(c) == Group(d) && c < d)
  }

  /** Distinct code points: UTF-16 units compare by group, then by value. */
  lemma UnitsDecide(c: nat, d: nat, s: seq<nat>, t: seq<nat>)
    requires IsScalar(c) && IsScalar(d) && c != d
    ensures LexLess(Utf16Of(c) + s, Utf16Of(d) + t) == PointLess(c, d)
  {
    var a, b := Utf16Of(c), Utf16Of(d);
    if a[0] != b[0] {
      LexDecided(a, b, s, t);
    } else {
      assert Group(c) == Group(d) == 1;
      assert a + s == [a[0]] + ([a[1]] + s) && b + t == [b[0]] + ([b[1]] + t);
      LexCommonPrefix([a[0]], [a[1]] + s, [b[1]] + t);
      LexDecided([a[1]], [b[1]], s, t);
    }
  }

  lemma RemappedConcat(a: Text, b: Text)
    ensures Remapped(a + b) == Remapped(a) + Remapped(b)
  {}

  /** The number a lead byte and its continuations spell, most significant byte first. */
  function Spelled(b: seq<nat>): nat {
    if b == [] then 0 else Spelled(b[..|b| - 1]) * 64 + b[|b| - 1]
  }

  predicate Continued(b: seq<nat>) { forall i :: 1 <= i < |b| ==> 0x80 <= b[i] < 0xC0 }

  lemma SpellSnoc(b: seq<nat>, x: nat)
    ensures Spelled(b + [x]) == Spelled(b) * 64 + x
  {
    assert (b + [x])[..|b|] == b;
  }

  lemma SpellTwo(h: nat, x: nat)
    ensures Spelled([h, x]) == h * 64 + x
  {
    SpellSnoc([], h);
    assert [] + [h] == [h] && [h] + [x] == [h, x];
    SpellSnoc([h], x);
  }

  lemma SpellThree(h: nat, x: nat, y: nat)
    ensures Spelled([h, x, y]) == h * 4096 + x * 64 + y
  {
    SpellTwo(h, x);
    assert [h, x] + [y] == [h, x, y];
    SpellSnoc([h, x], y);
  }

  lemma SpellFour(h: nat, x: nat, y: nat, z: nat)
    ensures Spelled([h, x, y, z]) == h * 262144 + x * 4096 + y * 64 + z
  {
    SpellThree(h, x, y);
    assert [h, x, y] + [z] == [h, x, y, z];
    SpellSnoc([h, x, y], z);
  }

  lemma Sextets(c: nat)
    ensures c == c / 64 * 64 + c % 64
    ensures c == c / 4096 * 4096 + c / 64 % 64 * 64 + c % 64
    ensures c == c / 262144 * 262144 + c / 4096 % 64 * 4096 + c / 64 % 64 * 64 + c % 64
  {
    var x := c / 64;
    var y := x / 64;
    assert c / 4096 == y && c / 262144 == y / 64;
  }

  /** What the encoded length adds to the code point. */
  function LengthOffset(n: nat): nat {
    match n
    case 2 => 0xC0 * 64 + 0x80
    case 3 => 0xE0 * 4096 + 0x80 * 64 + 0x80
    case 4 => 0xF0 * 262144 + 0x80 * 4096 + 0x80 * 64 + 0x80
    case _ => 0
  }

  lemma BytesSpell(c: nat)
    requires IsScalar(c)
    ensures Continued(Utf8Of(c)) && Spelled(Utf8Of(c)) == c + LengthOffset(|Utf8Of(c)|)
  {
    hide Spelled;
    Sextets(c);
    if c < 0x80 {
      SpellSnoc([], c);
      assert Spelled([]) == 0 by { SpellNothing(); }
      assert [] + [c] == [c];
    } else if c < 0x800 {
      SpellTwo(0xC0 + c / 64, 0x80 + c % 64);
    } else if c < 0x1_0000 {
      SpellThree(0xE0 + c / 4096, 0x80 + c / 64 % 64, 0x80 + c % 64);
    } else {
      SpellFour(0xF0 + c / 262144, 0x80 + c / 4096 % 64, 0x80 + c / 64 % 64, 0x80 + c % 64);
    }
  }

  lemma SpellNothing()
    ensures Spelled([]) == 0
  {}

  /** Spellings of one length compare as numbers exactly as their first difference does. */
  lemma {:induction false} FirstDifference(a: seq<nat>, b: seq<nat>) returns (i: nat)
    requires |a| == |b| && a != b && Continued(a) && Continued(b)
    ensures i < |a| && a[..i] == b[..i] && a[i] != b[i] && (a[i] < b[i] <==> Spelled(a) < Spelled(b))
    ensures i > 0 ==> 0x80 <= a[i] < 0xC0 && 0x80 <= b[i] < 0xC0
  {
    var n := |a| - 1;
    var front, front' := a[..n], b[..n];
    assert a == front + [a[n]] && b == front' + [b[n]];
    if front == front' {
      i := n;
    } else {
      i := FirstDifference(front, front');
      assert a[..i] == front[..i] && b[..i] == front'[..i];
      SpellingsDiffer(front, front');
    }
  }

  lemma {:induction false} SpellingsDiffer(a: seq<nat>, b: seq<nat>)
    requires |a| == |b| && a != b && Continued(a) && Continued(b)
    ensures Spelled(a) != Spelled(b)
  {
    var n := |a| - 1;
    assert a == a[..n] + [a[n]] && b == b[..n] + [b[n]];
    if a[..n] != b[..n] { SpellingsDiffer(a[..n], b[..n]); }
  }

  lemma RemappedDecides(x: Text, y: Text, i: nat, s: seq<nat>, t: seq<nat>)
    requires i < |x| == |y| && x[..i] == y[..i] && x[i] != y[i] && SameRange(x[i], y[i])
    ensures LexLess(Remapped(x) + s, Remapped(y) + t) == (x[i] < y[i])
  {
    var a, b := Remapped(x), Remapped(y);
    RemapKeepsOrder(x[i], y[i]);
    RemapIsPermutation(x[i], y[i]);
    hide LexLess;
    assert a + s == a[..i] + (a[i..] + s) && b + t == b[..i] + (b[i..] + t);
    assert a[..i] == b[..i] by { assert forall j :: 0 <= j < i ==> x[..i][j] == y[..i][j]; }
    LexCommonPrefix(a[..i], a[i..] + s, b[i..] + t);
    LexDecided(a[i..], b[i..], s, t);
  }

  /** Distinct code points of one encoded length compare by value. */
  lemma BytesOfOneLength(c: nat, d: nat, s: seq<nat>, t: seq<nat>)
    requires IsScalar(c) && IsScalar(d) && c != d && |Utf8Of(c)| == |Utf8Of(d)| && Group(c) == Group(d)
    ensures LexLess(Remapped(Utf8Of(c)) + s, Remapped(Utf8Of(d)) + t) == (c < d)
  {
    BytesSpell(c);
    BytesSpell(d);
    FirstByte(c);
    FirstByte(d);
    var x, y := Utf8Of(c), Utf8Of(d);
    hide Utf8Of, Spelled, LexLess, Remapped;
    var i := FirstDifference(x, y);
    RemappedDecides(x, y, i, s, t);
  }

  predicate SameRange(x: Byte, y: Byte) {
    (x < 0xEE && y < 0xEE) || (0xEE <= x < 0xF0 && 0xEE <= y < 0xF0) || (0xF0 <= x <= 0xF4 && 0xF0 <= y <= 0xF4)
  }

  lemma RemapKeepsOrder(x: Byte, y: Byte)
    requires SameRange(x, y)
    ensures Utf16OrderOf(x) < Utf16OrderOf(y) <==> x < y
  {}

  /** Distinct code points: the remapped bytes compare by group, then by value. */
  lemma BytesDecide(c: nat, d: nat, s: seq<nat>, t: seq<nat>)
    requires IsScalar(c) && IsScalar(d) && c != d
    ensures LexLess(Remapped(Utf8Of(c)) + s, Remapped(Utf8Of(d)) + t) == PointLess(c, d)
  {
    FirstByte(c);
    FirstByte(d);
    if |Utf8Of(c)| == |Utf8Of(d)| && Group(c) == Group(d) {
      BytesOfOneLength(c, d, s, t);
    } else {
      LexDecided(Remapped(Utf8Of(c)), Remapped(Utf8Of(d)), s, t);
    }
  }

  lemma {:induction false} EncodingsCompare(a: seq<nat>, b: seq<nat>)
    requires IsScalars(a) && IsScalars(b)
    ensures LexLess(Remapped(Utf8(a)), Remapped(Utf8(b))) == LexLess(Utf16(a), Utf16(b))
  {
    if a != [] && b != [] {
      var c, d := a[0], b[0];
      assert c in a && d in b;
      assert forall x :: x in a[1..] ==> x in a;
      assert forall x :: x in b[1..] ==> x in b;
      RemappedConcat(Utf8Of(c), Utf8(a[1..]));
      RemappedConcat(Utf8Of(d), Utf8(b[1..]));
      if c == d {
        EncodingsCompare(a[1..], b[1..]);
        LexCommonPrefix(Remapped(Utf8Of(c)), Remapped(Utf8(a[1..])), Remapped(Utf8(b[1..])));
        LexCommonPrefix(Utf16Of(c), Utf16(a[1..]), Utf16(b[1..]));
      } else {
        BytesDecide(c, d, Remapped(Utf8(a[1..])), Remapped(Utf8(b[1..])));
        UnitsDecide(c, d, Utf16(a[1..]), Utf16(b[1..]));
      }
    }
  }

  /** For any two sequences of Unicode scalar values, the key order on their UTF-8 bytes is the order
      of their UTF-16 code units. */
  lemma KeyOrderIsUtf16Order(a: seq<nat>, b: seq<nat>)
    requires IsScalars(a) && IsScalars(b)
    ensures KeyLess(Utf8(a), Utf8(b)) <==> LexLess(Utf16(a), Utf16(b))
  {
    EncodingsCompare(a, b);
  }
}
