/** Byte strings and their lexicographic order. */
module Bytes {
  import opened Orders

  type Byte = n: nat | n < 256

  type Text = seq<Byte>

  function AsciiByte(c: char): Byte
    requires c < 128 as char
  {
    c as int
  }

  /** An ASCII literal as bytes. */
  function Ascii(s: string): (t: Text)
    requires forall c :: c in s ==> c < 128 as char
    ensures |t| == |s| && forall i :: 0 <= i < |t| ==> t[i] == s[i] as int
  {
    seq(|s|, i requires 0 <= i < |s| => assert s[i] in s; AsciiByte(s[i]))
  }

  /** A lower-case hexadecimal digit. */
  function HexDigit(n: nat): (b: Byte)
    requires n < 16
    ensures b < 0x80
  {
    if n < 10 then 0x30 + n else 0x61 + n - 10
  }

  /** Element by element, a proper prefix first. */
  predicate LexLess(a: seq<nat>, b: seq<nat>) {
    if b == [] then false
    else if a == [] then true
    else if a[0] != b[0] then a[0] < b[0]
    else LexLess(a[1..], b[1..])
  }

  const TextOrder: (Text, Text) -> bool := (a: Text, b: Text) => LexLess(a, b)

  lemma {:induction false} LexIrreflexive(a: seq<nat>)
    ensures !LexLess(a, a)
  {
    if a != [] { LexIrreflexive(a[1..]); }
  }

  lemma {:induction false} LexTransitive(a: seq<nat>, b: seq<nat>, c: seq<nat>)
    requires LexLess(a, b) && LexLess(b, c)
    ensures LexLess(a, c)
  {
    if a != [] && a[0] == b[0] && b[0] == c[0] { LexTransitive(a[1..], b[1..], c[1..]); }
  }

  lemma {:induction false} LexTrichotomy(a: seq<nat>, b: seq<nat>)
    ensures a == b || LexLess(a, b) || LexLess(b, a)
  {
    if a != [] && b != [] && a[0] == b[0] {
      LexTrichotomy(a[1..], b[1..]);
      assert a == [a[0]] + a[1..] && b == [b[0]] + b[1..];
    }
  }

  lemma TextOrderIsTotal()
    ensures StrictTotal(TextOrder)
  {
    forall x: Text ensures !TextOrder(x, x) { LexIrreflexive(x); }
    forall x: Text, y: Text, z: Text | TextOrder(x, y) && TextOrder(y, z)
        ensures TextOrder(x, z) { LexTransitive(x, y, z); }
    forall x: Text, y: Text ensures x == y || TextOrder(x, y) || TextOrder(y, x) { LexTrichotomy(x, y); }
  }

  /** Only the first difference decides, so a common prefix can be dropped. */
  lemma {:induction false} LexCommonPrefix(p: seq<nat>, a: seq<nat>, b: seq<nat>)
    ensures LexLess(p + a, p + b) == LexLess(a, b)
  {
    if p == [] {
      assert p + a == a && p + b == b;
    } else {
      assert (p + a)[1..] == p[1..] + a && (p + b)[1..] == p[1..] + b;
      LexCommonPrefix(p[1..], a, b);
    }
  }

  /** One text comes before another exactly where, after what they share, it ends or has the smaller byte. */
  lemma {:induction false} FirstDifferenceDecides(a: seq<nat>, b: seq<nat>)
    ensures LexLess(a, b)
       <==> exists n: nat :: n <= |a| && n < |b| && a[..n] == b[..n] && (n == |a| || a[n] < b[n])
  {
    if a == [] || b == [] || a[0] != b[0] {
      assert a[..0] == b[..0];
      assert forall n: nat :: n > 0 && n <= |a| && n < |b| && a[..n] == b[..n] ==> a[..n][0] == b[..n][0];
    } else {
      FirstDifferenceDecides(a[1..], b[1..]);
      if LexLess(a, b) {
        var n: nat :| n <= |a[1..]| && n < |b[1..]| && a[1..][..n] == b[1..][..n]
          && (n == |a[1..]| || a[1..][n] < b[1..][n]);
        assert a[..n + 1] == [a[0]] + a[1..][..n] && b[..n + 1] == [b[0]] + b[1..][..n];
      }
      if n: nat :| n <= |a| && n < |b| && a[..n] == b[..n] && (n == |a| || a[n] < b[n]) {
        assert a[1..][..n - 1] == a[..n][1..] && b[1..][..n - 1] == b[..n][1..];
      }
    }
  }
}
