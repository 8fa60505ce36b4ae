/** Capping text at a declared width: short text whole, long text as a prefix, a tilde run and a digest. */
module TextCap {
  import opened Bytes
  import opened Utf16Order

  const MIN_TEXT_BYTES: nat := 32
  const MAX_TEXT_BYTES: nat := 4096
  const DIGEST_HEX_CHARS: nat := 16
  const TILDE: Byte := 0x7E

  predicate IsPowerOfTwo(n: nat) { n == 1 || (n > 1 && n % 2 == 0 && IsPowerOfTwo(n / 2)) }

  predicate ValidCap(n: nat) { MIN_TEXT_BYTES <= n <= MAX_TEXT_BYTES && IsPowerOfTwo(n) }

  predicate IsContinuation(b: Byte) { 0x80 <= b < 0xC0 }

  /** The encoding of some sequence of Unicode scalar values. */
  ghost predicate WellFormed(t: Text) { exists s: seq<nat> :: IsScalars(s) && t == Utf8(s) }

  // ---------------------------------------------------------------- UTF-8 boundaries

  /** A code point's encoding starts with the one byte of it that continues nothing. */
  lemma OneLead(c: nat)
    requires IsScalar(c)
    ensures forall i :: 0 <= i < |Utf8Of(c)| ==> (IsContinuation(Utf8Of(c)[i]) <==> i > 0)
  {}

  lemma {:induction false} Utf8Concat(a: seq<nat>, b: seq<nat>)
    requires IsScalars(a) && IsScalars(b)
    ensures IsScalars(a + b) && Utf8(a + b) == Utf8(a) + Utf8(b)
  {
    if a == [] {
      assert a + b == b;
    } else {
      assert (a + b)[1..] == a[1..] + b;
      Utf8Concat(a[1..], b);
    }
  }

  lemma WellFormedConcat(a: Text, b: Text)
    requires WellFormed(a) && WellFormed(b)
    ensures WellFormed(a + b)
  {
    var s, t :| IsScalars(s) && IsScalars(t) && a == Utf8(s) && b == Utf8(t);
    Utf8Concat(s, t);
  }

  lemma {:induction false} AsciiIsWellFormed(t: Text)
    requires forall b :: b in t ==> b < 0x80
    ensures WellFormed(t)
  {
    if t == [] {
      assert IsScalars([]) && t == Utf8([]);
    } else {
      assert forall b :: b in t[1..] ==> b in t;
      AsciiIsWellFormed(t[1..]);
      var head := t[..1];
      assert t == head + t[1..] && head[0] in t;
      assert Utf8([head[0]]) == Utf8Of(head[0]) + Utf8([]) == head by { assert [head[0]][1..] == []; }
      assert IsScalars([head[0]]);
      WellFormedConcat(head, t[1..]);
    }
  }

  /** Cutting before a byte that continues nothing splits no code point. */
  lemma {:induction false} CutIsWellFormed(s: seq<nat>, p: nat)
    requires IsScalars(s) && p < |Utf8(s)| && !IsContinuation(Utf8(s)[p])
    ensures WellFormed(Utf8(s)[..p])
  {
    var t := Utf8(s);
    if p == 0 {
      AsciiIsWellFormed(t[..p]);
    } else {
      var head := Utf8Of(s[0]);
      assert t == head + Utf8(s[1..]);
      OneLead(s[0]);
      assert forall i :: 0 < i < |head| ==> t[i] == head[i] && IsContinuation(t[i]);
      assert p >= |head|;
      CutIsWellFormed(s[1..], p - |head|);
      assert t[..p] == head + Utf8(s[1..])[..p - |head|];
      assert Utf8([s[0]]) == head by { assert [s[0]][1..] == []; }
      assert IsScalars([s[0]]);
      WellFormedConcat(head, Utf8(s[1..])[..p - |head|]);
    }
  }

  /** No more than three continuation bytes stand in a row, and none stands first. */
  lemma {:induction false} LeadNearby(s: seq<nat>, p: nat)
    requires IsScalars(s) && p < |Utf8(s)|
    ensures exists q :: 0 <= q <= p && p - q <= 3 && !IsContinuation(Utf8(s)[q])
  {
    var t, head := Utf8(s), Utf8Of(s[0]);
    OneLead(s[0]);
    if p < |head| {
      assert t[0] == head[0] && !IsContinuation(t[0]);
    } else {
      LeadNearby(s[1..], p - |head|);
      var q :| 0 <= q <= p - |head| && p - |head| - q <= 3 && !IsContinuation(Utf8(s[1..])[q]);
      assert t[q + |head|] == Utf8(s[1..])[q];
      assert 0 <= q + |head| <= p && p - (q + |head|) <= 3 && !IsContinuation(t[q + |head|]);
    }
  }

  // ---------------------------------------------------------------- capping

  function Tildes(n: nat): (r: Text)
    ensures |r| == n && forall i :: 0 <= i < n ==> r[i] == TILDE
  {
    seq(n, _ => TILDE)
  }

  /** The longest prefix of at most `cap` - 17 bytes whose next byte continues nothing, then tildes. */
  ghost predicate CappedPrefix(text: Text, cap: nat, prefix: nat) {
    && prefix + DIGEST_HEX_CHARS + 1 <= cap && prefix < |text| && !IsContinuation(text[prefix])
    && forall q :: prefix < q <= cap - DIGEST_HEX_CHARS - 1 && q < |text| ==> IsContinuation(text[q])
  }

  method AppendCappedPrefix(out: Text, text: Text, cap: nat) returns (r: Text, ghost prefix: nat)
    requires ValidCap(cap) && |text| >= cap && WellFormed(text)
    ensures CappedPrefix(text, cap, prefix) && r == out + text[..prefix] + Tildes(cap - DIGEST_HEX_CHARS - prefix)
  {
    ghost var s :| IsScalars(s) && text == Utf8(s);
    LeadNearby(s, 0);
    var at := cap - DIGEST_HEX_CHARS - 1;
    while at > 0 && IsContinuation(text[at])
      invariant 0 <= at <= cap - DIGEST_HEX_CHARS - 1
      invariant forall q :: at < q < |text| && q <= cap - DIGEST_HEX_CHARS - 1 ==> IsContinuation(text[q])
    {
      at := at - 1;
    }
    prefix := at;
    r := out + text[..at] + Tildes(cap - DIGEST_HEX_CHARS - at);
  }

  /** The first eight digest bytes, in lower-case hexadecimal. */
  function Hex(digest: Text): (r: Text)
    ensures |r| == 2 * |digest| && forall b :: b in r ==> b < 0x80
  {
    if digest == [] then [] else Hex(digest[..|digest| - 1]) + [HexDigit(digest[|digest| - 1] / 16),
                                                                HexDigit(digest[|digest| - 1] % 16)]
  }

  /** What a cap makes of a text: itself when it is shorter, otherwise exactly the cap. */
  ghost predicate IsCapped(whole: Text, cap: nat, digest: Text, r: Text)
    requires |digest| == 32
  {
    if |whole| < cap then r == whole
    else exists prefix: nat :: CappedPrefix(whole, cap, prefix) && r == CappedForm(whole, cap, digest, prefix)
  }

  function CappedForm(whole: Text, cap: nat, digest: Text, prefix: nat): Text
    requires prefix <= |whole| && prefix + DIGEST_HEX_CHARS <= cap && |digest| == 32
  {
    whole[..prefix] + Tildes(cap - DIGEST_HEX_CHARS - prefix) + Hex(digest[..DIGEST_HEX_CHARS / 2])
  }

  method CapText(value: Text, cap: nat, repair: Text -> Text, sha256: Text -> Text) returns (r: Text)
    requires ValidCap(cap) && WellFormed(repair(value)) && |sha256(repair(value))| == 32
    ensures IsCapped(repair(value), cap, sha256(repair(value)), r)
  {
    var whole := repair(value);
    if |whole| < cap {
      return whole;
    }
    var digest := sha256(whole);
    ghost var prefix;
    r, prefix := AppendCappedPrefix([], whole, cap);
    var front := r;
    for i := 0 to DIGEST_HEX_CHARS / 2
      invariant r == front + Hex(digest[..i])
    {
      assert digest[..i + 1][..i] == digest[..i];
      r := r + [HexDigit(digest[i] / 16)] + [HexDigit(digest[i] % 16)];
      assert r == front + Hex(digest[..i + 1]);
    }
    assert CappedPrefix(whole, cap, prefix) && r == CappedForm(whole, cap, digest, prefix);
  }

  /** Prefix, padding and digest joined are well-formed when the prefix is. */
  lemma CappedFormWellFormed(whole: Text, cap: nat, digest: Text, prefix: nat)
    requires prefix <= |whole| && prefix + DIGEST_HEX_CHARS <= cap && |digest| == 32 && WellFormed(whole[..prefix])
    ensures |CappedForm(whole, cap, digest, prefix)| == cap && WellFormed(CappedForm(whole, cap, digest, prefix))
  {
    hide WellFormed, Hex;
    var tildes, hex := Tildes(cap - DIGEST_HEX_CHARS - prefix), Hex(digest[..DIGEST_HEX_CHARS / 2]);
    AsciiIsWellFormed(tildes);
    AsciiIsWellFormed(hex);
    WellFormedConcat(whole[..prefix], tildes);
    WellFormedConcat(whole[..prefix] + tildes, hex);
  }

  /** A long text takes exactly the cap, is cut between code points, and carries one to four tildes. */
  lemma CappedShape(whole: Text, cap: nat, digest: Text, prefix: nat)
    requires ValidCap(cap) && |whole| >= cap && WellFormed(whole) && |digest| == 32 && CappedPrefix(whole, cap, prefix)
    ensures var r := CappedForm(whole, cap, digest, prefix);
            |r| == cap && 1 <= cap - DIGEST_HEX_CHARS - prefix <= 4 && WellFormed(r) && WellFormed(whole[..prefix])
  {
    var s :| IsScalars(s) && whole == Utf8(s);
    CutIsWellFormed(s, prefix);
    var last := cap - DIGEST_HEX_CHARS - 1;
    LeadNearby(s, last);
    var q :| 0 <= q <= last && last - q <= 3 && !IsContinuation(whole[q]);
    assert q <= prefix;
    hide CappedForm;
    CappedFormWellFormed(whole, cap, digest, prefix);
  }

  /** A cap leaves one text and no other: shorter ones whole, longer ones at exactly the cap and well-formed. */
  lemma CapDecides(whole: Text, cap: nat, digest: Text, r: Text, r': Text)
    requires ValidCap(cap) && WellFormed(whole) && |digest| == 32 && IsCapped(whole, cap, digest, r)
        && IsCapped(whole, cap, digest, r')
    ensures r == r' && |r| <= cap && WellFormed(r) && (|r| == cap <==> |whole| >= cap)
  {
    if |whole| >= cap {
      var p: nat :| CappedPrefix(whole, cap, p) && r == CappedForm(whole, cap, digest, p);
      var q: nat :| CappedPrefix(whole, cap, q) && r' == CappedForm(whole, cap, digest, q);
      assert p == q;
      CappedShape(whole, cap, digest, p);
    }
  }

  /** The caps a document may declare, and what a longer text becomes: the longest prefix of whole code points that
      leaves room for a tilde and sixteen digits, tildes up to the digits, and the first eight bytes of the digest. */
  lemma CapInFigures(cap: nat)
    ensures ValidCap(cap) <==> cap in {32, 64, 128, 256, 512, 1024, 2048, 4096}
  {
    if ValidCap(cap) { PowersUpTo(cap); }
    assert IsPowerOfTwo(1) && IsPowerOfTwo(2) && IsPowerOfTwo(4) && IsPowerOfTwo(8) && IsPowerOfTwo(16);
    assert IsPowerOfTwo(32) && IsPowerOfTwo(64) && IsPowerOfTwo(128) && IsPowerOfTwo(256);
    assert IsPowerOfTwo(512) && IsPowerOfTwo(1024) && IsPowerOfTwo(2048) && IsPowerOfTwo(4096);
  }

  lemma {:induction false} PowersUpTo(n: nat)
    requires IsPowerOfTwo(n) && n <= 4096
    ensures n in {1, 2, 4, 8, 16, 32, 64, 128, 256, 512, 1024, 2048, 4096}
  {
    if n > 1 { PowersUpTo(n / 2); }
  }

  lemma CappedInFigures(whole: Text, cap: nat, digest: Text, prefix: nat)
    requires ValidCap(cap) && |whole| >= cap && |digest| == 32 && CappedPrefix(whole, cap, prefix)
    ensures var r := CappedForm(whole, cap, digest, prefix);
            && prefix + 17 <= cap && prefix < |whole| && r[..prefix] == whole[..prefix]
            && (forall i :: prefix <= i < cap - 16 ==> r[i] == '~' as int)
            && (forall k :: 0 <= k < 8 ==>
                  r[cap - 16 + 2 * k] == HexDigit(digest[k] / 16) && r[cap - 15 + 2 * k] == HexDigit(digest[k] % 16))
  {
    var head, tildes, hex := whole[..prefix], Tildes(cap - 16 - prefix), Hex(digest[..8]);
    HexAt(digest[..8]);
    hide Hex, ValidCap, CappedPrefix;
    assert CappedForm(whole, cap, digest, prefix) == head + tildes + hex;
    hide *;
    PartsOfThree(head, tildes, hex);
  }

  lemma PartsOfThree(a: Text, b: Text, c: Text)
    ensures var r := a + b + c;
            && |r| == |a| + |b| + |c| && r[..|a|] == a
            && (forall i :: |a| <= i < |a| + |b| ==> r[i] == b[i - |a|])
            && (forall i :: 0 <= i < |c| ==> r[|a| + |b| + i] == c[i])
  {}

  lemma {:induction false} HexAt(bytes: Text)
    ensures |Hex(bytes)| == 2 * |bytes|
    ensures forall k :: 0 <= k < |bytes| ==>
              Hex(bytes)[2 * k] == HexDigit(bytes[k] / 16) && Hex(bytes)[2 * k + 1] == HexDigit(bytes[k] % 16)
  {
    if bytes != [] { HexAt(bytes[..|bytes| - 1]); }
  }
}
