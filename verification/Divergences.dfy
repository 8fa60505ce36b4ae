/** Kullback-Leibler and Jensen-Shannon divergence of two count tables, in fixed point over an unknown logarithm. */
module Divergences {
  import opened Orders

  /** The fixed-point arithmetic divergences are computed in: a logarithm, a rounded division, a reading as a real. */
  datatype Fixed = Fixed(log2: nat -> int, round: (int, nat) -> int, toReal: int -> real)

  /** What self-comparison needs of it: zero divides and reads as zero. */
  ghost predicate ZeroIsZero(fixed: Fixed) { fixed.toReal(0) == 0.0 && forall d: nat :: fixed.round(0, d) == 0 }

  datatype Divergence = Divergence(kl: real, js: real)

  function IntSum<T>(s: seq<T>, f: T -> int): int { if s == [] then 0 else IntSum(s[..|s| - 1], f) + f(s[|s| - 1]) }

  lemma {:induction false} IntSumZero<T>(s: seq<T>, f: T -> int)
    requires forall x :: x in s ==> f(x) == 0
    ensures IntSum(s, f) == 0
  {
    if s != [] {
      assert s[|s| - 1] in s;
      assert forall x :: x in s[..|s| - 1] ==> x in s;
      IntSumZero(s[..|s| - 1], f);
    }
  }

  /** A count smoothed by one, so no logarithm is taken of zero. */
  function Smoothed<K>(counts: map<K, nat>, key: K): nat { (if key in counts then counts[key] else 0) + 1 }

  /** A key's smoothed share, brought over the other table's denominator. */
  function ScaledShare<K>(counts: map<K, nat>, otherTotal: nat, keys: nat, key: K): nat
      { Smoothed(counts, key) * (otherTotal + keys) }

  /** One table's half of the divergence at one key, against the midpoint of the two. */
  function JsTerm<K>(own: map<K, nat>, ownTotal: nat, other: map<K, nat>, otherTotal: nat, keys: nat,
                     fixed: Fixed): K -> int {
    (key: K) =>
      Smoothed(own, key) * (fixed.log2(2 * ScaledShare(own, otherTotal, keys, key))
                            - fixed.log2(ScaledShare(own, otherTotal, keys, key)
                                + ScaledShare(other, ownTotal, keys, key)))
  }

  function KlTerm<K>(own: map<K, nat>, ownTotal: nat, other: map<K, nat>, otherTotal: nat, keys: nat,
                     fixed: Fixed): K -> int {
    (key: K) =>
      Smoothed(own, key) * (fixed.log2(ScaledShare(own, otherTotal, keys, key)) - fixed.log2(ScaledShare(other,
          ownTotal, keys, key)))
  }

  function Half<K>(keys: seq<K>, own: map<K, nat>, ownTotal: nat, other: map<K, nat>, otherTotal: nat,
                   fixed: Fixed): int {
    fixed.round(IntSum(keys, JsTerm(own, ownTotal, other, otherTotal, |keys|, fixed)), ownTotal + |keys|)
  }

  function Clamped(x: real): real { if x < 0.0 then 0.0 else if x > 1.0 then 1.0 else x }

  ghost function UnionKeys<K(!new)>(less: (K, K) -> bool, a: map<K, nat>, b: map<K, nat>): seq<K>
    requires StrictTotal(less)
  {
    SortedOf(less, a.Keys + b.Keys)
  }

  /** The two divergences over the union of keys; nothing to compare is no divergence. */
  ghost function DivergenceOf<K(!new)>(less: (K, K) -> bool, cur: map<K, nat>, curTotal: nat, prev: map<K, nat>,
                                       prevTotal: nat, fixed: Fixed): Divergence
    requires StrictTotal(less)
  {
    var keys := UnionKeys(less, cur, prev);
    if keys == [] || curTotal == 0 || prevTotal == 0 then Divergence(0.0, 0.0)
    else
      var kl := fixed.toReal(fixed.round(IntSum(keys, KlTerm(cur, curTotal, prev, prevTotal, |keys|, fixed)),
                                         curTotal + |keys|));
      Divergence(if kl < 0.0 then 0.0 else kl, JsOver(keys, cur, curTotal, prev, prevTotal, fixed))
  }

  function JsOver<K>(keys: seq<K>, own: map<K, nat>, ownTotal: nat, other: map<K, nat>, otherTotal: nat,
                     fixed: Fixed): real {
    Clamped(0.5 * fixed.toReal(Half(keys, own, ownTotal, other, otherTotal, fixed)
        + Half(keys, other, otherTotal, own, ownTotal, fixed)))
  }

  lemma NextTerm<T>(s: seq<T>, i: nat, f: T -> int)
    requires i < |s|
    ensures IntSum(s[..i + 1], f) == IntSum(s[..i], f) + f(s[i])
  {
    assert s[..i + 1][..i] == s[..i];
  }

  lemma ShareIs<K>(counts: map<K, nat>, otherTotal: nat, keys: nat, key: K)
    ensures ScaledShare(counts, otherTotal, keys, key) == Smoothed(counts, key) * (otherTotal + keys)
  {}

  lemma TermsAt<K>(own: map<K, nat>, ownTotal: nat, other: map<K, nat>, otherTotal: nat, keys: nat, fixed: Fixed,
                   key: K, p: nat, pArg: nat, qArg: nat)
    requires p == Smoothed(own, key) && pArg == ScaledShare(own, otherTotal, keys, key)
        && qArg == ScaledShare(other, ownTotal, keys, key)
    ensures KlTerm(own, ownTotal, other, otherTotal, keys, fixed)(key) == p * (fixed.log2(pArg) - fixed.log2(qArg))
    ensures JsTerm(own, ownTotal, other, otherTotal, keys, fixed)(key)
        == p * (fixed.log2(2 * pArg) - fixed.log2(pArg + qArg))
  {
    hide Smoothed, ScaledShare;
  }

  method SumTerms<K(==)>(keys: seq<K>, cur: map<K, nat>, curTotal: nat, prev: map<K, nat>, prevTotal: nat,
                         fixed: Fixed) returns (kl: int, own: int, other: int)
    ensures kl == IntSum(keys, KlTerm(cur, curTotal, prev, prevTotal, |keys|, fixed))
    ensures own == IntSum(keys, JsTerm(cur, curTotal, prev, prevTotal, |keys|, fixed))
    ensures other == IntSum(keys, JsTerm(prev, prevTotal, cur, curTotal, |keys|, fixed))
  {
    hide IntSum, KlTerm, JsTerm, Smoothed, ScaledShare;
    NoTerms(KlTerm(cur, curTotal, prev, prevTotal, |keys|, fixed));
    NoTerms(JsTerm(cur, curTotal, prev, prevTotal, |keys|, fixed));
    NoTerms(JsTerm(prev, prevTotal, cur, curTotal, |keys|, fixed));
    var n := |keys|;
    kl, own, other := 0, 0, 0;
    for i := 0 to n
      invariant kl == IntSum(keys[..i], KlTerm(cur, curTotal, prev, prevTotal, n, fixed))
      invariant own == IntSum(keys[..i], JsTerm(cur, curTotal, prev, prevTotal, n, fixed))
      invariant other == IntSum(keys[..i], JsTerm(prev, prevTotal, cur, curTotal, n, fixed))
    {
      var key := keys[i];
      NextTerm(keys, i, KlTerm(cur, curTotal, prev, prevTotal, n, fixed));
      NextTerm(keys, i, JsTerm(cur, curTotal, prev, prevTotal, n, fixed));
      NextTerm(keys, i, JsTerm(prev, prevTotal, cur, curTotal, n, fixed));
      var p, q := Smoothed(cur, key), Smoothed(prev, key);
      var pArg, qArg := p * (prevTotal + n), q * (curTotal + n);
      ShareIs(cur, prevTotal, n, key);
      ShareIs(prev, curTotal, n, key);
      TermsAt(cur, curTotal, prev, prevTotal, n, fixed, key, p, pArg, qArg);
      TermsAt(prev, prevTotal, cur, curTotal, n, fixed, key, q, qArg, pArg);
      var log2D := fixed.log2(pArg + qArg);
      kl := kl + p * (fixed.log2(pArg) - fixed.log2(qArg));
      own := own + p * (fixed.log2(2 * pArg) - log2D);
      other := other + q * (fixed.log2(2 * qArg) - log2D);
    }
    assert keys[..n] == keys;
  }

  lemma NoTerms<T>(f: T -> int)
    ensures IntSum([], f) == 0
  {}

  method ComputeDivergence<K(==,!new)>(less: (K, K) -> bool, cur: map<K, nat>, curTotal: nat, prev: map<K, nat>,
                                       prevTotal: nat, fixed: Fixed)
    returns (r: Divergence)
    requires StrictTotal(less)
    ensures r == DivergenceOf(less, cur, curTotal, prev, prevTotal, fixed)
  {
    hide StrictTotal, IntSum, KlTerm, JsTerm;
    var keys := SortedKeys(less, cur.Keys + prev.Keys);
    if keys == [] || curTotal == 0 || prevTotal == 0 {
      return Divergence(0.0, 0.0);
    }
    var kl, own, other := SumTerms(keys, cur, curTotal, prev, prevTotal, fixed);
    var klValue := fixed.toReal(fixed.round(kl, curTotal + |keys|));
    var jsValue := 0.5 * fixed.toReal(fixed.round(own, curTotal + |keys|) + fixed.round(other, prevTotal + |keys|));
    if klValue < 0.0 {
      klValue := 0.0;
    }
    return Divergence(klValue, Clamped(jsValue));
  }

  method SortedKeys<K(==,!new)>(less: (K, K) -> bool, keys: set<K>) returns (r: seq<K>)
    requires StrictTotal(less)
    ensures r == SortedOf(less, keys)
  {
    var list: seq<K> := [];
    var left := keys;
    while left != {}
      invariant left <= keys && Elements(list) == keys - left
      decreases left
    {
      var k :| k in left;
      assert Elements(list + [k]) == Elements(list) + {k};
      list := list + [k];
      left := left - {k};
    }
    r := SortedSet(less, list);
    SortedOfUnique(less, r, keys);
  }

  lemma SelfTerms<K>(counts: map<K, nat>, total: nat, keys: nat, fixed: Fixed, key: K)
    ensures KlTerm(counts, total, counts, total, keys, fixed)(key) == 0
        && JsTerm(counts, total, counts, total, keys, fixed)(key) == 0
  {
    hide Smoothed, KlTerm, JsTerm, ScaledShare;
    var p, share := Smoothed(counts, key), ScaledShare(counts, total, keys, key);
    TermsAt(counts, total, counts, total, keys, fixed, key, p, share, share);
    assert share + share == 2 * share;
  }

  /** A table does not diverge from itself, whatever the logarithm. */
  lemma SelfDivergenceIsZero<K(!new)>(less: (K, K) -> bool, counts: map<K, nat>, total: nat, fixed: Fixed)
    requires StrictTotal(less) && ZeroIsZero(fixed)
    ensures DivergenceOf(less, counts, total, counts, total, fixed) == Divergence(0.0, 0.0)
  {
    hide StrictTotal, IntSum, KlTerm, JsTerm, UnionKeys;
    var keys := UnionKeys(less, counts, counts);
    forall key ensures KlTerm(counts, total, counts, total, |keys|, fixed)(key) == 0
        && JsTerm(counts, total, counts, total, |keys|, fixed)(key) == 0 {
      SelfTerms(counts, total, |keys|, fixed, key);
    }
    IntSumZero(keys, KlTerm(counts, total, counts, total, |keys|, fixed));
    IntSumZero(keys, JsTerm(counts, total, counts, total, |keys|, fixed));
  }

  /** The Jensen-Shannon divergence does not care which table came first. */
  lemma JsIsSymmetric<K(!new)>(less: (K, K) -> bool, a: map<K, nat>, aTotal: nat, b: map<K, nat>, bTotal: nat,
                               fixed: Fixed)
    requires StrictTotal(less)
    ensures DivergenceOf(less, a, aTotal, b, bTotal, fixed).js == DivergenceOf(less, b, bTotal, a, aTotal, fixed).js
  {
    hide StrictTotal, IntSum, KlTerm, JsOver;
    assert a.Keys + b.Keys == b.Keys + a.Keys;
    var keys := UnionKeys(less, a, b);
    JsOverSymmetric(keys, a, aTotal, b, bTotal, fixed);
  }

  lemma JsOverSymmetric<K>(keys: seq<K>, a: map<K, nat>, aTotal: nat, b: map<K, nat>, bTotal: nat, fixed: Fixed)
    ensures JsOver(keys, a, aTotal, b, bTotal, fixed) == JsOver(keys, b, bTotal, a, aTotal, fixed)
  {
    hide Half, Clamped;
    var x, y := Half(keys, a, aTotal, b, bTotal, fixed), Half(keys, b, bTotal, a, aTotal, fixed);
    assert x + y == y + x;
  }

  // ---------------------------------------------------------------- in figures

  /** A key's count raised by one, over the total raised by one for every key; both shares are brought to one
      denominator by the other table's. */
  function Share<K>(counts: map<K, nat>, k: K, otherTotal: nat, n: nat): nat {
    (1 + if k in counts then counts[k] else 0) * (otherTotal + n)
  }

  /** The sum over the keys of a table's raised count by the logarithm of its share against another's. */
  function KlSum<K>(keys: seq<K>, own: map<K, nat>, ownTotal: nat, other: map<K, nat>, otherTotal: nat, n: nat,
                    log2: nat -> int): int {
    if keys == [] then 0
    else
      var k := keys[0];
      (1 + if k in own then own[k] else 0) * (log2(Share(own, k, otherTotal, n)) - log2(Share(other, k, ownTotal, n)))
      + KlSum(keys[1..], own, ownTotal, other, otherTotal, n, log2)
  }

  /** The same against the mean of the two shares. */
  function JsSum<K>(keys: seq<K>, own: map<K, nat>, ownTotal: nat, other: map<K, nat>, otherTotal: nat, n: nat,
                    log2: nat -> int): int {
    if keys == [] then 0
    else
      var k := keys[0];
      var p, q := Share(own, k, otherTotal, n), Share(other, k, ownTotal, n);
      (1 + if k in own then own[k] else 0) * (log2(2 * p) - log2(p + q))
      + JsSum(keys[1..], own, ownTotal, other, otherTotal, n, log2)
  }

  lemma {:induction false} IntSumFront<T>(s: seq<T>, f: T -> int)
    requires s != []
    ensures IntSum(s, f) == f(s[0]) + IntSum(s[1..], f)
  {
    if |s| > 1 {
      IntSumFront(s[..|s| - 1], f);
      assert s[..|s| - 1][1..] == s[1..][..|s| - 2];
    }
  }

  lemma {:induction false} SumsInFigures<K>(keys: seq<K>, own: map<K, nat>, ownTotal: nat, other: map<K, nat>,
                                            otherTotal: nat, n: nat, fixed: Fixed)
    ensures IntSum(keys, KlTerm(own, ownTotal, other, otherTotal, n, fixed))
         == KlSum(keys, own, ownTotal, other, otherTotal, n, fixed.log2)
    ensures IntSum(keys, JsTerm(own, ownTotal, other, otherTotal, n, fixed))
         == JsSum(keys, own, ownTotal, other, otherTotal, n, fixed.log2)
  {
    if keys != [] {
      var k := keys[0];
      IntSumFront(keys, KlTerm(own, ownTotal, other, otherTotal, n, fixed));
      IntSumFront(keys, JsTerm(own, ownTotal, other, otherTotal, n, fixed));
      SumsInFigures(keys[1..], own, ownTotal, other, otherTotal, n, fixed);
      SharesAgree(own, k, otherTotal, n);
      SharesAgree(other, k, ownTotal, n);
      TermsAt(own, ownTotal, other, otherTotal, n, fixed, k, 1 + if k in own then own[k] else 0,
              Share(own, k, otherTotal, n), Share(other, k, ownTotal, n));
      hide KlTerm, JsTerm, Share, IntSum;
    }
  }

  lemma SharesAgree<K>(counts: map<K, nat>, k: K, otherTotal: nat, n: nat)
    ensures Share(counts, k, otherTotal, n) == ScaledShare(counts, otherTotal, n, k)
    ensures Smoothed(counts, k) == 1 + if k in counts then counts[k] else 0
  {}

  lemma JsOverInFigures<K>(keys: seq<K>, own: map<K, nat>, ownTotal: nat, other: map<K, nat>, otherTotal: nat,
                           fixed: Fixed)
    ensures var n := |keys|;
            var a := fixed.round(JsSum(keys, own, ownTotal, other, otherTotal, n, fixed.log2), ownTotal + n);
            var b := fixed.round(JsSum(keys, other, otherTotal, own, ownTotal, n, fixed.log2), otherTotal + n);
            var js := fixed.toReal(a + b) / 2.0;
            JsOver(keys, own, ownTotal, other, otherTotal, fixed)
            == if js >= 1.0 then 1.0 else if js >= 0.0 then js else 0.0
  {
    SumsInFigures(keys, own, ownTotal, other, otherTotal, |keys|, fixed);
    SumsInFigures(keys, other, otherTotal, own, ownTotal, |keys|, fixed);
    hide IntSum, KlTerm, JsTerm, KlSum, JsSum;
  }

  lemma KeysThere<K>(s: set<K>, keys: seq<K>)
    requires s != {} && |keys| == |s|
    ensures keys != []
  {}

  lemma DivergenceOver<K(!new)>(less: (K, K) -> bool, cur: map<K, nat>, curTotal: nat, prev: map<K, nat>,
                                prevTotal: nat, fixed: Fixed, keys: seq<K>)
    requires StrictTotal(less) && curTotal > 0 && prevTotal > 0 && UnionKeys(less, cur, prev) == keys != []
    ensures var r := DivergenceOf(less, cur, curTotal, prev, prevTotal, fixed);
            var kl := fixed.toReal(fixed.round(IntSum(keys, KlTerm(cur, curTotal, prev, prevTotal, |keys|, fixed)),
                                               curTotal + |keys|));
            r.kl == (if kl >= 0.0 then kl else 0.0) && r.js == JsOver(keys, cur, curTotal, prev, prevTotal, fixed)
  {
    hide IntSum, KlTerm, UnionKeys, StrictTotal, JsOver;
  }

  lemma DivergenceParts<K(!new)>(less: (K, K) -> bool, cur: map<K, nat>, curTotal: nat, prev: map<K, nat>,
                                 prevTotal: nat, fixed: Fixed)
    requires StrictTotal(less) && cur.Keys + prev.Keys != {} && curTotal > 0 && prevTotal > 0
    ensures var keys := SortedOf(less, cur.Keys + prev.Keys);
            var r, n := DivergenceOf(less, cur, curTotal, prev, prevTotal, fixed), |keys|;
            var directed := KlSum(keys, cur, curTotal, prev, prevTotal, n, fixed.log2);
            var kl := fixed.toReal(fixed.round(directed, curTotal + n));
            && n == |cur.Keys + prev.Keys| && r.kl == (if kl >= 0.0 then kl else 0.0)
            && r.js == JsOver(keys, cur, curTotal, prev, prevTotal, fixed)
  {
    hide *;
    var keys := SortedOf(less, cur.Keys + prev.Keys);
    UnionIs(less, cur, prev);
    KeysThere(cur.Keys + prev.Keys, keys);
    SumsInFigures(keys, cur, curTotal, prev, prevTotal, |keys|, fixed);
    DivergenceOver(less, cur, curTotal, prev, prevTotal, fixed, keys);
  }

  lemma UnionIs<K(!new)>(less: (K, K) -> bool, cur: map<K, nat>, prev: map<K, nat>)
    requires StrictTotal(less)
    ensures UnionKeys(less, cur, prev) == SortedOf(less, cur.Keys + prev.Keys)
  {
    hide SortedOf, StrictTotal;
  }

  /** The two divergences in figures, over every key of either table once: the directed one is the current table's sum
      against the previous one's, rounded by its raised total and never below zero; the symmetric one is half of both
      tables' rounded sums against the mean, kept between zero and one. */
  lemma DivergenceInFigures<K(!new)>(less: (K, K) -> bool, cur: map<K, nat>, curTotal: nat, prev: map<K, nat>,
                                     prevTotal: nat, fixed: Fixed)
    requires StrictTotal(less) && cur.Keys + prev.Keys != {} && curTotal > 0 && prevTotal > 0
    ensures var keys := SortedOf(less, cur.Keys + prev.Keys);
            var r, n := DivergenceOf(less, cur, curTotal, prev, prevTotal, fixed), |keys|;
            var own := fixed.round(JsSum(keys, cur, curTotal, prev, prevTotal, n, fixed.log2), curTotal + n);
            var other := fixed.round(JsSum(keys, prev, prevTotal, cur, curTotal, n, fixed.log2), prevTotal + n);
            var directed := KlSum(keys, cur, curTotal, prev, prevTotal, n, fixed.log2);
            var kl, js := fixed.toReal(fixed.round(directed, curTotal + n)), fixed.toReal(own + other) / 2.0;
            && n == |cur.Keys + prev.Keys|
            && r.kl == (if kl >= 0.0 then kl else 0.0)
            && r.js == (if js >= 1.0 then 1.0 else if js >= 0.0 then js else 0.0)
  {
    hide *;
    var keys := SortedOf(less, cur.Keys + prev.Keys);
    DivergenceParts(less, cur, curTotal, prev, prevTotal, fixed);
    JsOverInFigures(keys, cur, curTotal, prev, prevTotal, fixed);
  }
}
