/** Strict orders, sorted sequences and their uniqueness. `Sort` and `LowerBound`
    stand for the standard library's std::ranges::sort and std::lower_bound. */
module Orders {

  function Min(a: nat, b: nat): nat { if a <= b then a else b }

  function Max(a: nat, b: nat): nat { if a <= b then b else a }

  function Magnitude(x: int): nat { if x < 0 then -x else x }

  /** Irreflexive and transitive: all that sorting needs of its comparator. */
  ghost predicate StrictPartial<T(!new)>(less: (T, T) -> bool)
  {
    && (forall x :: !less(x, x))
    && (forall x, y, z {:trigger less(x, y), less(y, z)} :: less(x, y) && less(y, z) ==> less(x, z))
  }

  ghost predicate StrictTotal<T(!new)>(less: (T, T) -> bool)
  {
    && StrictPartial(less)
    && (forall x, y {:trigger less(x, y)} :: x == y || less(x, y) || less(y, x))
  }

  /** No later element is below an earlier one. */
  ghost predicate Sorted<T>(less: (T, T) -> bool, s: seq<T>)
  {
    forall i, j {:trigger s[i], s[j]} :: 0 <= i < j < |s| ==> !less(s[j], s[i])
  }

  /** Every earlier element is below every later one, so no two are equal. */
  ghost predicate Ascending<T>(less: (T, T) -> bool, s: seq<T>)
  {
    forall i, j {:trigger s[i], s[j]} :: 0 <= i < j < |s| ==> less(s[i], s[j])
  }

  ghost function Elements<T>(s: seq<T>): set<T> { set x | x in s }

  ghost predicate NoDuplicates<T>(s: seq<T>)
  {
    forall i, j {:trigger s[i], s[j]} :: 0 <= i < j < |s| ==> s[i] != s[j]
  }

  lemma AscendingIsSorted<T(!new)>(less: (T, T) -> bool, s: seq<T>)
    requires StrictPartial(less) && Ascending(less, s)
    ensures Sorted(less, s) && NoDuplicates(s)
  {
    forall i, j | 0 <= i < j < |s|
      ensures !less(s[j], s[i]) && s[i] != s[j]
    {
      assert less(s[i], s[j]);
      var x, y := s[i], s[j];
      assert less(x, y) && !less(x, x);
    }
  }

  lemma HeadIsNotAbove<T(!new)>(less: (T, T) -> bool, s: seq<T>, x: T)
    requires Sorted(less, s) && x in s
    ensures x == s[0] || !less(x, s[0])
  {
    var i :| 0 <= i < |s| && s[i] == x;
  }

  lemma TailOfMultiset<T>(s: seq<T>)
    requires s != []
    ensures multiset(s[1..]) == multiset(s) - multiset{s[0]}
  {
    assert s == [s[0]] + s[1..];
  }

  lemma RemoveFromMultiset<T>(s: seq<T>, j: nat)
    requires j < |s|
    ensures multiset(s[..j] + s[j + 1..]) == multiset(s) - multiset{s[j]}
  {
    assert s == s[..j] + [s[j]] + s[j + 1..];
  }

  lemma TwiceInMultiset<T>(s: seq<T>, i: nat, j: nat)
    requires i < j < |s| && s[i] == s[j]
    ensures multiset(s)[s[i]] >= 2
  {
    assert s == s[..i] + [s[i]] + s[i + 1..j] + [s[j]] + s[j + 1..];
  }

  lemma {:induction false} OnceInMultiset<T>(s: seq<T>, x: T)
    requires NoDuplicates(s)
    ensures multiset(s)[x] <= 1
  {
    if s != [] {
      var front, last := s[..|s| - 1], s[|s| - 1];
      assert s == front + [last];
      OnceInMultiset(front, x);
      if last == x { assert x !in front; }
    }
  }

  lemma NewItem<T>(items: seq<T>, x: T)
    requires NoDuplicates(items) && x !in Elements(items)
    ensures NoDuplicates(items + [x]) && Elements(items + [x]) == Elements(items) + {x}
  {}

  /** Sorting distinct items under a total order gives the one ascending arrangement. */
  lemma SortedIsRanked<T(!new)>(less: (T, T) -> bool, sorted: seq<T>, items: seq<T>)
    requires StrictTotal(less) && Sorted(less, sorted) && multiset(sorted) == multiset(items) && NoDuplicates(items)
    ensures Ascending(less, sorted) && Elements(sorted) == Elements(items)
  {
    assert forall x :: x in sorted <==> x in multiset(sorted);
    assert forall x :: x in items <==> x in multiset(items);
    forall i, j | 0 <= i < j < |sorted| ensures less(sorted[i], sorted[j]) {
      var x, y := sorted[i], sorted[j];
      assert !less(y, x) && (x == y || less(x, y) || less(y, x));
      if x == y {
        TwiceInMultiset(sorted, i, j);
        OnceInMultiset(items, x);
      }
    }
  }

  // ---------------------------------------------------------------- sums

  function Sum<T>(s: seq<T>, weight: T -> nat): nat {
    if s == [] then 0 else Sum(s[..|s| - 1], weight) + weight(s[|s| - 1])
  }

  lemma SumSnoc<T>(s: seq<T>, x: T, weight: T -> nat)
    ensures Sum(s + [x], weight) == Sum(s, weight) + weight(x)
  {
    assert (s + [x])[..|s|] == s;
  }

  lemma {:induction false} SumConcat<T>(a: seq<T>, b: seq<T>, weight: T -> nat)
    ensures Sum(a + b, weight) == Sum(a, weight) + Sum(b, weight)
  {
    if b == [] {
      assert a + b == a;
    } else {
      var front, last := b[..|b| - 1], b[|b| - 1];
      assert a + b == (a + front) + [last] && b == front + [last];
      SumConcat(a, front, weight);
      SumSnoc(a + front, last, weight);
    }
  }

  lemma RemoveFromSum<T>(s: seq<T>, j: nat, weight: T -> nat)
    requires j < |s|
    ensures Sum(s, weight) == Sum(s[..j] + s[j + 1..], weight) + weight(s[j])
  {
    assert s[..j + 1] == s[..j] + [s[j]];
    assert s == s[..j + 1] + s[j + 1..];
    SumSnoc(s[..j], s[j], weight);
    SumConcat(s[..j + 1], s[j + 1..], weight);
    SumConcat(s[..j], s[j + 1..], weight);
  }

  /** A sum depends only on the multiset of its terms. */
  lemma {:induction false} SumPermutation<T>(a: seq<T>, b: seq<T>, weight: T -> nat)
    requires multiset(a) == multiset(b)
    ensures Sum(a, weight) == Sum(b, weight)
    decreases |a|
  {
    assert |a| == |multiset(a)| == |b|;
    if a != [] {
      var i := |a| - 1;
      assert a[i] in multiset(a);
      var j :| 0 <= j < |b| && b[j] == a[i];
      RemoveFromMultiset(a, i);
      RemoveFromMultiset(b, j);
      RemoveFromSum(a, i, weight);
      RemoveFromSum(b, j, weight);
      SumPermutation(a[..i] + a[i + 1..], b[..j] + b[j + 1..], weight);
    }
  }

  lemma {:induction false} SameSums<T, U>(s: seq<T>, t: seq<U>, f: T -> nat, g: U -> nat)
    requires |s| == |t| && forall i :: 0 <= i < |s| ==> f(s[i]) == g(t[i])
    ensures Sum(s, f) == Sum(t, g)
  {
    if s != [] { SameSums(s[..|s| - 1], t[..|t| - 1], f, g); }
  }

  function MapSeq<T, U>(s: seq<T>, f: T -> U): (r: seq<U>)
    ensures |r| == |s| && forall i :: 0 <= i < |r| ==> r[i] == f(s[i])
  {
    seq(|s|, i requires 0 <= i < |s| => f(s[i]))
  }

  /** Mapping a permutation gives a permutation. */
  lemma {:induction false} MapPermutation<T, U>(a: seq<T>, b: seq<T>, f: T -> U)
    requires multiset(a) == multiset(b)
    ensures multiset(MapSeq(a, f)) == multiset(MapSeq(b, f))
    decreases |a|
  {
    assert |a| == |multiset(a)| == |b|;
    if a != [] {
      var i := |a| - 1;
      assert a[i] in multiset(a);
      var j :| 0 <= j < |b| && b[j] == a[i];
      RemoveFromMultiset(a, i);
      RemoveFromMultiset(b, j);
      MapPermutation(a[..i] + a[i + 1..], b[..j] + b[j + 1..], f);
      MapRemoved(a, i, f);
      MapRemoved(b, j, f);
    }
  }

  lemma MapRemoved<T, U>(s: seq<T>, j: nat, f: T -> U)
    requires j < |s|
    ensures multiset(MapSeq(s, f)) == multiset(MapSeq(s[..j] + s[j + 1..], f)) + multiset{f(s[j])}
  {
    var m := MapSeq(s, f);
    RemoveFromMultiset(m, j);
    assert m[..j] + m[j + 1..] == MapSeq(s[..j] + s[j + 1..], f);
    assert m[j] in multiset(m);
  }

  // ---------------------------------------------------------------- uniqueness

  /** Under a total order, a sequence is determined by its elements and their multiplicity. */
  lemma {:induction false} SortedUnique<T(!new)>(less: (T, T) -> bool, a: seq<T>, b: seq<T>)
    requires StrictTotal(less) && Sorted(less, a) && Sorted(less, b)
    requires multiset(a) == multiset(b)
    ensures a == b
  {
    assert |a| == |multiset(a)| == |b|;
    if a != [] {
      assert a[0] in multiset(a) && b[0] in multiset(b);
      HeadIsNotAbove(less, a, b[0]);
      HeadIsNotAbove(less, b, a[0]);
      TailOfMultiset(a);
      TailOfMultiset(b);
      SortedUnique(less, a[1..], b[1..]);
      assert a == [a[0]] + a[1..] && b == [b[0]] + b[1..];
    }
  }

  lemma NoElements<T>(s: seq<T>)
    ensures s == [] <==> Elements(s) == {}
  {
    if s != [] { assert s[0] in Elements(s); }
  }

  /** Under a total order, a strictly ascending sequence is determined by its set of elements. */
  lemma {:induction false} AscendingUnique<T(!new)>(less: (T, T) -> bool, a: seq<T>, b: seq<T>)
    requires StrictTotal(less) && Ascending(less, a) && Ascending(less, b)
    requires Elements(a) == Elements(b)
    ensures a == b
  {
    NoElements(a);
    NoElements(b);
    if a != [] {
      assert a[0] in Elements(b);
      assert b[0] in Elements(a);
      var i :| 0 <= i < |a| && a[i] == b[0];
      var j :| 0 <= j < |b| && b[j] == a[0];
      assert a[0] == b[0] by {
        var x, y := a[0], b[0];
        assert x == y || less(x, y);
        assert x == y || less(y, x);
        assert !less(x, x);
      }
      AscendingIsSorted(less, a);
      AscendingIsSorted(less, b);
      forall x
        ensures x in Elements(a[1..]) <==> x in Elements(b[1..])
      {
        assert a == [a[0]] + a[1..] && b == [b[0]] + b[1..];
        assert a[0] !in a[1..] && b[0] !in b[1..];
        assert x in Elements(a) <==> x in Elements(b);
      }
      AscendingUnique(less, a[1..], b[1..]);
    }
  }

  ghost predicate IsLeast<T>(less: (T, T) -> bool, s: set<T>, m: T)
  {
    m in s && forall x {:trigger x in s} :: x in s && x != m ==> less(m, x)
  }

  lemma {:induction false} HasLeast<T(!new)>(less: (T, T) -> bool, s: set<T>)
    requires StrictTotal(less) && s != {}
    ensures exists m :: IsLeast(less, s, m)
    decreases |s|
  {
    var e :| e in s;
    if s == {e} {
      assert IsLeast(less, s, e);
    } else {
      HasLeast(less, s - {e});
      var r :| IsLeast(less, s - {e}, r);
      if less(r, e) {
        assert forall x :: x in s && x != e ==> x in s - {e};
        assert IsLeast(less, s, r);
      } else {
        assert less(e, r);
        forall x | x in s && x != e
          ensures less(e, x)
        {
          assert x in s - {e};
        }
        assert IsLeast(less, s, e);
      }
    }
  }

  lemma MinFirst<T(!new)>(less: (T, T) -> bool, m: T, tail: seq<T>)
    requires Ascending(less, tail) && forall x :: x in Elements(tail) ==> less(m, x)
    ensures Ascending(less, [m] + tail)
  {
    forall i | 0 <= i < |tail| ensures less(m, tail[i]) { assert tail[i] in Elements(tail); }
  }

  /** The elements of a finite set in ascending order. */
  ghost function SortedOf<T(!new)>(less: (T, T) -> bool, s: set<T>): (r: seq<T>)
    requires StrictTotal(less)
    ensures Ascending(less, r) && Elements(r) == s && |r| == |s|
    decreases |s|
  {
    if s == {} then []
    else
      HasLeast(less, s);
      var m :| IsLeast(less, s, m);
      var tail := SortedOf(less, s - {m});
      assert forall i :: 0 <= i < |tail| ==> tail[i] in Elements(tail);
      MinFirst(less, m, tail);
      var r := [m] + tail;
      assert forall x :: x in Elements(r) <==> x == m || x in Elements(tail);
      r
  }

  lemma SortedOfUnique<T(!new)>(less: (T, T) -> bool, s: seq<T>, elements: set<T>)
    requires StrictTotal(less) && Ascending(less, s) && Elements(s) == elements
    ensures s == SortedOf(less, elements)
  {
    AscendingUnique(less, s, SortedOf(less, elements));
  }

  /** std::ranges::sort: some sorted permutation; elements the comparator ties keep no promised order. */
  method Sort<T(!new)>(less: (T, T) -> bool, s: seq<T>) returns (r: seq<T>)
    requires StrictPartial(less)
    ensures multiset(r) == multiset(s) && |r| == |s| && Sorted(less, r)
  {
    r := [];
    for k := 0 to |s|
      invariant multiset(r) == multiset(s[..k]) && |r| == k && Sorted(less, r)
    {
      var x, at := s[k], 0;
      while at < |r| && !less(x, r[at])
        invariant 0 <= at <= |r|
        invariant forall i :: 0 <= i < at ==> !less(x, r[i])
      {
        at := at + 1;
      }
      InsertKeepsSorted(less, r, at, x);
      assert r == r[..at] + r[at..];
      assert s[..k + 1] == s[..k] + [x];
      r := r[..at] + [x] + r[at..];
    }
    assert s[..|s|] == s;
  }

  /** The first place in `r` whose element is above `x`. */
  function InsertAt<T>(less: (T, T) -> bool, r: seq<T>, x: T, from: nat): (at: nat)
    requires from <= |r| && forall i :: 0 <= i < from ==> !less(x, r[i])
    ensures at <= |r| && (forall i :: 0 <= i < at ==> !less(x, r[i])) && (at < |r| ==> less(x, r[at]))
    decreases |r| - from
  {
    if from == |r| || less(x, r[from]) then from else InsertAt(less, r, x, from + 1)
  }

  /** The elements of `s` in order: the one sorted arrangement, when the order is total. */
  ghost function SortedBy<T(!new)>(less: (T, T) -> bool, s: seq<T>): (r: seq<T>)
    requires StrictPartial(less)
    ensures multiset(r) == multiset(s) && |r| == |s| && Sorted(less, r)
  {
    if s == [] then []
    else
      var front, x := SortedBy(less, s[..|s| - 1]), s[|s| - 1];
      var at := InsertAt(less, front, x, 0);
      Inserted(less, s, front, at);
      front[..at] + [x] + front[at..]
  }

  lemma Inserted<T(!new)>(less: (T, T) -> bool, s: seq<T>, front: seq<T>, at: nat)
    requires StrictPartial(less) && s != [] && multiset(front) == multiset(s[..|s| - 1]) && Sorted(less, front)
        && at <= |front|
    requires forall i :: 0 <= i < at ==> !less(s[|s| - 1], front[i])
    requires at < |front| ==> less(s[|s| - 1], front[at])
    ensures var r := front[..at] + [s[|s| - 1]] + front[at..];
            multiset(r) == multiset(s) && |r| == |s| && Sorted(less, r)
  {
    InsertKeepsSorted(less, front, at, s[|s| - 1]);
    hide Sorted;
    InsertedMultiset(s, front, at);
  }

  lemma InsertedMultiset<T>(s: seq<T>, front: seq<T>, at: nat)
    requires s != [] && multiset(front) == multiset(s[..|s| - 1]) && at <= |front|
    ensures var r := front[..at] + [s[|s| - 1]] + front[at..]; multiset(r) == multiset(s) && |r| == |s|
  {
    assert |front| == |multiset(front)| == |s| - 1;
    assert front == front[..at] + front[at..];
    assert s == s[..|s| - 1] + [s[|s| - 1]];
  }

  /** Under a total order sorting forgets the order it was given. */
  lemma SortedByPermutation<T(!new)>(less: (T, T) -> bool, a: seq<T>, b: seq<T>)
    requires StrictTotal(less) && multiset(a) == multiset(b)
    ensures SortedBy(less, a) == SortedBy(less, b)
  {
    SortedUnique(less, SortedBy(less, a), SortedBy(less, b));
  }

  lemma InsertKeepsSorted<T(!new)>(less: (T, T) -> bool, r: seq<T>, at: nat, x: T)
    requires StrictPartial(less) && Sorted(less, r) && at <= |r|
    requires forall i :: 0 <= i < at ==> !less(x, r[i])
    requires at < |r| ==> less(x, r[at])
    ensures Sorted(less, r[..at] + [x] + r[at..])
  {
    var q := r[..at] + [x] + r[at..];
    forall i, j | 0 <= i < j < |q|
      ensures !less(q[j], q[i])
    {
      if i < at && j > at {
        assert q[i] == r[i] && q[j] == r[j - 1];
      } else if i == at {
        assert q[j] == r[j - 1] && less(x, r[at]);
        var y, z := r[j - 1], r[at];
        assert z == y || !less(y, z);
      } else if i > at {
        assert q[i] == r[i - 1] && q[j] == r[j - 1];
      }
    }
  }

  /** std::lower_bound: the first index whose element is not below `x`. */
  method LowerBound<T(==,!new)>(less: (T, T) -> bool, s: seq<T>, x: T) returns (k: nat)
    requires StrictTotal(less) && Ascending(less, s)
    ensures k <= |s|
    ensures forall i :: 0 <= i < k ==> less(s[i], x)
    ensures forall i :: k <= i < |s| ==> !less(s[i], x)
    ensures x in s <==> k < |s| && s[k] == x
  {
    var lo, hi := 0, |s|;
    while lo < hi
      invariant 0 <= lo <= hi <= |s|
      invariant forall i :: 0 <= i < lo ==> less(s[i], x)
      invariant forall i :: hi <= i < |s| ==> !less(s[i], x)
    {
      var mid := (lo + hi) / 2;
      if less(s[mid], x) {
        forall i | 0 <= i < mid + 1 ensures less(s[i], x) {
          if i < mid { assert less(s[i], s[mid]); }
        }
        lo := mid + 1;
      } else {
        forall i | mid <= i < |s| ensures !less(s[i], x) {
          assert mid < i ==> less(s[mid], s[i]);
        }
        hi := mid;
      }
    }
    k := lo;
    if x in s {
      var i :| 0 <= i < |s| && s[i] == x;
      assert !less(x, x);
      assert k <= i;
      var y := s[k];
      assert y == x || less(y, x);
    }
  }

  /** A std::set filled from `s` and read in order. */
  method SortedSet<T(==,!new)>(less: (T, T) -> bool, s: seq<T>) returns (r: seq<T>)
    requires StrictTotal(less)
    ensures Ascending(less, r) && Elements(r) == Elements(s)
  {
    r := [];
    for k := 0 to |s|
      invariant Ascending(less, r) && Elements(r) == Elements(s[..k])
    {
      var at := LowerBound(less, r, s[k]);
      assert s[..k + 1] == s[..k] + [s[k]];
      assert Elements(s[..k + 1]) == Elements(s[..k]) + {s[k]};
      if at == |r| || r[at] != s[k] {
        assert r == r[..at] + r[at..];
        assert Elements(r[..at] + [s[k]] + r[at..]) == Elements(r) + {s[k]};
        InsertKeepsAscending(less, r, at, s[k]);
        r := r[..at] + [s[k]] + r[at..];
      } else {
        assert r[at] in Elements(r);
      }
    }
    assert s[..|s|] == s;
  }

  lemma InsertKeepsAscending<T(!new)>(less: (T, T) -> bool, r: seq<T>, at: nat, x: T)
    requires StrictTotal(less) && Ascending(less, r) && at <= |r| && x !in r
    requires forall i :: 0 <= i < at ==> less(r[i], x)
    requires forall i :: at <= i < |r| ==> !less(r[i], x)
    ensures Ascending(less, r[..at] + [x] + r[at..])
  {
    var q := r[..at] + [x] + r[at..];
    forall i, j | 0 <= i < j < |q| ensures less(q[i], q[j]) {
      var a, b := if i <= at then i else i - 1, if j <= at then j else j - 1;
      if i == at {
        assert q[j] == r[b] && r[b] != x;
      } else if j == at {
        assert q[i] == r[i];
      } else {
        assert q[i] == r[if i < at then i else i - 1] && q[j] == r[b];
      }
    }
  }
}
