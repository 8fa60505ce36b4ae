/** Lists that rank a set of rows, and what becomes of a ranking when every row is mirrored. */
module Ranking {
  import opened Orders
  import opened Sums

  /** Every row once, in an order the comparator allows. */
  ghost predicate IsRanked<T>(less: (T, T) -> bool, r: seq<T>, rows: set<T>)
      { Elements(r) == rows && NoDuplicates(r) && Sorted(less, r) }

  /** A list of rows, put in an order the comparator allows. */
  ghost predicate IsSorting<T>(less: (T, T) -> bool, r: seq<T>, rows: seq<T>)
      { multiset(r) == multiset(rows) && Sorted(less, r) }

  lemma SortingIsRanked<T>(less: (T, T) -> bool, r: seq<T>, rows: seq<T>)
    requires IsSorting(less, r, rows)
    ensures Elements(r) == Elements(rows) && (NoDuplicates(rows) ==> IsRanked(less, r, Elements(rows)))
    ensures rows == [] ==> r == []
  {
    assert forall x :: x in r <==> x in multiset(r);
    assert forall x :: x in rows <==> x in multiset(rows);
    assert |r| == |multiset(r)| && |rows| == |multiset(rows)|;
    if NoDuplicates(rows) { SameItems(r, rows); }
  }

  lemma ElementsConcat<T>(a: seq<T>, b: seq<T>)
    ensures Elements(a + b) == Elements(a) + Elements(b)
  {
    assert forall x :: x in a + b <==> x in a || x in b;
  }

  lemma DistinctConcat<T>(a: seq<T>, b: seq<T>)
    requires NoDuplicates(a) && NoDuplicates(b) && forall x :: x in a ==> x !in b
    ensures NoDuplicates(a + b)
  {
    forall i, j | 0 <= i < j < |a + b| ensures (a + b)[i] != (a + b)[j] {
      if i < |a| <= j { assert a[i] in a && b[j - |a|] in b; }
    }
  }

  /** No two rows tie. */
  ghost predicate ComparableOn<T>(less: (T, T) -> bool, rows: set<T>)
      { forall x, y :: x in rows && y in rows && x != y ==> less(x, y) || less(y, x) }

  ghost predicate Least<T>(less: (T, T) -> bool, rows: set<T>, m: T)
      { m in rows && forall x :: x in rows ==> !less(x, m) }

  lemma RankedHead<T>(less: (T, T) -> bool, r: seq<T>, rows: set<T>)
    requires IsRanked(less, r, rows) && r != [] && forall x :: !less(x, x)
    ensures Least(less, rows, r[0]) && IsRanked(less, r[1..], rows - {r[0]})
  {
    assert r[0] in Elements(r);
    forall x | x in rows ensures !less(x, r[0]) {
      assert x in Elements(r);
      var i :| 0 <= i < |r| && r[i] == x;
      assert i == 0 || !less(r[i], r[0]);
    }
    assert r == [r[0]] + r[1..];
    forall x ensures x in Elements(r[1..]) <==> x in rows - {r[0]} {
      assert x in Elements(r) <==> x in rows;
    }
  }

  lemma ComparableSubset<T>(less: (T, T) -> bool, some: set<T>, rows: set<T>)
    requires ComparableOn(less, rows) && some <= rows
    ensures ComparableOn(less, some)
  {}

  /** Rows that never tie have one ranking. */
  lemma {:induction false} RankedUnique<T>(less: (T, T) -> bool, r: seq<T>, r': seq<T>, rows: set<T>)
    requires IsRanked(less, r, rows) && IsRanked(less, r', rows) && ComparableOn(less, rows) && forall x :: !less(x, x)
    ensures r == r'
  {
    NoElements(r);
    NoElements(r');
    if r != [] {
      RankedHead(less, r, rows);
      RankedHead(less, r', rows);
      assert r[0] == r'[0];
      ComparableSubset(less, rows - {r[0]}, rows);
      hide IsRanked, ComparableOn, Least;
      RankedUnique(less, r[1..], r'[1..], rows - {r[0]});
      assert r == [r[0]] + r[1..] && r' == [r'[0]] + r'[1..];
    }
  }

  /** Mirroring keeps the order and tells rows apart. */
  ghost predicate Mirrors<T>(less: (T, T) -> bool, rows: set<T>, f: T -> T) {
    && (forall x, y :: x in rows && y in rows ==> less(f(x), f(y)) == less(x, y))
    && (forall x, y :: x in rows && y in rows && f(x) == f(y) ==> x == y)
  }

  lemma RankedMirror<T>(less: (T, T) -> bool, r: seq<T>, rows: set<T>, f: T -> T)
    requires IsRanked(less, r, rows) && Mirrors(less, rows, f)
    ensures IsRanked(less, MapSeq(r, f), Image(rows, f))
  {
    var m := MapSeq(r, f);
    assert forall i :: 0 <= i < |r| ==> r[i] in Elements(r);
    forall x ensures x in Elements(m) <==> x in Image(rows, f) {
      if x in Image(rows, f) {
        var y :| y in rows && f(y) == x;
        assert y in Elements(r);
        var i :| 0 <= i < |r| && r[i] == y;
        assert m[i] == x;
      }
    }
  }

  lemma MirroredComparable<T>(less: (T, T) -> bool, rows: set<T>, f: T -> T)
    requires ComparableOn(less, rows) && Mirrors(less, rows, f)
    ensures ComparableOn(less, Image(rows, f))
  {
    forall x, y | x in Image(rows, f) && y in Image(rows, f) && x != y ensures less(x, y) || less(y, x) {
      var a :| a in rows && f(a) == x;
      var b :| b in rows && f(b) == y;
      assert less(f(a), f(b)) == less(a, b) && less(f(b), f(a)) == less(b, a);
    }
  }

  /** The ranking of mirrored rows is the mirrored ranking. */
  lemma MirroredRanking<T>(less: (T, T) -> bool, r: seq<T>, rows: set<T>, f: T -> T, r': seq<T>, rows': set<T>)
    requires IsRanked(less, r, rows) && IsRanked(less, r', rows') && rows' == Image(rows, f)
    requires Mirrors(less, rows, f) && ComparableOn(less, rows) && forall x :: !less(x, x)
    ensures r' == MapSeq(r, f)
  {
    hide IsRanked, ComparableOn, Mirrors, Image;
    RankedMirror(less, r, rows, f);
    MirroredComparable(less, rows, f);
    RankedUnique(less, r', MapSeq(r, f), rows');
  }

  lemma NothingRanked<T>(less: (T, T) -> bool, r: seq<T>)
    requires IsRanked(less, r, {})
    ensures r == []
  {
    NoElements(r);
  }

  method Rank<T(==,!new)>(less: (T, T) -> bool, rows: set<T>) returns (r: seq<T>)
    requires StrictPartial(less)
    ensures IsRanked(less, r, rows)
  {
    var list: seq<T> := [];
    var left := rows;
    while left != {}
      invariant left <= rows && Elements(list) == rows - left && NoDuplicates(list)
      decreases left
    {
      var x :| x in left;
      assert x !in Elements(list);
      assert Elements(list + [x]) == Elements(list) + {x};
      list := list + [x];
      left := left - {x};
    }
    r := Sort(less, list);
    SameItems(r, list);
  }

  lemma SameItems<T>(r: seq<T>, list: seq<T>)
    requires multiset(r) == multiset(list) && NoDuplicates(list)
    ensures Elements(r) == Elements(list) && NoDuplicates(r)
  {
    assert forall x :: x in r <==> x in multiset(r);
    assert forall x :: x in list <==> x in multiset(list);
    forall i, j | 0 <= i < j < |r| ensures r[i] != r[j] {
      OnceInMultiset(list, r[i]);
      if r[i] == r[j] { TwiceInMultiset(r, i, j); }
    }
  }
}
