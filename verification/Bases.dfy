/** Bases: rows of a cell and its count, read as multisets of counted cells. */
module Bases {
  import opened Orders
  import opened Cells

  datatype Row = Row(cell: Cell, count: nat)

  function CellsOf(base: seq<Row>): (cells: seq<Cell>)
    ensures |cells| == |base| && forall i :: 0 <= i < |base| ==> cells[i] == base[i].cell
  {
    seq(|base|, i requires 0 <= i < |base| => base[i].cell)
  }

  ghost function Support(base: seq<Row>): set<Cell> { set r | r in base :: r.cell }

  /** The summed count of the rows whose cell satisfies `p`. */
  function Total(base: seq<Row>, p: Cell -> bool): nat {
    if base == [] then 0
    else
      var last := base[|base| - 1];
      Total(base[..|base| - 1], p) + if p(last.cell) then last.count else 0
  }

  function Exactly(c: Cell): Cell -> bool { x => x == c }

  function Under(c: Cell): Cell -> bool { x => IsAncestor(c, x) }

  function Both(p: Cell -> bool, q: Cell -> bool): Cell -> bool { x => p(x) && q(x) }

  function Image(p: Cell -> bool, f: Cell -> Cell): Cell -> bool { x => p(f(x)) }

  /** The count the rows give to exactly `c`, and to every cell `c` generalizes. */
  function Mass(base: seq<Row>, c: Cell): nat { Total(base, Exactly(c)) }

  function Count(base: seq<Row>, c: Cell): nat { Total(base, Under(c)) }

  ghost predicate CanonicalRows(base: seq<Row>) { Ascending(CanonicalOrder, CellsOf(base)) }

  /** Same cells and same counts under every reading; order and repetition do not matter. */
  ghost predicate Equivalent(a: seq<Row>, b: seq<Row>) {
    && Support(a) == Support(b)
    && (forall p {:trigger Total(a, p)} {:trigger Total(b, p)} :: Total(a, p) == Total(b, p))
  }

  lemma TotalSnoc(base: seq<Row>, r: Row, p: Cell -> bool)
    ensures Total(base + [r], p) == Total(base, p) + (if p(r.cell) then r.count else 0)
    ensures Support(base + [r]) == Support(base) + {r.cell}
  {
    assert (base + [r])[..|base|] == base;
    assert forall x :: x in base + [r] <==> x in base || x == r;
  }

  lemma {:induction false} TotalConcat(a: seq<Row>, b: seq<Row>, p: Cell -> bool)
    ensures Total(a + b, p) == Total(a, p) + Total(b, p)
  {
    if b == [] {
      assert a + b == a;
    } else {
      var front, last := b[..|b| - 1], b[|b| - 1];
      assert a + b == (a + front) + [last] && b == front + [last];
      TotalConcat(a, front, p);
      TotalSnoc(a + front, last, p);
    }
  }

  lemma SupportConcat(a: seq<Row>, b: seq<Row>)
    ensures Support(a + b) == Support(a) + Support(b)
  {
    assert forall x :: x in a + b <==> x in a || x in b;
  }

  function CountIf(p: Cell -> bool, r: Row): nat { if p(r.cell) then r.count else 0 }

  function Weight(p: Cell -> bool): Row -> nat { (r: Row) => CountIf(p, r) }

  lemma {:induction false} TotalIsSum(base: seq<Row>, p: Cell -> bool)
    ensures Total(base, p) == Sum(base, Weight(p))
  {
    if base != [] { TotalIsSum(base[..|base| - 1], p); }
  }

  lemma TotalPermutation(a: seq<Row>, b: seq<Row>, p: Cell -> bool)
    requires multiset(a) == multiset(b)
    ensures Total(a, p) == Total(b, p)
  {
    TotalIsSum(a, p);
    TotalIsSum(b, p);
    SumPermutation(a, b, Weight(p));
  }

  lemma PermutationEquivalent(a: seq<Row>, b: seq<Row>)
    requires multiset(a) == multiset(b)
    ensures Equivalent(a, b)
  {
    forall p ensures Total(a, p) == Total(b, p) { TotalPermutation(a, b, p); }
    assert forall x :: x in a <==> x in multiset(a);
    assert forall x :: x in b <==> x in multiset(b);
  }

  lemma ConcatEquivalent(a: seq<Row>, a': seq<Row>, b: seq<Row>, b': seq<Row>)
    requires Equivalent(a, a') && Equivalent(b, b')
    ensures Equivalent(a + b, a' + b')
  {
    forall p ensures Total(a + b, p) == Total(a' + b', p) {
      TotalConcat(a, b, p);
      TotalConcat(a', b', p);
    }
    SupportConcat(a, b);
    SupportConcat(a', b');
  }

  /** Pointwise comparison of two readings carries over to totals. */
  lemma {:induction false} TotalMonotone(base: seq<Row>, p: Cell -> bool, q: Cell -> bool)
    requires forall r :: r in base && p(r.cell) ==> q(r.cell)
    ensures Total(base, p) <= Total(base, q)
  {
    if base != [] {
      assert forall r :: r in base[..|base| - 1] ==> r in base;
      TotalMonotone(base[..|base| - 1], p, q);
    }
  }

  lemma TotalSame(base: seq<Row>, p: Cell -> bool, q: Cell -> bool)
    requires forall r :: r in base ==> p(r.cell) == q(r.cell)
    ensures Total(base, p) == Total(base, q)
  {
    TotalMonotone(base, p, q);
    TotalMonotone(base, q, p);
  }

  lemma {:induction false} TotalNone(base: seq<Row>, p: Cell -> bool)
    requires forall r :: r in base ==> !p(r.cell)
    ensures Total(base, p) == 0
  {
    if base != [] {
      assert forall r :: r in base[..|base| - 1] ==> r in base;
      TotalNone(base[..|base| - 1], p);
    }
  }

  /** A reading that accepts a row counts at least that row. */
  lemma {:induction false} TotalAtLeast(base: seq<Row>, p: Cell -> bool, r: Row)
    requires r in base && p(r.cell)
    ensures Total(base, p) >= r.count
  {
    var front, last := base[..|base| - 1], base[|base| - 1];
    if r != last {
      assert base == front + [last];
      TotalAtLeast(front, p, r);
    }
  }

  /** A reading splits along any other. */
  lemma {:induction false} TotalSplit(base: seq<Row>, p: Cell -> bool, q: Cell -> bool, r: Cell -> bool)
    requires forall x :: x in base ==> (p(x.cell) <==> q(x.cell) || r(x.cell)) && !(q(x.cell) && r(x.cell))
    ensures Total(base, p) == Total(base, q) + Total(base, r)
  {
    if base != [] {
      assert forall x :: x in base[..|base| - 1] ==> x in base;
      TotalSplit(base[..|base| - 1], p, q, r);
    }
  }

  // ---------------------------------------------------------------- reduction

  /** The canonical form of a base: its distinct cells in canonical order with their summed counts. */
  ghost function Reduced(base: seq<Row>): (r: seq<Row>) {
    CanonicalOrderIsTotal();
    MassRows(SortedOf(CanonicalOrder, Support(base)), base)
  }

  lemma ReducedIs(base: seq<Row>)
    ensures IsReduction(Reduced(base), base)
  {
    CanonicalOrderIsTotal();
    var cells := SortedOf(CanonicalOrder, Support(base));
    var r := MassRows(cells, base);
    assert CellsOf(r) == cells;
    SupportOfCells(r);
  }

  ghost function MassRows(cells: seq<Cell>, base: seq<Row>): (r: seq<Row>)
    ensures |r| == |cells| && forall i :: 0 <= i < |r| ==> r[i] == Row(cells[i], Mass(base, cells[i]))
  {
    seq(|cells|, i requires 0 <= i < |cells| => Row(cells[i], Mass(base, cells[i])))
  }

  lemma SupportOfCells(base: seq<Row>)
    ensures Support(base) == Elements(CellsOf(base))
  {
    forall c | c in Support(base) ensures c in CellsOf(base) {
      var i :| 0 <= i < |base| && base[i].cell == c;
      assert CellsOf(base)[i] == c;
    }
    forall c | c in CellsOf(base) ensures c in Support(base) {
      var i :| 0 <= i < |base| && CellsOf(base)[i] == c;
      assert base[i] in base;
    }
  }

  /** What sort_reduce_base must deliver; it leaves no freedom. */
  ghost predicate IsReduction(r: seq<Row>, base: seq<Row>) {
    && CanonicalRows(r)
    && Support(r) == Support(base)
    && (forall i :: 0 <= i < |r| ==> r[i].count == Mass(base, r[i].cell))
  }

  lemma ReductionUnique(r: seq<Row>, base: seq<Row>)
    requires IsReduction(r, base)
    ensures r == Reduced(base)
  {
    ReducedIs(base);
    hide Reduced;
    SupportOfCells(r);
    SupportOfCells(Reduced(base));
    CanonicalOrderIsTotal();
    AscendingUnique(CanonicalOrder, CellsOf(r), CellsOf(Reduced(base)));
    assert |r| == |CellsOf(r)| == |Reduced(base)|;
    forall i | 0 <= i < |r| ensures r[i] == Reduced(base)[i] {
      assert CellsOf(r)[i] == CellsOf(Reduced(base))[i];
    }
  }

  /** Adding a row raises one entry of a duplicate-free mass table. */
  lemma {:induction false} MassRowsBump(cells: seq<Cell>, base: seq<Row>, r: Row, p: Cell -> bool)
    requires NoDuplicates(cells)
    ensures Total(MassRows(cells, base + [r]), p)
         == Total(MassRows(cells, base), p) + if r.cell in cells && p(r.cell) then r.count else 0
  {
    if cells != [] {
      var front, last := cells[..|cells| - 1], cells[|cells| - 1];
      assert cells == front + [last] && last !in front;
      MassRowsBump(front, base, r, p);
      assert MassRows(cells, base) == MassRows(front, base) + [Row(last, Mass(base, last))];
      assert MassRows(cells, base + [r]) == MassRows(front, base + [r]) + [Row(last, Mass(base + [r], last))];
      TotalSnoc(base, r, Exactly(last));
      TotalSnoc(MassRows(front, base), Row(last, Mass(base, last)), p);
      TotalSnoc(MassRows(front, base + [r]), Row(last, Mass(base + [r], last)), p);
    }
  }

  lemma {:induction false} MassRowsTotal(cells: seq<Cell>, base: seq<Row>, p: Cell -> bool)
    requires NoDuplicates(cells) && forall r :: r in base ==> r.cell in cells
    ensures Total(MassRows(cells, base), p) == Total(base, p)
  {
    if base == [] {
      ZeroRows(MassRows(cells, base), p);
    } else {
      var front, last := base[..|base| - 1], base[|base| - 1];
      assert base == front + [last];
      MassRowsTotal(cells, front, p);
      MassRowsBump(cells, front, last, p);
      TotalSnoc(front, last, p);
    }
  }

  lemma {:induction false} ZeroRows(base: seq<Row>, p: Cell -> bool)
    requires forall r :: r in base ==> r.count == 0
    ensures Total(base, p) == 0
  {
    if base != [] {
      assert forall r :: r in base[..|base| - 1] ==> r in base;
      ZeroRows(base[..|base| - 1], p);
    }
  }

  /** Reducing a base changes no reading of it. */
  lemma ReducedEquivalent(base: seq<Row>)
    ensures Equivalent(Reduced(base), base)
  {
    ReducedIs(base);
    hide Reduced;
    var r := Reduced(base);
    var cells := CellsOf(r);
    CanonicalOrderIsTotal();
    AscendingIsSorted(CanonicalOrder, cells);
    assert r == MassRows(cells, base);
    SupportOfCells(r);
    forall p ensures Total(r, p) == Total(base, p) {
      forall x | x in base ensures x.cell in cells { assert x.cell in Support(base); }
      MassRowsTotal(cells, base, p);
    }
  }

  /** Two bases have one canonical form exactly when no reading tells them apart. */
  lemma EquivalentReduced(a: seq<Row>, b: seq<Row>)
    ensures Equivalent(a, b) <==> Reduced(a) == Reduced(b)
  {
    ReducedEquivalent(a);
    ReducedEquivalent(b);
    ReducedIs(a);
    hide Reduced;
    if Equivalent(a, b) {
      forall c ensures Mass(a, c) == Mass(b, c) { assert Total(a, Exactly(c)) == Total(b, Exactly(c)); }
      ReductionUnique(Reduced(a), b);
    }
    if Reduced(a) == Reduced(b) {
      forall p ensures Total(a, p) == Total(b, p) {
        assert Total(Reduced(a), p) == Total(a, p);
        assert Total(Reduced(b), p) == Total(b, p);
      }
    }
  }

  lemma CanonicalIsReduced(base: seq<Row>)
    requires CanonicalRows(base)
    ensures Reduced(base) == base
  {
    forall i | 0 <= i < |base| ensures base[i].count == Mass(base, base[i].cell) {
      MassOfRow(base, i);
    }
    ReductionUnique(base, base);
  }

  /** In canonical rows a cell's mass is its one row's count. */
  lemma {:induction false} MassOfRow(base: seq<Row>, i: nat)
    requires CanonicalRows(base) && i < |base|
    ensures Mass(base, base[i].cell) == base[i].count
  {
    CanonicalOrderIsTotal();
    AscendingIsSorted(CanonicalOrder, CellsOf(base));
    var front, last := base[..|base| - 1], base[|base| - 1];
    assert base == front + [last];
    assert forall k :: 0 <= k < |front| ==> CellsOf(front)[k] == CellsOf(base)[k];
    if i == |base| - 1 {
      forall r | r in front ensures r.cell != last.cell {
        var k :| 0 <= k < |front| && front[k] == r;
        assert CellsOf(base)[k] != CellsOf(base)[i];
      }
      TotalNone(front, Exactly(last.cell));
    } else {
      assert CellsOf(base)[i] != CellsOf(base)[|base| - 1];
      MassOfRow(front, i);
    }
    TotalSnoc(front, last, Exactly(base[i].cell));
  }

  // ---------------------------------------------------------------- images

  ghost function MapRows(base: seq<Row>, f: Cell -> Cell): (r: seq<Row>)
    ensures |r| == |base| && forall i :: 0 <= i < |r| ==> r[i] == Row(f(base[i].cell), base[i].count)
  {
    seq(|base|, i requires 0 <= i < |base| => Row(f(base[i].cell), base[i].count))
  }

  lemma {:induction false} TotalOfImage(base: seq<Row>, f: Cell -> Cell, p: Cell -> bool)
    ensures Total(MapRows(base, f), p) == Total(base, Image(p, f))
  {
    if base != [] {
      var front, last := base[..|base| - 1], base[|base| - 1];
      assert base == front + [last];
      assert MapRows(base, f) == MapRows(front, f) + [Row(f(last.cell), last.count)];
      TotalOfImage(front, f, p);
      TotalSnoc(front, last, Image(p, f));
      TotalSnoc(MapRows(front, f), Row(f(last.cell), last.count), p);
    }
  }

  lemma SupportOfImage(base: seq<Row>, f: Cell -> Cell)
    ensures Support(MapRows(base, f)) == set c | c in Support(base) :: f(c)
  {
    var m := MapRows(base, f);
    forall c | c in Support(m) ensures exists d :: d in Support(base) && f(d) == c {
      var i :| 0 <= i < |m| && m[i].cell == c;
      assert base[i].cell in Support(base);
    }
    forall d | d in Support(base) ensures f(d) in Support(m) {
      var i :| 0 <= i < |base| && base[i].cell == d;
      assert m[i] in m;
    }
  }

  lemma MapEquivalent(a: seq<Row>, b: seq<Row>, f: Cell -> Cell)
    requires Equivalent(a, b)
    ensures Equivalent(MapRows(a, f), MapRows(b, f))
  {
    forall p ensures Total(MapRows(a, f), p) == Total(MapRows(b, f), p) {
      TotalOfImage(a, f, p);
      TotalOfImage(b, f, p);
      assert Total(a, Image(p, f)) == Total(b, Image(p, f));
    }
    SupportOfImage(a, f);
    SupportOfImage(b, f);
  }

  // ---------------------------------------------------------------- sort and reduce

  const RowOrder: (Row, Row) -> bool := (a: Row, b: Row) => Precedes(a.cell, b.cell)

  method SortReduceBase(events: seq<Row>) returns (base: seq<Row>)
    ensures base == Reduced(events)
  {
    CanonicalOrderIsTotal();
    RowOrderIsPartial();
    var sorted := Sort(RowOrder, events);
    base := [];
    for k := 0 to |sorted|
      invariant IsReduction(base, sorted[..k])
      invariant k > 0 ==> base != [] && base[|base| - 1].cell == sorted[k - 1].cell
    {
      ghost var before := base;
      assert sorted[..k + 1] == sorted[..k] + [sorted[k]];
      if base != [] && base[|base| - 1].cell == sorted[k].cell {
        base := base[|base| - 1 := base[|base| - 1].(count := base[|base| - 1].count + sorted[k].count)];
      } else {
        base := base + [sorted[k]];
      }
      ReduceStep(before, sorted, k, base);
    }
    assert sorted[..|sorted|] == sorted;
    ReductionUnique(base, sorted);
    PermutationEquivalent(sorted, events);
    EquivalentReduced(sorted, events);
  }

  lemma RowOrderIsPartial()
    ensures StrictPartial(RowOrder)
  {
    forall x, y, z | RowOrder(x, y) && RowOrder(y, z) ensures RowOrder(x, z) {
      PrecedesTransitive(x.cell, y.cell, z.cell);
    }
  }

  ghost function ReducedStep(before: seq<Row>, x: Row): seq<Row> {
    if before != [] && before[|before| - 1].cell == x.cell
    then before[|before| - 1 := Row(x.cell, before[|before| - 1].count + x.count)]
    else before + [x]
  }

  lemma ReduceStep(before: seq<Row>, sorted: seq<Row>, k: nat, after: seq<Row>)
    requires Sorted(RowOrder, sorted) && k < |sorted| && IsReduction(before, sorted[..k])
    requires k > 0 ==> before != [] && before[|before| - 1].cell == sorted[k - 1].cell
    requires after == ReducedStep(before, sorted[k])
    ensures IsReduction(after, sorted[..k + 1])
  {
    var x := sorted[k];
    assert sorted[..k + 1] == sorted[..k] + [x];
    if before != [] && before[|before| - 1].cell == x.cell {
      ReduceFuses(before, sorted[..k], x);
    } else {
      if before != [] {
        assert k > 0 by { assert before[0] in before; assert before[0].cell in Support(before); }
        assert !RowOrder(sorted[k], sorted[k - 1]);
        assert Precedes(before[|before| - 1].cell, x.cell);
      }
      ReduceAppends(before, sorted[..k], x);
    }
  }

  lemma ReduceFuses(before: seq<Row>, seen: seq<Row>, x: Row)
    requires IsReduction(before, seen) && before != [] && before[|before| - 1].cell == x.cell
    ensures IsReduction(ReducedStep(before, x), seen + [x])
  {
    var after, top := ReducedStep(before, x), |before| - 1;
    CanonicalOrderIsTotal();
    AscendingIsSorted(CanonicalOrder, CellsOf(before));
    assert CellsOf(after) == CellsOf(before);
    SupportOfCells(before);
    SupportOfCells(after);
    assert x.cell in Support(before) by { assert before[top] in before; }
    TotalSnoc(seen, x, Exactly(x.cell));
    forall i | 0 <= i < |after| ensures after[i].count == Mass(seen + [x], after[i].cell) {
      assert i == top || CellsOf(before)[i] != CellsOf(before)[top];
      TotalSnoc(seen, x, Exactly(after[i].cell));
    }
  }

  lemma ReduceAppends(before: seq<Row>, seen: seq<Row>, x: Row)
    requires IsReduction(before, seen)
    requires before != [] ==> Precedes(before[|before| - 1].cell, x.cell)
    ensures IsReduction(before + [x], seen + [x])
  {
    var after, cells := before + [x], CellsOf(before);
    CanonicalOrderIsTotal();
    assert CellsOf(after) == cells + [x.cell];
    SupportOfCells(before);
    SupportOfCells(after);
    forall i | 0 <= i < |cells| ensures Precedes(cells[i], x.cell) {
      var top := |cells| - 1;
      if i < top {
        assert CanonicalOrder(cells[i], cells[top]);
        PrecedesTransitive(cells[i], cells[top], x.cell);
      }
    }
    forall r | r in seen ensures r.cell != x.cell {
      assert r.cell in Support(seen);
      assert r.cell in cells;
    }
    TotalNone(seen, Exactly(x.cell));
    forall i | 0 <= i < |after| ensures after[i].count == Mass(seen + [x], after[i].cell) {
      TotalSnoc(seen, x, Exactly(after[i].cell));
      assert i < |before| ==> cells[i] != x.cell;
    }
    TotalSnoc(seen, x, Exactly(x.cell));
  }
}
