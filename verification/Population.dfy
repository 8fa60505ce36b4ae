/** Populating the cube: every base tuple folds into all of its generalizations. */
module Population {
  import opened Orders
  import opened Cells
  import opened Bases
  import opened Closure

  datatype PopulatedCell = PopulatedCell(cell: Cell, count: nat, closure: Cell)

  datatype GenEvent = GenEvent(gen: Cell, mult: nat, src: Cell)

  function CubeCells(cube: seq<PopulatedCell>): (cells: seq<Cell>)
    ensures |cells| == |cube| && forall i :: 0 <= i < |cube| ==> cells[i] == cube[i].cell
  {
    seq(|cube|, i requires 0 <= i < |cube| => cube[i].cell)
  }

  /** The populated cube of a base: exactly the cells that generalize some tuple, in canonical
      order, each with the summed count and the meet of the tuples it covers. */
  ghost predicate IsPopulated(cube: seq<PopulatedCell>, base: seq<Row>) {
    && Ascending(CanonicalOrder, CubeCells(cube))
    && Elements(CubeCells(cube)) == Generalizations(Support(base))
    && (forall i :: 0 <= i < |cube| ==> IsAggregate(cube[i], base))
  }

  ghost predicate IsAggregate(p: PopulatedCell, base: seq<Row>) {
    && Covered(Support(base), p.cell) != {}
    && p.count == Count(base, p.cell)
    && p.closure == ClosureOf(Support(base), p.cell)
  }

  ghost function Populated(base: seq<Row>): (cube: seq<PopulatedCell>)
    ensures IsPopulated(cube, base)
  {
    CanonicalOrderIsTotal();
    var cells := SortedOf(CanonicalOrder, Generalizations(Support(base)));
    forall i | 0 <= i < |cells| ensures Covered(Support(base), cells[i]) != {} {
      assert cells[i] in Elements(cells);
      GeneralizationsAre(Support(base), cells[i]);
    }
    var cube := seq(|cells|, i requires 0 <= i < |cells| =>
      PopulatedCell(cells[i], Count(base, cells[i]), ClosureOf(Support(base), cells[i])));
    assert CubeCells(cube) == cells;
    cube
  }

  /** The description leaves no freedom, and reads the base only up to equivalence. */
  lemma PopulatedUnique(cube: seq<PopulatedCell>, base: seq<Row>, other: seq<PopulatedCell>, base': seq<Row>)
    requires IsPopulated(cube, base) && IsPopulated(other, base') && Equivalent(base, base')
    ensures cube == other
  {
    CanonicalOrderIsTotal();
    AscendingUnique(CanonicalOrder, CubeCells(cube), CubeCells(other));
    assert |cube| == |CubeCells(cube)| == |other|;
    forall i | 0 <= i < |cube| ensures cube[i] == other[i] {
      assert CubeCells(cube)[i] == CubeCells(other)[i];
      assert Total(base, Under(cube[i].cell)) == Total(base', Under(cube[i].cell));
      assert IsAggregate(cube[i], base) && IsAggregate(other[i], base');
    }
  }

  lemma PopulatedPermutation(base: seq<Row>, base': seq<Row>)
    requires multiset(base) == multiset(base')
    ensures Populated(base) == Populated(base')
  {
    PermutationEquivalent(base, base');
    PopulatedUnique(Populated(base), base, Populated(base'), base');
  }

  // ---------------------------------------------------------------- one tuple's generalizations

  function Pow2(n: nat): (r: nat)
    ensures r > 0
  {
    if n == 0 then 1 else 2 * Pow2(n - 1)
  }

  /** Bit `i` of a mask: shift right `i` times, then look at the lowest bit. */
  predicate Bit(mask: nat, i: nat) { if i == 0 then mask % 2 == 1 else Bit(mask / 2, i - 1) }

  function PinnedDims(t: Cell): (dims: seq<Dim>)
    ensures |dims| <= 4 && NoDuplicates(dims) && forall d :: d in dims <==> t.Pinned(d)
  {
    (if t.Pinned(Level) then [Level] else []) + (if t.Pinned(Where) then [Where] else [])
    + (if t.Pinned(Role) then [Role] else []) + (if t.Pinned(LatencyShift) then [LatencyShift] else [])
  }

  /** The generalization of `t` keeping the dimensions among the first `n` whose bit is set. */
  function KeepBits(t: Cell, dims: seq<Dim>, mask: nat, n: nat): Cell
    requires n <= |dims|
  {
    if n == 0 then TOP
    else
      var g := KeepBits(t, dims, mask, n - 1);
      if Bit(mask, n - 1) then g.With(dims[n - 1], t.At(dims[n - 1])) else g
  }

  /** The mask naming a generalization: bit `i` is set when it pins `dims[i]`. */
  function MaskOf(g: Cell, dims: seq<Dim>): nat {
    if dims == [] then 0 else (if g.Pinned(dims[0]) then 1 else 0) + 2 * MaskOf(g, dims[1..])
  }

  lemma {:induction false} MaskBits(g: Cell, dims: seq<Dim>, i: nat)
    requires i < |dims|
    ensures Bit(MaskOf(g, dims), i) == g.Pinned(dims[i])
  {
    assert MaskOf(g, dims) / 2 == MaskOf(g, dims[1..]);
    if i > 0 { MaskBits(g, dims[1..], i - 1); }
  }

  lemma {:induction false} MaskBound(g: Cell, dims: seq<Dim>)
    ensures MaskOf(g, dims) < Pow2(|dims|)
  {
    if dims != [] { MaskBound(g, dims[1..]); }
  }

  lemma {:induction false} BitsDetermine(a: nat, b: nat, n: nat)
    requires a < Pow2(n) && b < Pow2(n) && forall i :: 0 <= i < n ==> Bit(a, i) == Bit(b, i)
    ensures a == b
  {
    if n > 0 {
      assert Bit(a, 0) == Bit(b, 0);
      forall i | 0 <= i < n - 1 ensures Bit(a / 2, i) == Bit(b / 2, i) {
        assert Bit(a, i + 1) == Bit(b, i + 1);
      }
      BitsDetermine(a / 2, b / 2, n - 1);
    }
  }

  lemma {:induction false} KeepBitsAt(t: Cell, dims: seq<Dim>, mask: nat, n: nat, d: Dim)
    requires n <= |dims| && NoDuplicates(dims)
    ensures d !in dims[..n] ==> KeepBits(t, dims, mask, n).At(d) == STAR
    ensures forall i :: 0 <= i < n && dims[i] == d ==>
              KeepBits(t, dims, mask, n).At(d) == if Bit(mask, i) then t.At(d) else STAR
  {
    if n > 0 {
      KeepBitsAt(t, dims, mask, n - 1, d);
      assert dims[..n] == dims[..n - 1] + [dims[n - 1]];
      assert dims[n - 1] == d ==> d !in dims[..n - 1];
    }
  }

  function GenOf(t: Cell, mask: nat): Cell { KeepBits(t, PinnedDims(t), mask, |PinnedDims(t)|) }

  /** Counting a mask up to 2^pinned enumerates every generalization of the tuple exactly once. */
  lemma BitmaskEnumeration(t: Cell, g: Cell, mask: nat)
    requires mask < Pow2(|PinnedDims(t)|)
    ensures IsAncestor(GenOf(t, mask), t)
    ensures IsAncestor(g, t) ==> (GenOf(t, mask) == g <==> mask == MaskOf(g, PinnedDims(t)))
    ensures MaskOf(g, PinnedDims(t)) < Pow2(|PinnedDims(t)|)
  {
    var dims := PinnedDims(t);
    var k := GenOf(t, mask);
    forall d ensures k.At(d) == STAR || k.At(d) == t.At(d) {
      KeepBitsAt(t, dims, mask, |dims|, d);
      assert dims[..|dims|] == dims;
    }
    assert IsAncestor(k, t) by {
      assert k.At(Level) == STAR || k.At(Level) == t.At(Level);
      assert k.At(Where) == STAR || k.At(Where) == t.At(Where);
      assert k.At(Role) == STAR || k.At(Role) == t.At(Role);
      assert k.At(LatencyShift) == STAR || k.At(LatencyShift) == t.At(LatencyShift);
    }
    MaskBound(g, dims);
    if IsAncestor(g, t) {
      forall i | 0 <= i < |dims| ensures Bit(mask, i) == k.Pinned(dims[i]) {
        KeepBitsAt(t, dims, mask, |dims|, dims[i]);
        assert t.Pinned(dims[i]);
      }
      forall i | 0 <= i < |dims| ensures Bit(MaskOf(g, dims), i) == g.Pinned(dims[i]) { MaskBits(g, dims, i); }
      if k == g {
        BitsDetermine(mask, MaskOf(g, dims), |dims|);
      }
      if mask == MaskOf(g, dims) {
        SamePinsSameCell(k, g, t);
      }
    }
  }

  lemma SamePinsSameCell(k: Cell, g: Cell, t: Cell)
    requires IsAncestor(k, t) && IsAncestor(g, t)
    requires forall d :: d in PinnedDims(t) ==> k.Pinned(d) == g.Pinned(d)
    ensures k == g
  {
    assert Level in PinnedDims(t) <==> t.Pinned(Level);
    assert Where in PinnedDims(t) <==> t.Pinned(Where);
    assert Role in PinnedDims(t) <==> t.Pinned(Role);
    assert LatencyShift in PinnedDims(t) <==> t.Pinned(LatencyShift);
  }

  // ---------------------------------------------------------------- the events of a base

  ghost function RowEvents(r: Row, masks: nat): (events: seq<GenEvent>)
    ensures |events| == masks
    ensures forall m :: 0 <= m < masks ==> events[m] == GenEvent(GenOf(r.cell, m), r.count, r.cell)
  {
    seq(masks, m requires 0 <= m < masks => GenEvent(GenOf(r.cell, m), r.count, r.cell))
  }

  function Subsets(r: Row): nat { Pow2(|PinnedDims(r.cell)|) }

  ghost function EventsOf(base: seq<Row>): seq<GenEvent> {
    if base == [] then []
    else
      var last := base[|base| - 1];
      EventsOf(base[..|base| - 1]) + RowEvents(last, Subsets(last))
  }

  /** The events as counted cells, and the tuples behind one of them. */
  ghost function GenRows(events: seq<GenEvent>): (rows: seq<Row>)
    ensures |rows| == |events| && forall i :: 0 <= i < |rows| ==> rows[i] == Row(events[i].gen, events[i].mult)
  {
    seq(|events|, i requires 0 <= i < |events| => Row(events[i].gen, events[i].mult))
  }

  ghost function Sources(events: seq<GenEvent>, c: Cell): set<Cell> { set e | e in events && e.gen == c :: e.src }

  lemma RowEventsSnoc(r: Row, masks: nat)
    ensures RowEvents(r, masks + 1) == RowEvents(r, masks) + [GenEvent(GenOf(r.cell, masks), r.count, r.cell)]
    ensures GenRows(RowEvents(r, masks + 1)) == GenRows(RowEvents(r, masks)) + [Row(GenOf(r.cell, masks), r.count)]
  {}

  lemma EventsSnoc(base: seq<Row>, k: nat)
    requires k < |base|
    ensures EventsOf(base[..k + 1]) == EventsOf(base[..k]) + RowEvents(base[k], Subsets(base[k]))
  {
    assert base[..k + 1][..k] == base[..k];
  }

  lemma {:induction false} RowEventsMass(r: Row, masks: nat, c: Cell)
    requires masks <= Subsets(r)
    ensures Mass(GenRows(RowEvents(r, masks)), c)
         == if IsAncestor(c, r.cell) && MaskOf(c, PinnedDims(r.cell)) < masks then r.count else 0
  {
    if masks > 0 {
      RowEventsMass(r, masks - 1, c);
      RowEventsSnoc(r, masks - 1);
      var g := GenOf(r.cell, masks - 1);
      TotalSnoc(GenRows(RowEvents(r, masks - 1)), Row(g, r.count), Exactly(c));
      BitmaskEnumeration(r.cell, c, masks - 1);
    }
  }

  lemma TupleMass(r: Row, c: Cell)
    ensures Mass(GenRows(RowEvents(r, Subsets(r))), c) == if IsAncestor(c, r.cell) then r.count else 0
  {
    RowEventsMass(r, Subsets(r), c);
    MaskBound(c, PinnedDims(r.cell));
  }

  lemma GenRowsConcat(a: seq<GenEvent>, b: seq<GenEvent>, c: Cell)
    ensures GenRows(a + b) == GenRows(a) + GenRows(b)
    ensures Mass(GenRows(a + b), c) == Mass(GenRows(a), c) + Mass(GenRows(b), c)
  {
    assert GenRows(a + b) == GenRows(a) + GenRows(b);
    TotalConcat(GenRows(a), GenRows(b), Exactly(c));
  }

  lemma {:induction false} EventsMass(base: seq<Row>, c: Cell)
    ensures Mass(GenRows(EventsOf(base)), c) == Count(base, c)
  {
    if base != [] {
      var front, last := base[..|base| - 1], base[|base| - 1];
      EventsMass(front, c);
      TupleMass(last, c);
      GenRowsConcat(EventsOf(front), RowEvents(last, Subsets(last)), c);
    }
  }

  lemma TupleSources(r: Row, c: Cell)
    ensures Sources(RowEvents(r, Subsets(r)), c) == if IsAncestor(c, r.cell) then {r.cell} else {}
  {
    var events := RowEvents(r, Subsets(r));
    forall e | e in events ensures e.gen == c ==> IsAncestor(c, r.cell) && e.src == r.cell {
      var m :| 0 <= m < |events| && events[m] == e;
      BitmaskEnumeration(r.cell, c, m);
    }
    if IsAncestor(c, r.cell) {
      var m := MaskOf(c, PinnedDims(r.cell));
      MaskBound(c, PinnedDims(r.cell));
      BitmaskEnumeration(r.cell, c, m);
      assert events[m].gen == c && events[m] in events;
    }
  }

  lemma SourcesConcat(a: seq<GenEvent>, b: seq<GenEvent>, c: Cell)
    ensures Sources(a + b, c) == Sources(a, c) + Sources(b, c)
  {
    assert forall x :: x in a + b <==> x in a || x in b;
  }

  lemma {:induction false} EventsSources(base: seq<Row>, c: Cell)
    ensures Sources(EventsOf(base), c) == Covered(Support(base), c)
  {
    if base != [] {
      var front, last := base[..|base| - 1], base[|base| - 1];
      EventsSources(front, c);
      TupleSources(last, c);
      SourcesConcat(EventsOf(front), RowEvents(last, Subsets(last)), c);
      CoveredSnoc(front, last, c);
      assert base == front + [last];
    }
  }

  lemma CoveredSnoc(front: seq<Row>, last: Row, c: Cell)
    ensures Covered(Support(front + [last]), c)
         == Covered(Support(front), c) + if IsAncestor(c, last.cell) then {last.cell} else {}
  {
    TotalSnoc(front, last, Under(c));
  }

  // ---------------------------------------------------------------- populate

  const EventOrder: (GenEvent, GenEvent) -> bool := (a: GenEvent, b: GenEvent) => Precedes(a.gen, b.gen)

  ghost function CubeRows(cube: seq<PopulatedCell>): (rows: seq<Row>)
    ensures |rows| == |cube| && forall i :: 0 <= i < |rows| ==> rows[i] == Row(cube[i].cell, cube[i].count)
  {
    seq(|cube|, i requires 0 <= i < |cube| => Row(cube[i].cell, cube[i].count))
  }

  /** The fold over a prefix of the sorted events: counts reduced, closures met so far. */
  ghost predicate IsFold(cube: seq<PopulatedCell>, events: seq<GenEvent>) {
    && IsReduction(CubeRows(cube), GenRows(events))
    && (forall i :: 0 <= i < |cube| ==>
          Sources(events, cube[i].cell) != {} && cube[i].closure == MeetAll(Sources(events, cube[i].cell)))
  }

  method Populate(base: seq<Row>) returns (cube: seq<PopulatedCell>)
    ensures cube == Populated(base)
  {
    var events := Generate(base);
    EventOrderIsPartial();
    var sorted := Sort(EventOrder, events);
    cube := Fold(sorted);
    FoldPopulates(cube, sorted, base);
  }

  /** Populate's second loop: equal neighbours of the sorted events merge into one cell. */
  method Fold(sorted: seq<GenEvent>) returns (cube: seq<PopulatedCell>)
    requires Sorted(EventOrder, sorted)
    ensures IsFold(cube, sorted)
  {
    cube := [];
    FoldOfNothing(sorted);
    for k := 0 to |sorted|
      invariant IsFold(cube, sorted[..k])
      invariant k > 0 ==> cube != [] && cube[|cube| - 1].cell == sorted[k - 1].gen
    {
      var event, top := sorted[k], |cube| - 1;
      FoldStep(cube, sorted, k);
      if cube != [] && cube[top].cell == event.gen {
        cube := cube[top := PopulatedCell(event.gen, cube[top].count + event.mult, Meet(cube[top].closure, event.src))];
      } else {
        cube := cube + [PopulatedCell(event.gen, event.mult, event.src)];
      }
    }
    assert sorted[..|sorted|] == sorted;
  }

  /** Populate's first loop: one event per tuple and per subset of the dimensions it pins. */
  method Generate(base: seq<Row>) returns (events: seq<GenEvent>)
    ensures events == EventsOf(base)
  {
    events := [];
    for k := 0 to |base|
      invariant events == EventsOf(base[..k])
    {
      var tuple, multiplicity := base[k].cell, base[k].count;
      var pinnedDims := PinnedDimsOf(tuple);
      var subsets, pinned := Pow2(|pinnedDims|), |pinnedDims|;
      ghost var before := events;
      for subset := 0 to subsets
        invariant events == before + RowEvents(base[k], subset)
      {
        var gen := TOP;
        for i := 0 to pinned
          invariant gen == KeepBits(tuple, pinnedDims, subset, i)
        {
          if Bit(subset, i) {
            gen := gen.With(pinnedDims[i], tuple.At(pinnedDims[i]));
          }
        }
        RowEventsSnoc(base[k], subset);
        events := events + [GenEvent(gen, multiplicity, tuple)];
      }
      EventsSnoc(base, k);
    }
    assert base[..|base|] == base;
  }

  method PinnedDimsOf(tuple: Cell) returns (pinned: seq<Dim>)
    ensures pinned == PinnedDims(tuple)
  {
    pinned := [];
    for dim := 0 to |DIMS|
      invariant pinned == PinnedAmong(tuple, dim)
    {
      if tuple.At(DIMS[dim]) != STAR {
        pinned := pinned + [DIMS[dim]];
      }
    }
  }

  function PinnedAmong(t: Cell, n: nat): seq<Dim>
    requires n <= 4
  {
    (if n > 0 && t.Pinned(Level) then [Level] else []) + (if n > 1 && t.Pinned(Where) then [Where] else [])
    + (if n > 2 && t.Pinned(Role) then [Role] else [])
        + (if n > 3 && t.Pinned(LatencyShift) then [LatencyShift] else [])
  }

  lemma EventOrderIsPartial()
    ensures StrictPartial(EventOrder)
  {
    forall x, y, z | EventOrder(x, y) && EventOrder(y, z) ensures EventOrder(x, z) {
      PrecedesTransitive(x.gen, y.gen, z.gen);
    }
  }

  ghost function Folded(before: seq<PopulatedCell>, e: GenEvent): seq<PopulatedCell> {
    var top := |before| - 1;
    if before != [] && before[top].cell == e.gen
    then before[top := PopulatedCell(e.gen, before[top].count + e.mult, Meet(before[top].closure, e.src))]
    else before + [PopulatedCell(e.gen, e.mult, e.src)]
  }

  lemma FoldStep(before: seq<PopulatedCell>, sorted: seq<GenEvent>, k: nat)
    requires Sorted(EventOrder, sorted) && k < |sorted| && IsFold(before, sorted[..k])
    requires k > 0 ==> before != [] && before[|before| - 1].cell == sorted[k - 1].gen
    ensures IsFold(Folded(before, sorted[k]), sorted[..k + 1])
  {
    var e, seen, after := sorted[k], sorted[..k], Folded(before, sorted[k]);
    assert sorted[..k + 1] == seen + [e];
    FoldRows(before, sorted, k);
    forall i | 0 <= i < |after|
      ensures Sources(seen + [e], after[i].cell) != {}
          && after[i].closure == MeetAll(Sources(seen + [e], after[i].cell))
    {
      FoldClosure(before, seen, e, i);
    }
  }

  /** On the counts alone, the fold is the reduction of the events' rows. */
  lemma FoldRows(before: seq<PopulatedCell>, sorted: seq<GenEvent>, k: nat)
    requires Sorted(EventOrder, sorted) && k < |sorted| && IsReduction(CubeRows(before), GenRows(sorted[..k]))
    requires k > 0 ==> before != [] && before[|before| - 1].cell == sorted[k - 1].gen
    ensures IsReduction(CubeRows(Folded(before, sorted[k])), GenRows(sorted[..k + 1]))
  {
    var rows, after := GenRows(sorted), Folded(before, sorted[k]);
    assert rows[..k] == GenRows(sorted[..k]) && rows[..k + 1] == GenRows(sorted[..k + 1]);
    forall i, j | 0 <= i < j < |sorted| ensures !RowOrder(rows[j], rows[i]) {
      assert !EventOrder(sorted[j], sorted[i]);
    }
    assert CubeRows(after) == ReducedStep(CubeRows(before), rows[k]);
    ReduceStep(CubeRows(before), rows, k, CubeRows(after));
  }

  lemma FoldOfNothing(sorted: seq<GenEvent>)
    ensures IsFold([], sorted[..0])
  {}

  lemma SourcesSnoc(seen: seq<GenEvent>, e: GenEvent, c: Cell)
    ensures Sources(seen + [e], c) == if e.gen == c then Sources(seen, c) + {e.src} else Sources(seen, c)
  {
    assert forall x :: x in seen + [e] <==> x in seen || x == e;
    assert e.gen == c ==> e.src in Sources(seen + [e], c) by { assert e in seen + [e]; }
  }

  lemma CellsDistinct(rows: seq<Row>, i: nat, j: nat)
    requires CanonicalRows(rows) && i < j < |rows|
    ensures rows[i].cell != rows[j].cell
  {
    CanonicalOrderIsTotal();
    AscendingIsSorted(CanonicalOrder, CellsOf(rows));
    assert CellsOf(rows)[i] != CellsOf(rows)[j];
  }

  lemma FoldClosure(before: seq<PopulatedCell>, seen: seq<GenEvent>, e: GenEvent, i: nat)
    requires IsFold(before, seen) && i < |Folded(before, e)| && CanonicalRows(CubeRows(Folded(before, e)))
    ensures var p := Folded(before, e)[i];
            Sources(seen + [e], p.cell) != {} && p.closure == MeetAll(Sources(seen + [e], p.cell))
  {
    var after, top := Folded(before, e), |before| - 1;
    SourcesSnoc(seen, e, after[i].cell);
    if i < |after| - 1 {
      CellsDistinct(CubeRows(after), i, |after| - 1);
      assert after[i] == before[i] && after[|after| - 1].cell == e.gen;
      assert before[i].closure == MeetAll(Sources(seen, before[i].cell));
    } else if before != [] && before[top].cell == e.gen {
      MeetAllStep(Sources(seen, e.gen), e.src);
    } else {
      forall x | x in seen ensures x.gen != e.gen { FreshCell(before, seen, e, x); }
      assert Sources(seen + [e], e.gen) == {e.src};
      MeetAllOne(e.src);
    }
  }

  lemma FreshCell(before: seq<PopulatedCell>, seen: seq<GenEvent>, e: GenEvent, x: GenEvent)
    requires IsFold(before, seen) && x in seen
    requires CanonicalRows(CubeRows(before + [PopulatedCell(e.gen, e.mult, e.src)]))
    ensures x.gen != e.gen
  {
    var j :| 0 <= j < |seen| && seen[j] == x;
    assert GenRows(seen)[j] in GenRows(seen);
    assert x.gen in Support(CubeRows(before));
    var i :| 0 <= i < |before| && CubeRows(before)[i].cell == x.gen;
    CellsDistinct(CubeRows(before + [PopulatedCell(e.gen, e.mult, e.src)]), i, |before|);
  }

  function EventWeight(c: Cell): GenEvent -> nat { (e: GenEvent) => if e.gen == c then e.mult else 0 }

  lemma {:induction false} EventsSum(events: seq<GenEvent>, c: Cell)
    ensures Mass(GenRows(events), c) == Sum(events, EventWeight(c))
  {
    if events != [] {
      var front, last := events[..|events| - 1], events[|events| - 1];
      EventsSum(front, c);
      assert GenRows(events)[..|events| - 1] == GenRows(front);
    }
  }

  lemma EventsReadings(sorted: seq<GenEvent>, base: seq<Row>, c: Cell)
    requires multiset(sorted) == multiset(EventsOf(base))
    ensures Mass(GenRows(sorted), c) == Count(base, c)
    ensures Sources(sorted, c) == Covered(Support(base), c)
    ensures c in Support(GenRows(sorted)) <==> c in Generalizations(Support(base))
  {
    var events := EventsOf(base);
    EventsSum(sorted, c);
    EventsSum(events, c);
    SumPermutation(sorted, events, EventWeight(c));
    EventsMass(base, c);
    EventsSources(base, c);
    assert forall e :: e in sorted <==> e in multiset(events);
    assert forall e :: e in events <==> e in multiset(events);
    assert Sources(sorted, c) == Sources(events, c);
    GeneralizationsAre(Support(base), c);
    SupportOfEvents(sorted, c);
  }

  lemma SupportOfEvents(events: seq<GenEvent>, c: Cell)
    ensures c in Support(GenRows(events)) <==> Sources(events, c) != {}
  {
    var rows := GenRows(events);
    if c in Support(rows) {
      var i :| 0 <= i < |rows| && rows[i].cell == c;
      assert events[i].src in Sources(events, c);
    }
    if s :| s in Sources(events, c) {
      var e :| e in events && e.gen == c;
      var i :| 0 <= i < |events| && events[i] == e;
      assert rows[i] in rows;
    }
  }

  /** Folding any sorted arrangement of the events gives the populated cube. */
  lemma FoldPopulates(cube: seq<PopulatedCell>, sorted: seq<GenEvent>, base: seq<Row>)
    requires IsFold(cube, sorted) && multiset(sorted) == multiset(EventsOf(base))
    ensures cube == Populated(base)
  {
    var rows := CubeRows(cube);
    SupportOfCells(rows);
    assert CellsOf(rows) == CubeCells(cube);
    forall i | 0 <= i < |cube| ensures IsAggregate(cube[i], base) {
      EventsReadings(sorted, base, cube[i].cell);
      assert rows[i].count == Mass(GenRows(sorted), rows[i].cell);
    }
    forall c ensures c in Support(GenRows(sorted)) <==> c in Generalizations(Support(base)) {
      EventsReadings(sorted, base, c);
    }
    PopulatedUnique(cube, base, Populated(base), base);
  }
}
