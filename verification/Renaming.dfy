/** Order-preserving renaming of component ids: nothing a cube computes depends on which
    dictionary its ids index, only on the labels behind them. */
module Renaming {
  import opened Options
  import opened Orders
  import opened Bytes
  import opened Cells
  import opened Bases
  import opened Closure
  import opened Population
  import opened ClosedCube
  import opened Collapse
  import opened Guardrail
  import opened Blocks
  import opened Emission
  import opened BoundedCube

  /** Strictly increasing, and never onto the star. */
  ghost predicate IsRenaming(phi: seq<Id>) {
    && |phi| <= STAR
    && (forall i :: 0 <= i < |phi| ==> phi[i] < STAR)
    && (forall i, j {:trigger phi[i], phi[j]} :: 0 <= i < j < |phi| ==> phi[i] < phi[j])
  }

  function Rename(c: Cell, phi: seq<Id>): Cell {
    if c.component < |phi| then c.(component := phi[c.component]) else c
  }

  function Renaming(phi: seq<Id>): Cell -> Cell { c => Rename(c, phi) }

  ghost function Renamed(base: seq<Row>, phi: seq<Id>): seq<Row> { MapRows(base, Renaming(phi)) }

  /** A renaming keeps equality, generalization and the canonical order, both ways. */
  lemma RenameReflects(c: Cell, d: Cell, phi: seq<Id>)
    requires IsRenaming(phi) && InRange(c, |phi|) && InRange(d, |phi|)
    ensures Rename(c, phi) == Rename(d, phi) <==> c == d
    ensures IsAncestor(Rename(c, phi), Rename(d, phi)) <==> IsAncestor(c, d)
    ensures Precedes(Rename(c, phi), Rename(d, phi)) <==> Precedes(c, d)
  {}

  function Unrename(g: Cell, t: Cell): Cell {
    if g.component == STAR then g else g.(component := t.component)
  }

  /** Every generalization of a renamed cell is itself a renaming. */
  lemma RenameOnto(g: Cell, t: Cell, phi: seq<Id>)
    requires IsRenaming(phi) && InRange(t, |phi|) && IsAncestor(g, Rename(t, phi))
    ensures InRange(Unrename(g, t), |phi|) && Rename(Unrename(g, t), phi) == g && IsAncestor(Unrename(g, t), t)
  {}

  lemma RenameCollapse(c: Cell, phi: seq<Id>, s: CollapseState)
    requires IsRenaming(phi) && InRange(c, |phi|)
    ensures CollapseCell(Rename(c, phi), s) == Rename(CollapseCell(c, s), phi)
  {}

  lemma SupportInRange(base: seq<Row>, n: nat, t: Cell)
    requires RowsInRange(base, n) && t in Support(base)
    ensures InRange(t, n)
  {
    var r :| r in base && r.cell == t;
  }

  lemma RenamedSupport(base: seq<Row>, phi: seq<Id>, c: Cell)
    requires IsRenaming(phi) && RowsInRange(base, |phi|) && InRange(c, |phi|)
    ensures Rename(c, phi) in Support(Renamed(base, phi)) <==> c in Support(base)
  {
    SupportOfImage(base, Renaming(phi));
    if Rename(c, phi) in Support(Renamed(base, phi)) {
      var t :| t in Support(base) && Renaming(phi)(t) == Rename(c, phi);
      SupportInRange(base, |phi|, t);
      RenameReflects(t, c, phi);
    }
    if c in Support(base) { assert Renaming(phi)(c) == Rename(c, phi); }
  }

  lemma RenamedSource(base: seq<Row>, phi: seq<Id>, d: Cell) returns (t: Cell)
    requires IsRenaming(phi) && RowsInRange(base, |phi|) && d in Support(Renamed(base, phi))
    ensures t in Support(base) && InRange(t, |phi|) && Rename(t, phi) == d
  {
    SupportOfImage(base, Renaming(phi));
    t :| t in Support(base) && Renaming(phi)(t) == d;
    SupportInRange(base, |phi|, t);
  }

  lemma RenamedReadings(base: seq<Row>, phi: seq<Id>, c: Cell)
    requires IsRenaming(phi) && RowsInRange(base, |phi|) && InRange(c, |phi|)
    ensures Count(Renamed(base, phi), Rename(c, phi)) == Count(base, c)
    ensures Mass(Renamed(base, phi), Rename(c, phi)) == Mass(base, c)
  {
    TotalOfImage(base, Renaming(phi), Under(Rename(c, phi)));
    TotalOfImage(base, Renaming(phi), Exactly(Rename(c, phi)));
    forall r | r in base
      ensures Image(Under(Rename(c, phi)), Renaming(phi))(r.cell) == Under(c)(r.cell)
      ensures Image(Exactly(Rename(c, phi)), Renaming(phi))(r.cell) == Exactly(c)(r.cell)
    {
      RenameReflects(c, r.cell, phi);
      RenameReflects(r.cell, c, phi);
    }
    TotalSame(base, Image(Under(Rename(c, phi)), Renaming(phi)), Under(c));
    TotalSame(base, Image(Exactly(Rename(c, phi)), Renaming(phi)), Exactly(c));
  }

  lemma RenamedCanonical(rows: seq<Row>, phi: seq<Id>)
    requires IsRenaming(phi) && RowsInRange(rows, |phi|) && CanonicalRows(rows)
    ensures CanonicalRows(Renamed(rows, phi))
  {
    var cells, renamed := CellsOf(rows), CellsOf(Renamed(rows, phi));
    forall i, j | 0 <= i < j < |renamed| ensures CanonicalOrder(renamed[i], renamed[j]) {
      assert rows[i] in rows && rows[j] in rows;
      assert CanonicalOrder(cells[i], cells[j]);
      RenameReflects(cells[i], cells[j], phi);
    }
  }

  /** The cells of `a` are the renamings of the cells of `rows`, with the same counts. */
  ghost predicate Corresponds(a: seq<Row>, rows: seq<Row>, phi: seq<Id>) {
    && (forall c :: c in Support(a) ==> exists t :: t in Support(rows) && Rename(t, phi) == c)
    && (forall t :: t in Support(rows) ==> Rename(t, phi) in Support(a))
    && (forall x, y {:trigger x in a, y in rows} :: x in a && y in rows && x.cell == Rename(y.cell, phi) ==>
        x.count == y.count)
  }

  lemma RenamedUnique(a: seq<Row>, rows: seq<Row>, phi: seq<Id>)
    requires IsRenaming(phi) && RowsInRange(rows, |phi|) && CanonicalRows(a) && CanonicalRows(rows)
    requires Corresponds(a, rows, phi)
    ensures a == Renamed(rows, phi)
  {
    var b := Renamed(rows, phi);
    RenamedCanonical(rows, phi);
    forall c ensures c in Support(a) <==> c in Support(b) {
      if c in Support(a) {
        var t :| t in Support(rows) && Rename(t, phi) == c;
        SupportInRange(rows, |phi|, t);
        RenamedSupport(rows, phi, t);
      }
      if c in Support(b) {
        var t := RenamedSource(rows, phi, c);
      }
    }
    forall x, y | x in a && y in b && x.cell == y.cell ensures x.count == y.count {
      var i :| 0 <= i < |b| && b[i] == y;
      assert rows[i] in rows;
    }
    CanonicalUnique(a, b);
  }

  lemma ReducedInRange(base: seq<Row>, n: nat)
    requires RowsInRange(base, n)
    ensures RowsInRange(Reduced(base), n)
  {
    ReducedIs(base);
    hide Reduced;
    forall r | r in Reduced(base) ensures InRange(r.cell, n) {
      assert r.cell in Support(Reduced(base));
      SupportInRange(base, n, r.cell);
    }
  }

  lemma RenamedReduced(base: seq<Row>, phi: seq<Id>)
    requires IsRenaming(phi) && RowsInRange(base, |phi|)
    ensures RowsInRange(Reduced(base), |phi|) && Reduced(Renamed(base, phi)) == Renamed(Reduced(base), phi)
  {
    ReducedInRange(base, |phi|);
    ReducedIs(base);
    ReducedIs(Renamed(base, phi));
    hide Reduced;
    var a, rows := Reduced(Renamed(base, phi)), Reduced(base);
    forall c | c in Support(a) ensures exists t :: t in Support(rows) && Rename(t, phi) == c {
      var t := RenamedSource(base, phi, c);
    }
    forall t | t in Support(rows) ensures Rename(t, phi) in Support(a) {
      SupportInRange(base, |phi|, t);
      RenamedSupport(base, phi, t);
    }
    forall x, y | x in a && y in rows && x.cell == Rename(y.cell, phi) ensures x.count == y.count {
      RenamedReadings(base, phi, y.cell);
      ReducedRowCount(base, y);
      ReducedRowCount(Renamed(base, phi), x);
    }
    RenamedUnique(a, rows, phi);
  }

  lemma ReducedRowCount(base: seq<Row>, r: Row)
    requires r in Reduced(base)
    ensures r.count == Mass(base, r.cell)
  {
    ReducedIs(base);
  }

  /** A cell is closed when it covers something and nothing more specific covers as much. */
  lemma ClosedIff(base: seq<Row>, c: Cell)
    ensures IsClosed(base, c) <==>
              Covered(Support(base), c) != {}
              && forall g :: Covered(Support(base), c) <= Covered(Support(base), g) ==> IsAncestor(g, c)
  {
    var s := Support(base);
    if Covered(s, c) != {} {
      var k := ClosureOf(s, c);
      ClosureLaws(s, c);
      forall g ensures Covered(s, c) <= Covered(s, g) <==> IsAncestor(g, k) { ClosureIsGreatest(s, c, g); }
      if forall g :: Covered(s, c) <= Covered(s, g) ==> IsAncestor(g, c) {
        assert IsAncestor(k, c);
        AncestorOrder(k, c, k);
      }
    }
  }

  lemma RenamedCover(base: seq<Row>, phi: seq<Id>, c: Cell, g: Cell)
    requires IsRenaming(phi) && RowsInRange(base, |phi|) && InRange(c, |phi|) && InRange(g, |phi|)
    ensures Covered(Support(Renamed(base, phi)), Rename(c, phi)) <= Covered(Support(Renamed(base, phi)), Rename(g, phi))
       <==> Covered(Support(base), c) <= Covered(Support(base), g)
    ensures Covered(Support(Renamed(base, phi)), Rename(c, phi)) != {} <==> Covered(Support(base), c) != {}
  {
    var s, s' := Support(base), Support(Renamed(base, phi));
    forall t | t in s
      ensures Rename(t, phi) in s'
      ensures forall x :: x == c || x == g ==> (Rename(t, phi) in Covered(s', Rename(x, phi)) <==> t in Covered(s, x))
    {
      SupportInRange(base, |phi|, t);
      RenamedSupport(base, phi, t);
      RenameReflects(c, t, phi);
      RenameReflects(g, t, phi);
    }
    forall d | d in s' ensures exists t :: t in s && Rename(t, phi) == d { var t := RenamedSource(base, phi, d); }
  }

  lemma RenamedClosed(base: seq<Row>, phi: seq<Id>, c: Cell)
    requires IsRenaming(phi) && RowsInRange(base, |phi|) && InRange(c, |phi|)
    ensures IsClosed(Renamed(base, phi), Rename(c, phi)) <==> IsClosed(base, c)
  {
    var s, s', c' := Support(base), Support(Renamed(base, phi)), Rename(c, phi);
    ClosedIff(base, c);
    ClosedIff(Renamed(base, phi), c');
    RenamedCover(base, phi, c, c);
    if IsClosed(base, c) {
      var t :| t in Covered(s, c);
      SupportInRange(base, |phi|, t);
      RenamedSupport(base, phi, t);
      RenameReflects(c, t, phi);
      forall g' | Covered(s', c') <= Covered(s', g') ensures IsAncestor(g', c') {
        assert Rename(t, phi) in Covered(s', c');
        RenameOnto(g', t, phi);
        RenamedCover(base, phi, c, Unrename(g', t));
        RenameReflects(Unrename(g', t), c, phi);
      }
    }
    if IsClosed(Renamed(base, phi), c') {
      var t :| t in Covered(s, c);
      SupportInRange(base, |phi|, t);
      forall g | Covered(s, c) <= Covered(s, g) ensures IsAncestor(g, c) {
        assert t in Covered(s, g);
        RenamedCover(base, phi, c, g);
        RenameReflects(g, c, phi);
      }
    }
  }

  /** Every cell that covers something in the renamed base is the renaming of an in-range cell. */
  lemma RenamedCovers(base: seq<Row>, phi: seq<Id>, d: Cell) returns (c: Cell)
    requires IsRenaming(phi) && RowsInRange(base, |phi|) && Covered(Support(Renamed(base, phi)), d) != {}
    ensures InRange(c, |phi|) && Rename(c, phi) == d
  {
    var t' :| t' in Covered(Support(Renamed(base, phi)), d);
    var t := RenamedSource(base, phi, t');
    RenameOnto(d, t, phi);
    c := Unrename(d, t);
  }

  lemma ClosedRowsSupport(base: seq<Row>, c: Cell)
    ensures c in Support(ClosedRows(base)) <==> IsClosed(base, c)
  {
    ClosedIsGeneralization(base, c);
  }

  lemma ClosedBack(base: seq<Row>, phi: seq<Id>, d: Cell) returns (t: Cell)
    requires IsRenaming(phi) && RowsInRange(base, |phi|) && d in Support(ClosedRows(Renamed(base, phi)))
    ensures t in Support(ClosedRows(base)) && Rename(t, phi) == d
  {
    ClosedRowsSupport(Renamed(base, phi), d);
    hide ClosedRows;
    t := RenamedCovers(base, phi, d);
    RenamedClosed(base, phi, t);
    ClosedRowsSupport(base, t);
  }

  lemma ClosedForth(base: seq<Row>, phi: seq<Id>, t: Cell)
    requires IsRenaming(phi) && RowsInRange(base, |phi|) && t in Support(ClosedRows(base)) && InRange(t, |phi|)
    ensures Rename(t, phi) in Support(ClosedRows(Renamed(base, phi)))
  {
    ClosedRowsSupport(base, t);
    RenamedClosed(base, phi, t);
    ClosedRowsSupport(Renamed(base, phi), Rename(t, phi));
  }

  lemma ClosedCounts(base: seq<Row>, phi: seq<Id>, x: Row, y: Row)
    requires IsRenaming(phi) && RowsInRange(base, |phi|)
    requires x in ClosedRows(Renamed(base, phi)) && y in ClosedRows(base) && InRange(y.cell, |phi|)
    requires x.cell == Rename(y.cell, phi)
    ensures x.count == y.count
  {
    RenamedReadings(base, phi, y.cell);
    ClosedRowCount(base, y);
    ClosedRowCount(Renamed(base, phi), x);
  }

  lemma ClosedRowsCanonical(base: seq<Row>)
    ensures CanonicalRows(ClosedRows(base))
  {}

  lemma ClosedCorresponds(base: seq<Row>, phi: seq<Id>)
    requires IsRenaming(phi) && RowsInRange(base, |phi|) && RowsInRange(ClosedRows(base), |phi|)
    ensures Corresponds(ClosedRows(Renamed(base, phi)), ClosedRows(base), phi)
  {
    var a, rows := ClosedRows(Renamed(base, phi)), ClosedRows(base);
    hide ClosedRows, Renamed, IsClosedRows, Support, Rename, IsRenaming;
    forall c | c in Support(a) ensures exists t :: t in Support(rows) && Rename(t, phi) == c {
      var t := ClosedBack(base, phi, c);
    }
    forall t | t in Support(rows) ensures Rename(t, phi) in Support(a) {
      SupportInRange(rows, |phi|, t);
      ClosedForth(base, phi, t);
    }
    forall x, y | x in a && y in rows && x.cell == Rename(y.cell, phi) ensures x.count == y.count {
      ClosedCounts(base, phi, x, y);
    }
  }

  lemma RenamedClosedRows(base: seq<Row>, phi: seq<Id>)
    requires IsRenaming(phi) && RowsInRange(base, |phi|)
    ensures RowsInRange(ClosedRows(base), |phi|) && ClosedRows(Renamed(base, phi)) == Renamed(ClosedRows(base), phi)
  {
    PopulatedInRange(base, |phi|);
    ClosedRowsCanonical(base);
    ClosedRowsCanonical(Renamed(base, phi));
    hide *;
    ClosedCorresponds(base, phi);
    RenamedUnique(ClosedRows(Renamed(base, phi)), ClosedRows(base), phi);
  }

  lemma PopulatedSupport(base: seq<Row>, c: Cell)
    ensures c in Support(CubeRows(Populated(base))) <==> Covered(Support(base), c) != {}
  {
    AggregatesOf(base);
    GeneralizationsAre(Support(base), c);
  }

  lemma PopulatedRowsInRange(base: seq<Row>, n: nat)
    requires RowsInRange(base, n)
    ensures RowsInRange(CubeRows(Populated(base)), n)
  {
    PopulatedInRange(base, n);
    var cube := Populated(base);
    hide Populated, IsPopulated, InRange, RowsInRange;
    forall r | r in CubeRows(cube) ensures InRange(r.cell, n) {
      var i :| 0 <= i < |cube| && CubeRows(cube)[i] == r;
      assert cube[i] in cube;
    }
  }

  lemma PopulatedCounts(base: seq<Row>, r: Row)
    requires r in CubeRows(Populated(base))
    ensures r.count == Count(base, r.cell)
  {
    AggregatesOf(base);
  }

  lemma PopulationCorresponds(base: seq<Row>, phi: seq<Id>)
    requires IsRenaming(phi) && RowsInRange(base, |phi|) && RowsInRange(CubeRows(Populated(base)), |phi|)
    ensures Corresponds(CubeRows(Populated(Renamed(base, phi))), CubeRows(Populated(base)), phi)
  {
    var a, rows := CubeRows(Populated(Renamed(base, phi))), CubeRows(Populated(base));
    hide Populated, IsPopulated, CubeRows, Renamed, Support, Rename, IsRenaming, Covered;
    forall c | c in Support(a) ensures exists t :: t in Support(rows) && Rename(t, phi) == c {
      PopulatedSupport(Renamed(base, phi), c);
      var t := RenamedCovers(base, phi, c);
      RenamedCover(base, phi, t, t);
      PopulatedSupport(base, t);
    }
    forall t | t in Support(rows) ensures Rename(t, phi) in Support(a) {
      SupportInRange(rows, |phi|, t);
      PopulatedSupport(base, t);
      RenamedCover(base, phi, t, t);
      PopulatedSupport(Renamed(base, phi), Rename(t, phi));
    }
    forall x, y | x in a && y in rows && x.cell == Rename(y.cell, phi) ensures x.count == y.count {
      PopulatedCounts(base, y);
      PopulatedCounts(Renamed(base, phi), x);
      RenamedReadings(base, phi, y.cell);
    }
  }

  lemma PopulatedCanonical(base: seq<Row>)
    ensures CanonicalRows(CubeRows(Populated(base))) && |CubeRows(Populated(base))| == |Populated(base)|
  {
    AggregatesOf(base);
  }

  lemma RenamedPopulation(base: seq<Row>, phi: seq<Id>)
    requires IsRenaming(phi) && RowsInRange(base, |phi|)
    ensures |Populated(Renamed(base, phi))| == |Populated(base)|
  {
    hide *;
    PopulatedCanonical(base);
    PopulatedCanonical(Renamed(base, phi));
    PopulatedRowsInRange(base, |phi|);
    PopulationCorresponds(base, phi);
    RenamedUnique(CubeRows(Populated(Renamed(base, phi))), CubeRows(Populated(base)), phi);
    RenamedLength(CubeRows(Populated(base)), phi);
  }

  lemma RenamedLength(rows: seq<Row>, phi: seq<Id>)
    ensures |Renamed(rows, phi)| == |rows|
  {}

  // ---------------------------------------------------------------- whole blocks

  lemma RenamedCollapse(base: seq<Row>, phi: seq<Id>, s: CollapseState)
    requires IsRenaming(phi) && RowsInRange(base, |phi|)
    ensures RowsInRange(CollapsedBase(base, s), |phi|)
    ensures CollapsedBase(Renamed(base, phi), s) == Renamed(CollapsedBase(base, s), phi)
  {
    CollapsedInRange(base, s, |phi|);
    RenamedImage(base, phi, s);
    RenamedReduced(MapRows(base, Collapsing(s)), phi);
  }

  lemma RenamedImage(base: seq<Row>, phi: seq<Id>, s: CollapseState)
    requires IsRenaming(phi) && RowsInRange(base, |phi|)
    ensures RowsInRange(MapRows(base, Collapsing(s)), |phi|)
    ensures MapRows(Renamed(base, phi), Collapsing(s)) == Renamed(MapRows(base, Collapsing(s)), phi)
  {
    var coarse := MapRows(base, Collapsing(s));
    forall i | 0 <= i < |base|
      ensures MapRows(Renamed(base, phi), Collapsing(s))[i] == Renamed(coarse, phi)[i]
      ensures InRange(coarse[i].cell, |phi|)
    {
      assert base[i] in base;
      RenameCollapse(base[i].cell, phi, s);
    }
  }

  lemma RenamedClosedCount(base: seq<Row>, phi: seq<Id>, s: CollapseState)
    requires IsRenaming(phi) && RowsInRange(base, |phi|)
    ensures ClosedCount(Renamed(base, phi), s) == ClosedCount(base, s)
  {
    RenamedCollapse(base, phi, s);
    RenamedClosedRows(CollapsedBase(base, s), phi);
    RenamedLength(ClosedRows(CollapsedBase(base, s)), phi);
  }

  /** The search reads only closed-cell counts. */
  lemma {:induction false} SameSearch(f: CollapseState -> nat, g: CollapseState -> nat, s: CollapseState)
    requires forall t :: f(t) == g(t)
    ensures FinalState(f, s) == FinalState(g, s)
    decreases Measure(s)
  {
    PickIs(Pick(f, f(s), s), f, f(s), s);
    assert IsPick(Pick(f, f(s), s), g, f(s), s, |NextSteps(s)|) by { SamePick(f, g, f(s), s, Pick(f, f(s), s)); }
    PickIs(Pick(f, f(s), s), g, f(s), s);
    PickReduces(f, f(s), s);
    if f(s) > CUBE_CELL_BUDGET && Pick(f, f(s), s).Some? {
      SameSearch(f, g, Pick(f, f(s), s).value);
    }
  }

  lemma SamePick(f: CollapseState -> nat, g: CollapseState -> nat, current: nat, s: CollapseState,
                 best: Option<CollapseState>)
    requires (forall t :: f(t) == g(t)) && IsPick(best, f, current, s, |NextSteps(s)|)
    ensures IsPick(best, g, current, s, |NextSteps(s)|)
  {
    if best.Some? {
      var k: nat :| IsBest(f, current, s, k, |NextSteps(s)|) && best.value == NextSteps(s)[k];
      assert IsBest(g, current, s, k, |NextSteps(s)|);
    }
  }

  /** `labels` carries, at the renamed ids, exactly the labels of `dict`. */
  ghost predicate Carries(labels: seq<Text>, dict: seq<Text>, phi: seq<Id>) {
    && IsRenaming(phi) && |phi| == |dict| && |labels| <= STAR
    && (forall j :: 0 <= j < |phi| ==> phi[j] < |labels| && labels[phi[j]] == dict[j])
  }

  lemma RenamedInRange(base: seq<Row>, labels: seq<Text>, dict: seq<Text>, phi: seq<Id>)
    requires Carries(labels, dict, phi) && RowsInRange(base, |dict|)
    ensures RowsInRange(Renamed(base, phi), |labels|)
  {
    var b := Renamed(base, phi);
    forall r | r in b ensures InRange(r.cell, |labels|) {
      var i :| 0 <= i < |b| && b[i] == r;
      assert base[i] in base;
    }
  }

  lemma RenamedCoords(rows: seq<Row>, labels: seq<Text>, dict: seq<Text>, phi: seq<Id>)
    requires Carries(labels, dict, phi) && RowsInRange(rows, |dict|)
    ensures RowsInRange(Renamed(rows, phi), |labels|)
    ensures CoordRows(Renamed(rows, phi), labels) == CoordRows(rows, dict)
  {
    RenamedInRange(rows, labels, dict, phi);
    forall i | 0 <= i < |rows| ensures CoordRows(Renamed(rows, phi), labels)[i] == CoordRows(rows, dict)[i] {
      assert rows[i] in rows;
    }
  }

  lemma RenamedEmission(base: seq<Row>, labels: seq<Text>, dict: seq<Text>, phi: seq<Id>)
    requires Carries(labels, dict, phi) && RowsInRange(base, |dict|)
    ensures RowsInRange(Renamed(base, phi), |labels|)
    ensures Emitted(Renamed(base, phi), labels) == Emitted(base, dict)
  {
    RenamedInRange(base, labels, dict, phi);
    RenamedClosedRows(base, phi);
    RenamedPopulation(base, phi);
    RenamedCoords(ClosedRows(base), labels, dict, phi);
    RenamedLength(ClosedRows(base), phi);
  }

  /** Flags over the larger dictionary are the smaller one's flags, spread out by the renaming. */
  ghost predicate Spread(flags: seq<bool>, flags': seq<bool>, phi: seq<Id>) {
    && |flags| == |phi|
    && (forall j :: 0 <= j < |phi| ==> phi[j] < |flags'| && flags'[phi[j]] == flags[j])
    && (forall i :: 0 <= i < |flags'| && flags'[i] ==> exists j :: 0 <= j < |phi| && phi[j] == i)
  }

  lemma FlagsSpread(base: seq<Row>, labels: seq<Text>, dict: seq<Text>, phi: seq<Id>)
    requires Carries(labels, dict, phi) && RowsInRange(base, |dict|)
    ensures Spread(Flags(base, |dict|), Flags(Renamed(base, phi), |labels|), phi)
  {
    var flags, flags', b := Flags(base, |dict|), Flags(Renamed(base, phi), |labels|), Renamed(base, phi);
    forall j | 0 <= j < |phi| ensures flags'[phi[j]] == flags[j] {
      if flags[j] {
        var r :| r in base && r.cell.component == j;
        var i :| 0 <= i < |base| && base[i] == r;
        assert b[i] in b;
      }
      if flags'[phi[j]] {
        var r :| r in b && r.cell.component == phi[j];
        var i :| 0 <= i < |b| && b[i] == r;
        assert base[i] in base;
      }
    }
    forall k | 0 <= k < |flags'| && flags'[k] ensures exists j :: 0 <= j < |phi| && phi[j] == k {
      var r :| r in b && r.cell.component == k;
      var i :| 0 <= i < |b| && b[i] == r;
      assert base[i] in base;
      assert phi[base[i].cell.component] == k;
    }
  }

  lemma {:induction false} SpreadRanks(flags: seq<bool>, flags': seq<bool>, phi: seq<Id>, labels: seq<Text>,
                                       dict: seq<Text>, n: nat, j: nat)
    requires Carries(labels, dict, phi) && Spread(flags, flags', phi) && |flags'| == |labels|
    requires n <= |labels| && j <= |dict|
    requires (forall i :: 0 <= i < j ==> phi[i] < n) && (forall i :: j <= i < |phi| ==> phi[i] >= n)
    ensures Rank(flags', n) == Rank(flags, j) && Chosen(labels, flags', n) == Chosen(dict, flags, j)
    decreases n
  {
    if n > 0 {
      if j > 0 && phi[j - 1] == n - 1 {
        SpreadRanks(flags, flags', phi, labels, dict, n - 1, j - 1);
      } else {
        assert !flags'[n - 1];
        SpreadRanks(flags, flags', phi, labels, dict, n - 1, j);
      }
    } else {
      assert j == 0;
    }
  }

  lemma RenamedRetainedRow(flags: seq<bool>, flags': seq<bool>, phi: seq<Id>, labels: seq<Text>, dict: seq<Text>,
                           r: Row)
    requires Carries(labels, dict, phi) && Spread(flags, flags', phi) && |flags'| == |labels|
    requires InRange(r.cell, |dict|) && InRange(Rename(r.cell, phi), |labels|)
    ensures RetainedRow(flags', Row(Rename(r.cell, phi), r.count)) == RetainedRow(flags, r)
  {
    var w := r.cell.component;
    if w != STAR { SpreadRanks(flags, flags', phi, labels, dict, phi[w], w); }
  }

  lemma RenamedRetention(block: CubeBlock, base: seq<Row>, labels: seq<Text>, dict: seq<Text>, phi: seq<Id>)
    requires Carries(labels, dict, phi) && RowsInRange(base, |dict|)
    ensures RowsInRange(Renamed(base, phi), |labels|)
    ensures Retained(block, Renamed(base, phi), labels) == Retained(block, base, dict)
  {
    RenamedInRange(base, labels, dict, phi);
    FlagsSpread(base, labels, dict, phi);
    var flags, flags', b := Flags(base, |dict|), Flags(Renamed(base, phi), |labels|), Renamed(base, phi);
    SpreadRanks(flags, flags', phi, labels, dict, |labels|, |dict|);
    hide Flags, Rank, Chosen, Spread, IsRenaming, Rename;
    forall i | 0 <= i < |base| ensures RetainedRows(b, flags')[i] == RetainedRows(base, flags)[i] {
      assert base[i] in base && b[i] in b;
      RenamedRetainedRow(flags, flags', phi, labels, dict, base[i]);
    }
    assert RetainedRows(b, flags') == RetainedRows(base, flags);
  }

  /** The block a base gives does not depend on the dictionary its ids index. */
  lemma RenamedBlock(base: seq<Row>, labels: seq<Text>, dict: seq<Text>, phi: seq<Id>, s: CollapseState)
    requires Carries(labels, dict, phi) && RowsInRange(base, |dict|)
    ensures RowsInRange(Renamed(base, phi), |labels|)
    ensures BoundedBlock(Renamed(base, phi), labels, s) == BoundedBlock(base, dict, s)
  {
    RenamedInRange(base, labels, dict, phi);
    forall t ensures Counting(Renamed(base, phi))(t) == Counting(base)(t) { RenamedClosedCount(base, phi, t); }
    SameSearch(Counting(Renamed(base, phi)), Counting(base), s);
    var final := FinalState(Counting(base), s);
    RenamedCollapse(base, phi, final);
    var collapsed := CollapsedBase(base, final);
    RenamedEmission(collapsed, labels, dict, phi);
    RenamedRetention(Emitted(collapsed, dict), collapsed, labels, dict, phi);
  }
}
