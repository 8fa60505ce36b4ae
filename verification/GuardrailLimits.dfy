/** Where the guardrail's argument ends: banding alone may add closed cells, and a starting
    WHERE depth beyond the chain's defeats the budget. */
module GuardrailLimits {
  import opened Orders
  import opened Cells
  import opened Bases
  import opened Closure
  import opened ClosedCube
  import opened Collapse
  import opened Guardrail

  // ---------------------------------------------------------------- banding can grow the cube

  lemma MeetOfTwo(a: Cell, b: Cell)
    ensures MeetAll({a, b}) == Meet(a, b)
  {
    MeetAllOne(a);
    MeetAllStep({a}, b);
    assert {a} + {b} == {a, b};
  }

  lemma MeetOfThree(a: Cell, b: Cell, c: Cell)
    ensures MeetAll({a, b, c}) == Meet(Meet(a, b), c)
  {
    MeetOfTwo(a, b);
    MeetAllStep({a, b}, c);
    assert {a, b} + {c} == {a, b, c};
  }

  /** The closed cells of three tuples are their meets. */
  lemma ClosedOfThree(base: seq<Row>, a: Cell, b: Cell, c: Cell, k: Cell)
    requires Support(base) == {a, b, c} && IsClosed(base, k)
    ensures k in {a, b, c, Meet(a, b), Meet(a, c), Meet(b, c), Meet(Meet(a, b), c)}
  {
    var s := Covered(Support(base), k);
    if a in s && b in s && c in s {
      assert s == {a, b, c};
      MeetOfThree(a, b, c);
    } else if a in s && b in s {
      assert s == {a, b};
      MeetOfTwo(a, b);
    } else if a in s && c in s {
      assert s == {a, c};
      MeetOfTwo(a, c);
    } else if b in s && c in s {
      assert s == {b, c};
      MeetOfTwo(b, c);
    } else if a in s {
      assert s == {a};
      MeetAllOne(a);
    } else if b in s {
      assert s == {b};
      MeetAllOne(b);
    } else {
      assert s == {c};
      MeetAllOne(c);
    }
  }

  lemma MeetIsClosed(base: seq<Row>, a: Cell, b: Cell)
    requires a in Support(base) && b in Support(base)
    ensures IsClosed(base, Meet(a, b))
  {
    var s, m := Support(base), Meet(a, b);
    MeetIsGreatest(a, b, m);
    AncestorOrder(m, m, m);
    assert a in Covered(s, m) && b in Covered(s, m);
    ClosureLaws(s, m);
    var k := ClosureOf(s, m);
    MeetAllIsGreatest(Covered(s, m), k);
    AncestorOrder(k, k, k);
    MeetIsGreatest(a, b, k);
    AncestorOrder(m, k, m);
  }

  /** Three tuples that share nothing, at Trace, Debug and Info. */
  const APART: seq<Row> := [Row(Cell(0, 0, 0, STAR), 1), Row(Cell(1, 1, 1, STAR), 1), Row(Cell(2, 2, 2, STAR), 1)]

  const BANDED := CollapseState(2, FULL_WHERE_DEPTH)

  lemma ApartAreClosed(base: seq<Row>, a: Cell, b: Cell, c: Cell, k: Cell)
    requires Support(base) == {a, b, c}
    requires Meet(a, c) == TOP && Meet(b, c) == TOP && Meet(Meet(a, b), c) == TOP
    ensures k in ClosedCells(base) <==> k in {a, b, c, Meet(a, b), TOP}
  {
    ClosedIsGeneralization(base, k);
    if IsClosed(base, k) { ClosedOfThree(base, a, b, c, k); }
    TupleIsClosed(base, a);
    TupleIsClosed(base, b);
    TupleIsClosed(base, c);
    MeetIsClosed(base, a, b);
    MeetIsClosed(base, a, c);
  }

  lemma CellsApart(base: seq<Row>, a: Cell, b: Cell, c: Cell)
    requires Support(base) == {a, b, c}
    requires Meet(a, c) == TOP && Meet(b, c) == TOP && Meet(Meet(a, b), c) == TOP
    ensures ClosedCells(base) == {a, b, c, Meet(a, b), TOP}
  {
    forall k ensures k in ClosedCells(base) <==> k in {a, b, c, Meet(a, b), TOP} {
      ApartAreClosed(base, a, b, c, k);
    }
  }

  lemma CountApart(base: seq<Row>, a: Cell, b: Cell, c: Cell)
    requires Support(base) == {a, b, c}
    requires Meet(a, c) == TOP && Meet(b, c) == TOP && Meet(Meet(a, b), c) == TOP
    ensures |ClosedRows(base)| == |{a, b, c, Meet(a, b), TOP}|
  {
    CellsApart(base, a, b, c);
    ClosedCountIsCells(base);
  }

  lemma ApartSupport()
    ensures Support(APART) == {Cell(0, 0, 0, STAR), Cell(1, 1, 1, STAR), Cell(2, 2, 2, STAR)}
  {
    assert APART[0] in APART && APART[1] in APART && APART[2] in APART;
  }

  lemma CollapsedTriple(base: seq<Row>, s: CollapseState, x: Cell, y: Cell, z: Cell)
    requires Support(base) == {x, y, z}
    ensures Support(CollapsedBase(base, s)) == {CollapseCell(x, s), CollapseCell(y, s), CollapseCell(z, s)}
  {
    var cells := Support(CollapsedBase(base, s));
    forall c | c in cells ensures c == CollapseCell(x, s) || c == CollapseCell(y, s) || c == CollapseCell(z, s) {
      CollapsedOneOf(base, s, x, y, z, c);
    }
    CollapsedInto(base, s, x);
    CollapsedInto(base, s, y);
    CollapsedInto(base, s, z);
    ThreeElements(cells, CollapseCell(x, s), CollapseCell(y, s), CollapseCell(z, s));
  }

  lemma ThreeElements(cells: set<Cell>, x: Cell, y: Cell, z: Cell)
    requires x in cells && y in cells && z in cells && forall c :: c in cells ==> c == x || c == y || c == z
    ensures cells == {x, y, z}
  {}

  lemma CollapsedOneOf(base: seq<Row>, s: CollapseState, x: Cell, y: Cell, z: Cell, c: Cell)
    requires Support(base) == {x, y, z} && c in Support(CollapsedBase(base, s))
    ensures c == CollapseCell(x, s) || c == CollapseCell(y, s) || c == CollapseCell(z, s)
  {
    var o := CollapsedFrom(base, s, c);
  }

  lemma CollapsedFrom(base: seq<Row>, s: CollapseState, c: Cell) returns (o: Cell)
    requires c in Support(CollapsedBase(base, s))
    ensures o in Support(base) && CollapseCell(o, s) == c
  {
    CollapsedSupport(base, s);
    o :| o in Support(base) && CollapseCell(o, s) == c;
  }

  lemma CollapsedInto(base: seq<Row>, s: CollapseState, o: Cell)
    requires o in Support(base)
    ensures CollapseCell(o, s) in Support(CollapsedBase(base, s))
  {
    CollapsedSupport(base, s);
  }

  lemma FineCount(base: seq<Row>, a: Cell, b: Cell, c: Cell)
    requires Support(base) == {a, b, c} && a != b && a != c && b != c && TOP !in {a, b, c}
    requires Meet(a, b) == Meet(a, c) == Meet(b, c) == TOP
    ensures |ClosedRows(base)| == 4
  {
    CountApart(base, a, b, c);
    FourOf(a, b, c);
    assert {a, b, c, Meet(a, b), TOP} == {a, b, c, TOP};
  }

  lemma BandedCount(base: seq<Row>, a: Cell, b: Cell, c: Cell)
    requires Support(base) == {a, b, c} && a != b && a != c && b != c && TOP !in {a, b, c}
    requires Meet(a, c) == Meet(b, c) == Meet(Meet(a, b), c) == TOP && Meet(a, b) !in {a, b, c, TOP}
    ensures |ClosedRows(base)| == 5
  {
    CountApart(base, a, b, c);
    FiveOf(a, b, c, Meet(a, b));
  }

  lemma ApartFine()
    ensures ClosedCount(APART, UNCOLLAPSED) == 4
  {
    var a, b, c := Cell(0, 0, 0, STAR), Cell(1, 1, 1, STAR), Cell(2, 2, 2, STAR);
    ApartSupport();
    CollapsedTriple(APART, UNCOLLAPSED, a, b, c);
    FineCount(CollapsedBase(APART, UNCOLLAPSED), a, b, c);
  }

  lemma ApartBanded()
    ensures ClosedCount(APART, BANDED) == 5
  {
    var a, b, c := Cell(0, 0, 0, STAR), Cell(1, 1, 1, STAR), Cell(2, 2, 2, STAR);
    ApartSupport();
    CollapsedTriple(APART, BANDED, a, b, c);
    BandedCount(CollapsedBase(APART, BANDED), CollapseCell(a, BANDED), b, c);
  }

  lemma FourOf(a: Cell, b: Cell, c: Cell)
    requires a != b && a != c && b != c && TOP !in {a, b, c}
    ensures |{a, b, c, TOP}| == 4
  {}

  lemma FiveOf(a: Cell, b: Cell, c: Cell, d: Cell)
    requires a != b && a != c && b != c && TOP !in {a, b, c} && d !in {a, b, c, TOP}
    ensures |{a, b, c, d, TOP}| == 5
  {}

  /** Coarsening is not monotone on closed cells: one banding step takes four to five. */
  lemma BandingCanGrow()
    ensures BANDED in NextSteps(UNCOLLAPSED)
    ensures ClosedCount(APART, UNCOLLAPSED) == 4 && ClosedCount(APART, BANDED) == 5
  {
    assert NextSteps(UNCOLLAPSED)[0] == BANDED;
    ApartFine();
    ApartBanded();
  }

  // ---------------------------------------------------------------- the starting depth matters

  /** One more Error row than the budget, each with its own component. */
  ghost function ManyComponents(): (base: seq<Row>)
    ensures |base| == CUBE_CELL_BUDGET + 1
    ensures forall i :: 0 <= i < |base| ==> base[i] == Row(Cell(ERROR, i, 0, STAR), 1)
  {
    seq(CUBE_CELL_BUDGET + 1, i requires 0 <= i < CUBE_CELL_BUDGET + 1 => Row(Cell(ERROR, i, 0, STAR), 1))
  }

  lemma ManyComponentsOverBudget(s: CollapseState)
    requires s.depth >= FULL_WHERE_DEPTH
    ensures ClosedCount(ManyComponents(), s) > CUBE_CELL_BUDGET
  {
    var base, b := ManyComponents(), CollapsedBase(ManyComponents(), s);
    CollapsedSupport(base, s);
    var level := if ERROR < s.floor then s.floor - 1 else ERROR;
    var cells := seq(|base|, i requires 0 <= i < |base| => CollapseCell(base[i].cell, s));
    forall i, j | 0 <= i < j < |cells| ensures cells[i] != cells[j] {
      assert cells[i].component == i && cells[j].component == j;
    }
    NoDuplicatesCardinality(cells);
    forall c | c in Elements(cells) ensures c in ClosedCells(b) {
      var i :| 0 <= i < |cells| && cells[i] == c;
      assert base[i] in base && base[i].cell in Support(base);
      TupleIsClosed(b, c);
      ClosedIsGeneralization(b, c);
    }
    SubsetCardinality(Elements(cells), ClosedCells(b));
    ClosedCountIsCells(b);
  }

  lemma {:induction false} SubsetCardinality(a: set<Cell>, b: set<Cell>)
    requires a <= b
    ensures |a| <= |b|
  {
    if c :| c in a { SubsetCardinality(a - {c}, b - {c}); }
  }

  lemma StepKeepsErrorCells(s: CollapseState, t: CollapseState, c: Cell)
    requires s.depth > FULL_WHERE_DEPTH && t in NextSteps(s) && c.level == ERROR
    ensures CollapseCell(c, t) == CollapseCell(c, s)
  {}

  lemma StepKeepsManyComponents(s: CollapseState, t: CollapseState)
    requires s.depth > FULL_WHERE_DEPTH && t in NextSteps(s)
    ensures ClosedCount(ManyComponents(), t) == ClosedCount(ManyComponents(), s)
  {
    var base := ManyComponents();
    forall i | 0 <= i < |base| ensures MapRows(base, Collapsing(t))[i] == MapRows(base, Collapsing(s))[i] {
      StepKeepsErrorCells(s, t, base[i].cell);
    }
    assert MapRows(base, Collapsing(t)) == MapRows(base, Collapsing(s));
  }

  /** No step from a depth beyond the chain's changes this base, so the search gives up over budget. */
  lemma ManyComponentsStuck(s: CollapseState)
    requires s.depth > FULL_WHERE_DEPTH
    ensures FinalState(Counting(ManyComponents()), s) == s
  {
    var cells := Counting(ManyComponents());
    ManyComponentsOverBudget(s);
    forall t | t in NextSteps(s) ensures cells(t) >= cells(s) { StepKeepsManyComponents(s, t); }
    PickReduces(cells, cells(s), s);
  }

  ghost predicate WithinBudget(base: seq<Row>, s: CollapseState) {
    ClosedCount(base, FinalState(Counting(base), s)) <= CUBE_CELL_BUDGET
  }

  lemma ManyComponentsInDomain()
    ensures InDomain(ManyComponents())
  {}

  lemma ManyComponentsEscape(s: CollapseState)
    requires s.depth > FULL_WHERE_DEPTH
    ensures InDomain(ManyComponents()) && !WithinBudget(ManyComponents(), s)
  {
    ManyComponentsInDomain();
    ManyComponentsStuck(s);
    ManyComponentsOverBudget(s);
  }

  /** The budget holds for every base exactly when the starting WHERE depth is a depth the chain has;
      a composed pair whose axes declare a deeper one may stay over budget. */
  lemma GuardrailExactly(s: CollapseState)
    ensures s.depth <= FULL_WHERE_DEPTH <==> forall base :: InDomain(base) ==> WithinBudget(base, s)
  {
    if s.depth <= FULL_WHERE_DEPTH {
      forall base | InDomain(base) ensures WithinBudget(base, s) { GuardrailHolds(base, s); }
    } else {
      ManyComponentsEscape(s);
    }
  }
}
