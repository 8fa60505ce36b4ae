/** The collapse search in plain arithmetic: which of the two steps it takes, and what that costs. */
module CollapseSearch {
  import opened Options
  import opened Orders
  import opened Cells
  import opened Bases
  import opened Closure
  import opened ClosedCube
  import opened Collapse
  import opened Guardrail
  import opened GuardrailLimits

  // ---------------------------------------------------------------- the two steps

  /** The step the search takes from a state of some count: of the steps that reduce the count, the one that removes
      the most cells per unit of cost, a level step costing the floor it bands to and dropping WHERE one hundred;
      the level step when they tie; none when neither reduces. */
  lemma StepTaken(cells: CollapseState -> nat, now: nat, s: CollapseState)
    ensures var band := CollapseState(if s.floor == 0 then 2 else if s.floor < 4 then s.floor + 1 else 4, s.depth);
            var drop := CollapseState(s.floor, if s.depth > 0 then s.depth - 1 else 0);
            var banding, dropping := s.floor < 4 && cells(band) < now, s.depth > 0 && cells(drop) < now;
            && (Pick(cells, now, s) == Some(band) <==>
                  banding && (dropping ==> (now - cells(band)) * 100 >= (now - cells(drop)) * band.floor))
            && (Pick(cells, now, s) == Some(drop) <==>
                  dropping && (banding ==> (now - cells(band)) * 100 < (now - cells(drop)) * band.floor))
            && (Pick(cells, now, s) == None <==> !banding && !dropping)
  {
    var steps := NextSteps(s);
    PickIs(Pick(cells, now, s), cells, now, s);
    if s.floor < 4 { assert steps[0] == s.(floor := if s.floor == 0 then 2 else s.floor + 1); }
    if s.depth > 0 { assert steps[|steps| - 1] == s.(depth := s.depth - 1); }
  }

  /** Whichever step is taken, no other step that reduces the count removes more cells per unit of cost. */
  lemma BestStepTaken(cells: CollapseState -> nat, now: nat, s: CollapseState, i: nat, j: nat)
    requires i < |NextSteps(s)| && j < |NextSteps(s)| && i != j && cells(NextSteps(s)[j]) < now
    requires Pick(cells, now, s) == Some(NextSteps(s)[i])
    ensures var t, u := NextSteps(s)[i], NextSteps(s)[j];
            var costT := if t.depth == s.depth then t.floor else 100;
            var costU := if u.depth == s.depth then u.floor else 100;
            && cells(t) < now
            && (now - cells(t)) * costU >= (now - cells(u)) * costT
            && (j < i ==> (now - cells(t)) * costU > (now - cells(u)) * costT)
  {
    StepTaken(cells, now, s);
  }

  /** The search stays where it is within 4096 cells or when no step reduces, and otherwise goes on from the step. */
  lemma SearchStops(cells: CollapseState -> nat, s: CollapseState)
    ensures cells(s) <= 4096 || Pick(cells, cells(s), s) == None ==> FinalState(cells, s) == s
    ensures cells(s) > 4096 ==>
              match Pick(cells, cells(s), s)
              case None => true
              case Some(t) => FinalState(cells, s) == FinalState(cells, t)
  {}

  /** What a collapsed base counts: each level below the floor reads as the highest level folded with it, WHERE reads
      as the star once its depth is gone, role and shift stay. */
  lemma CollapsedReads(base: seq<Row>, s: CollapseState, p: Cell -> bool)
    ensures var folded, located := if s.floor > 0 then s.floor - 1 else 0, s.depth >= 1;
            var at := (c: Cell) => p(Cell(if c.level >= folded then c.level else folded,
                                          if located then c.component else 0xFFFF_FFFF, c.role, c.shift));
            Total(CollapsedBase(base, s), p) == Total(base, at)
  {
    hide Reduced;
    var folded, located := if s.floor > 0 then s.floor - 1 else 0, s.depth >= 1;
    var at := (c: Cell) => p(Cell(if c.level >= folded then c.level else folded,
                                  if located then c.component else 0xFFFF_FFFF, c.role, c.shift));
    ReducedEquivalent(MapRows(base, Collapsing(s)));
    TotalOfImage(base, Collapsing(s), p);
    TotalSame(base, Image(p, Collapsing(s)), at);
  }

  // ---------------------------------------------------------------- a base where the greedier step is refused

  /** Four thousand components, each with one Trace line and one Debug line of one role. */
  ghost function ManyLocations(): (base: seq<Row>)
    ensures |base| == 8000
    ensures forall i :: 0 <= i < 8000 ==> base[i] == Row(Cell(i % 2, i / 2, 0, STAR), 1)
  {
    seq(8000, i requires 0 <= i < 8000 => Row(Cell(i % 2, i / 2, 0, STAR), 1))
  }

  lemma LocationRow(r: Row)
    requires r in ManyLocations()
    ensures r.cell.level < 2 && r.cell.component < 4000 && r.cell.role == 0 && r.cell.shift == STAR
  {
    var i :| 0 <= i < 8000 && ManyLocations()[i] == r;
  }

  lemma CollapsedLocation(s: CollapseState, t: Cell)
    requires t in Support(CollapsedBase(ManyLocations(), s))
    ensures exists r :: r in ManyLocations() && t == CollapseCell(r.cell, s)
  {
    CollapsedSupport(ManyLocations(), s);
    hide ManyLocations, CollapsedBase;
    var o :| o in Support(ManyLocations()) && CollapseCell(o, s) == t;
    var r :| r in ManyLocations() && r.cell == o;
  }

  /** Every closed cell of the collapsed base pins what all of its rows share. */
  lemma SharedIsPinned(base: seq<Row>, g: Cell, c: Cell)
    requires IsClosed(base, c) && forall t :: t in Support(base) ==> IsAncestor(g, t)
    ensures IsAncestor(g, c)
  {
    MeetAllIsGreatest(Covered(Support(base), c), g);
  }

  /** A closed cell lies above one of its rows. */
  lemma ClosedAboveRow(base: seq<Row>, c: Cell) returns (t: Cell)
    requires IsClosed(base, c)
    ensures t in Support(base) && IsAncestor(c, t)
  {
    t :| t in Covered(Support(base), c);
  }

  lemma EveryRowClosed(base: seq<Row>, cells: seq<Cell>)
    requires NoDuplicates(cells) && Elements(cells) <= Support(base)
    ensures |ClosedRows(base)| >= |cells|
  {
    NoDuplicatesCardinality(cells);
    forall c | c in Elements(cells) ensures c in ClosedCells(base) {
      TupleIsClosed(base, c);
      ClosedIsGeneralization(base, c);
    }
    SubsetCardinality(Elements(cells), ClosedCells(base));
    ClosedCountIsCells(base);
  }

  lemma FineLocations()
    ensures ClosedCount(ManyLocations(), CollapseState(0, 1)) >= 8000
  {
    var base := ManyLocations();
    CollapsedSupport(base, CollapseState(0, 1));
    hide CollapsedBase, ClosedRows;
    var cells := CellsOf(base);
    forall c | c in Elements(cells) ensures c in Support(CollapsedBase(base, CollapseState(0, 1))) {
      var i :| 0 <= i < 8000 && cells[i] == c;
      assert base[i] in base && base[i].cell in Support(base);
      assert CollapseCell(c, CollapseState(0, 1)) == c;
    }
    forall i, j | 0 <= i < j < |cells| ensures cells[i] != cells[j] { assert i % 2 != j % 2 || i / 2 != j / 2; }
    EveryRowClosed(CollapsedBase(base, CollapseState(0, 1)), cells);
  }

  lemma BandedLocation(c: Cell)
    requires IsClosed(CollapsedBase(ManyLocations(), CollapseState(2, 1)), c)
    ensures c.level == 1 && c.role == 0 && c.shift == STAR && (c.component < 4000 || c.component == STAR)
  {
    var s := CollapseState(2, 1);
    var b := CollapsedBase(ManyLocations(), s);
    forall t | t in Support(b) ensures IsAncestor(Cell(1, STAR, 0, STAR), t) && t.component < 4000 && t.shift == STAR {
      CollapsedLocation(s, t);
      var r :| r in ManyLocations() && t == CollapseCell(r.cell, s);
      LocationRow(r);
    }
    hide CollapsedBase;
    SharedIsPinned(b, Cell(1, STAR, 0, STAR), c);
    var t := ClosedAboveRow(b, c);
  }

  const ComponentSlot: Cell -> nat := (c: Cell) => if c.component < 4000 then c.component else 4000

  lemma ComponentSlots(cells: set<Cell>)
    requires forall c :: c in cells ==>
               c.level == 1 && c.role == 0 && c.shift == STAR && (c.component < 4000 || c.component == STAR)
    ensures |cells| <= 4001
  {
    InjectiveBound(cells, ComponentSlot, 4001);
  }

  lemma BandedLocations()
    ensures ClosedCount(ManyLocations(), CollapseState(2, 1)) <= 4001
  {
    var b := CollapsedBase(ManyLocations(), CollapseState(2, 1));
    ClosedCountIsCells(b);
    forall c | c in ClosedCells(b)
      ensures c.level == 1 && c.role == 0 && c.shift == STAR && (c.component < 4000 || c.component == STAR)
    {
      ClosedIsGeneralization(b, c);
      BandedLocation(c);
    }
    hide *;
    ComponentSlots(ClosedCells(b));
  }

  lemma DroppedLocation(c: Cell)
    requires IsClosed(CollapsedBase(ManyLocations(), CollapseState(0, 0)), c)
    ensures (c.level < 2 || c.level == STAR) && c.role == 0 && c.shift == STAR && c.component == STAR
  {
    var s := CollapseState(0, 0);
    var b := CollapsedBase(ManyLocations(), s);
    forall t | t in Support(b)
      ensures IsAncestor(Cell(STAR, STAR, 0, STAR), t) && t.level < 2 && t.component == STAR && t.shift == STAR
    {
      CollapsedLocation(s, t);
      var r :| r in ManyLocations() && t == CollapseCell(r.cell, s);
      LocationRow(r);
    }
    hide CollapsedBase;
    SharedIsPinned(b, Cell(STAR, STAR, 0, STAR), c);
    var t := ClosedAboveRow(b, c);
  }

  const LevelSlot: Cell -> nat := (c: Cell) => if c.level < 2 then c.level else 2

  lemma LevelSlots(cells: set<Cell>)
    requires forall c :: c in cells ==>
               (c.level < 2 || c.level == STAR) && c.role == 0 && c.shift == STAR && c.component == STAR
    ensures |cells| <= 3
  {
    InjectiveBound(cells, LevelSlot, 3);
  }

  lemma DroppedLocations()
    ensures ClosedCount(ManyLocations(), CollapseState(0, 0)) <= 3
  {
    var b := CollapsedBase(ManyLocations(), CollapseState(0, 0));
    ClosedCountIsCells(b);
    forall c | c in ClosedCells(b)
      ensures (c.level < 2 || c.level == STAR) && c.role == 0 && c.shift == STAR && c.component == STAR
    {
      ClosedIsGeneralization(b, c);
      DroppedLocation(c);
    }
    hide *;
    LevelSlots(ClosedCells(b));
  }

  /** Dropping WHERE would leave three cells at most, banding Trace into Debug leaves thousands; yet the search bands
      and keeps every location, because banding is that much cheaper. */
  lemma LocationsKept()
    ensures FinalState(Counting(ManyLocations()), CollapseState(0, 1)) == CollapseState(2, 1)
    ensures ClosedCount(ManyLocations(), CollapseState(0, 0)) <= 3
    ensures ClosedCount(ManyLocations(), CollapseState(2, 1)) <= 4001
    ensures ClosedCount(ManyLocations(), CollapseState(0, 1)) >= 8000
  {
    var cells := Counting(ManyLocations());
    FineLocations();
    BandedLocations();
    DroppedLocations();
    hide ClosedCount, FinalState;
    StepTaken(cells, cells(CollapseState(0, 1)), CollapseState(0, 1));
    SearchStops(cells, CollapseState(0, 1));
    SearchStops(cells, CollapseState(2, 1));
  }
}
