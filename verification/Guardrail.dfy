/** The collapse search and its unconditional bound. */
module Guardrail {
  import opened Options
  import opened Orders
  import opened Cells
  import opened Bases
  import opened Closure
  import opened ClosedCube
  import opened Collapse

  /** The closed cells a base would have at a collapse state. */
  ghost function ClosedCount(base: seq<Row>, s: CollapseState): nat { |ClosedRows(CollapsedBase(base, s))| }

  ghost function Counting(base: seq<Row>): CollapseState -> nat { s => ClosedCount(base, s) }

  /** The gain of a step to a state with `cells` closed cells, never negative. */
  function Delta(cells: nat, current: nat): nat { if cells < current then current - cells else 0 }

  /** Gain over cost compared by cross-multiplication. */
  predicate Beats(delta: nat, cost: nat, otherDelta: nat, otherCost: nat) { delta * otherCost > otherDelta * cost }

  /** Step `k` reduces the count, has the best gain per cost among the first `n` steps, and on a tie is the first. */
  ghost predicate IsBest(cells: CollapseState -> nat, current: nat, s: CollapseState, k: nat, n: nat)
    requires n <= |NextSteps(s)|
  {
    var steps := NextSteps(s);
    && k < n
    && Delta(cells(steps[k]), current) > 0
    && (forall j: nat {:trigger steps[j]} :: j < n && j != k && Delta(cells(steps[j]), current) > 0 ==>
          var mine, cost := Delta(cells(steps[k]), current), StepCost(s, steps[k]);
          var other, otherCost := Delta(cells(steps[j]), current), StepCost(s, steps[j]);
          if j < k then Beats(mine, cost, other, otherCost) else !Beats(other, otherCost, mine, cost))
  }

  ghost predicate NoneReduces(cells: CollapseState -> nat, current: nat, s: CollapseState, n: nat)
    requires n <= |NextSteps(s)|
  {
    forall j: nat {:trigger NextSteps(s)[j]} :: j < n ==> Delta(cells(NextSteps(s)[j]), current) == 0
  }

  ghost predicate IsPick(best: Option<CollapseState>, cells: CollapseState -> nat, current: nat, s: CollapseState,
                         n: nat)
    requires n <= |NextSteps(s)|
  {
    match best
    case None => NoneReduces(cells, current, s, n)
    case Some(t) => exists k: nat :: IsBest(cells, current, s, k, n) && t == NextSteps(s)[k]
  }

  /** The step the search takes, if any reduces. */
  ghost function Pick(cells: CollapseState -> nat, current: nat, s: CollapseState): Option<CollapseState> {
    if exists k: nat :: IsBest(cells, current, s, k, |NextSteps(s)|) then
      var k: nat :| IsBest(cells, current, s, k, |NextSteps(s)|);
      Some(NextSteps(s)[k])
    else
      None
  }

  lemma PickIs(best: Option<CollapseState>, cells: CollapseState -> nat, current: nat, s: CollapseState)
    ensures IsPick(best, cells, current, s, |NextSteps(s)|) <==> best == Pick(cells, current, s)
  {
    var steps := NextSteps(s);
    if |steps| == 2 {
      assert steps[0] == steps[0] && steps[1] == steps[1];
      assert IsBest(cells, current, s, 0, 2) || IsBest(cells, current, s, 1, 2) || NoneReduces(cells, current, s, 2);
    } else if |steps| == 1 {
      assert IsBest(cells, current, s, 0, 1) || NoneReduces(cells, current, s, 1);
    }
  }

  lemma PickReduces(cells: CollapseState -> nat, current: nat, s: CollapseState)
    ensures Pick(cells, current, s).None? <==> forall t :: t in NextSteps(s) ==> cells(t) >= current
    ensures Pick(cells, current, s).Some? ==>
              Pick(cells, current, s).value in NextSteps(s) && cells(Pick(cells, current, s).value) < current
  {
    var steps := NextSteps(s);
    PickIs(Pick(cells, current, s), cells, current, s);
    if Pick(cells, current, s).None? {
      forall t | t in steps ensures cells(t) >= current {
        var j: nat :| j < |steps| && steps[j] == t;
        assert Delta(cells(steps[j]), current) == 0;
      }
    }
  }

  /** The state the search ends in. */
  ghost function FinalState(cells: CollapseState -> nat, s: CollapseState): (t: CollapseState)
    decreases Measure(s)
  {
    PickReduces(cells, cells(s), s);
    if cells(s) <= CUBE_CELL_BUDGET then s
    else
      match Pick(cells, cells(s), s)
      case None => s
      case Some(next) => FinalState(cells, next)
  }

  /** Whatever the search does, it ends at least as coarse as it began, with no more closed cells. */
  lemma {:induction false} FinalStateCoarser(cells: CollapseState -> nat, s: CollapseState)
    ensures Coarser(FinalState(cells, s), s) && cells(FinalState(cells, s)) <= cells(s)
    decreases Measure(s)
  {
    PickReduces(cells, cells(s), s);
    if cells(s) > CUBE_CELL_BUDGET && Pick(cells, cells(s), s).Some? {
      FinalStateCoarser(cells, Pick(cells, cells(s), s).value);
    }
  }

  /** The search as the pick step performs it, one candidate at a time; `count` closes a trial base. */
  lemma PickStep(best: Option<CollapseState>, cells: CollapseState -> nat, current: nat, s: CollapseState, n: nat)
    requires n < |NextSteps(s)| && IsPick(best, cells, current, s, n)
    ensures var t := NextSteps(s)[n];
            var delta := Delta(cells(t), current);
            var take := delta > 0 && (best.None? ||
              Beats(delta, StepCost(s, t), Delta(cells(best.value), current), StepCost(s, best.value)));
            IsPick(if take then Some(t) else best, cells, current, s, n + 1)
  {
    var steps := NextSteps(s);
    var delta := Delta(cells(steps[n]), current);
    if best.Some? {
      var k: nat :| IsBest(cells, current, s, k, n) && best.value == steps[k];
      assert n == 1 && k == 0;
      assert IsBest(cells, current, s, 0, 2) || IsBest(cells, current, s, 1, 2);
    } else if delta > 0 {
      assert IsBest(cells, current, s, n, n + 1);
    }
  }

  // ---------------------------------------------------------------- the bound

  /** A base over the seven levels and an 8-bit role, as the window accumulates it. */
  ghost predicate InDomain(base: seq<Row>) {
    forall r :: r in base ==> r.cell.level < LEVELS && r.cell.role < ROLES && r.cell.shift == STAR
  }

  /** A number for each cell that stars WHERE: its level slot and its role slot, the star last. */
  function Slot(c: Cell): nat {
    (if c.level == STAR then LEVELS else if c.level < LEVELS then c.level else 0) * (ROLES + 1)
    + if c.role < ROLES then c.role else ROLES
  }

  lemma {:induction false} InjectiveBound(s: set<Cell>, slot: Cell -> nat, n: nat)
    requires forall c :: c in s ==> slot(c) < n
    requires forall c, d {:trigger slot(c), slot(d)} :: c in s && d in s && slot(c) == slot(d) ==> c == d
    ensures |s| <= n
  {
    if n == 0 {
      assert forall c :: c !in s;
      assert s == {};
    } else if top :| top in s && slot(top) == n - 1 {
      InjectiveBound(s - {top}, slot, n - 1);
    } else {
      InjectiveBound(s, slot, n - 1);
    }
  }

  lemma ClosedCountIsCells(base: seq<Row>)
    ensures |ClosedRows(base)| == |ClosedCells(base)|
  {
    var rows := ClosedRows(base);
    CanonicalOrderIsTotal();
    AscendingIsSorted(CanonicalOrder, CellsOf(rows));
    SupportOfCells(rows);
    NoDuplicatesCardinality(CellsOf(rows));
  }

  lemma {:induction false} NoDuplicatesCardinality(cells: seq<Cell>)
    requires NoDuplicates(cells)
    ensures |Elements(cells)| == |cells|
  {
    if cells != [] {
      var front, last := cells[..|cells| - 1], cells[|cells| - 1];
      assert cells == front + [last] && last !in front;
      NoDuplicatesCardinality(front);
      assert Elements(cells) == Elements(front) + {last};
    }
  }

  lemma ClosedCellSource(base: seq<Row>, s: CollapseState, c: Cell)
    requires c in ClosedCells(CollapsedBase(base, s))
    ensures exists r :: r in base && IsAncestor(c, CollapseCell(r.cell, s))
  {
    var b := CollapsedBase(base, s);
    ClosedIsGeneralization(b, c);
    var t :| t in Covered(Support(b), c);
    CollapsedSupport(base, s);
    var o :| o in Support(base) && CollapseCell(o, s) == t;
    var r :| r in base && r.cell == o;
    assert IsAncestor(c, CollapseCell(r.cell, s));
  }

  /** The shape of a collapsed cell once WHERE is gone. */
  lemma DroppedShape(base: seq<Row>, s: CollapseState, c: Cell)
    requires InDomain(base) && s.depth == 0 && c in ClosedCells(CollapsedBase(base, s))
    ensures c.component == STAR && c.shift == STAR && (c.role == STAR || c.role < ROLES)
    ensures c.level == STAR || (c.level < LEVELS && s.floor <= LEVELS) || c.level == s.floor - 1
    ensures s.floor > LEVELS ==> c.level == STAR || c.level == s.floor - 1
  {
    ClosedCellSource(base, s, c);
    var r :| r in base && IsAncestor(c, CollapseCell(r.cell, s));
    assert r.cell.level < LEVELS && r.cell.role < ROLES && r.cell.shift == STAR;
  }

  const SlotOf: Cell -> nat := c => Slot(c)

  lemma SlotInjective(c: Cell, d: Cell)
    requires Slot(c) == Slot(d)
    requires c.role < ROLES || c.role == STAR
    requires d.role < ROLES || d.role == STAR
    ensures c.role == d.role
    ensures (if c.level == STAR then LEVELS else if c.level < LEVELS then c.level else 0)
         == (if d.level == STAR then LEVELS else if d.level < LEVELS then d.level else 0)
  {}

  lemma SlotBound(c: Cell)
    ensures Slot(c) < (LEVELS + 1) * (ROLES + 1)
  {}

  /** Dropping WHERE always leaves at most (levels + 1) * (roles + 1) closed cells. */
  lemma DroppedBound(base: seq<Row>, s: CollapseState)
    requires InDomain(base) && s.depth == 0
    ensures ClosedCount(base, s) <= (LEVELS + 1) * (ROLES + 1) <= CUBE_CELL_BUDGET
  {
    var cells := ClosedCells(CollapsedBase(base, s));
    ClosedCountIsCells(CollapsedBase(base, s));
    hide CollapsedBase, ClosedCells, ClosedRows, Slot;
    forall c | c in cells ensures SlotOf(c) < (LEVELS + 1) * (ROLES + 1) { SlotBound(c); }
    forall c, d | c in cells && d in cells && SlotOf(c) == SlotOf(d) ensures c == d {
      DroppedShape(base, s, c);
      DroppedShape(base, s, d);
      SlotInjective(c, d);
    }
    InjectiveBound(cells, SlotOf, (LEVELS + 1) * (ROLES + 1));
  }

  /** Over budget a reducing step always exists, so the search never gives up early. */
  lemma {:induction false} SearchEndsWithin(cells: CollapseState -> nat, s: CollapseState)
    requires s.depth <= FULL_WHERE_DEPTH && forall t: CollapseState :: t.depth == 0 ==> cells(t) <= CUBE_CELL_BUDGET
    ensures cells(FinalState(cells, s)) <= CUBE_CELL_BUDGET
    ensures cells(s) > CUBE_CELL_BUDGET ==> Pick(cells, cells(s), s).Some?
    decreases Measure(s)
  {
    if cells(s) > CUBE_CELL_BUDGET {
      var drop := s.(depth := 0);
      assert s.depth == 1;
      assert drop in NextSteps(s) by { assert NextSteps(s)[|NextSteps(s)| - 1] == drop; }
      PickReduces(cells, cells(s), s);
      assert cells(drop) < cells(s);
      SearchEndsWithin(cells, Pick(cells, cells(s), s).value);
    }
  }

  /** The guardrail is unconditional: whatever the base and the starting state, the search ends
      with at most the budgeted number of closed cells. */
  lemma GuardrailHolds(base: seq<Row>, s: CollapseState)
    requires InDomain(base) && s.depth <= FULL_WHERE_DEPTH
    ensures ClosedCount(base, FinalState(Counting(base), s)) <= CUBE_CELL_BUDGET
    ensures ClosedCount(base, s) > CUBE_CELL_BUDGET ==> Pick(Counting(base), ClosedCount(base, s), s).Some?
  {
    forall t: CollapseState | t.depth == 0 ensures Counting(base)(t) <= CUBE_CELL_BUDGET { DroppedBound(base, t); }
    SearchEndsWithin(Counting(base), s);
  }

  /** A state folds Error, Fatal or anything above into nothing, and nothing into them. */
  ghost predicate KeepsFrontier(s: CollapseState) {
    forall c: Cell {:trigger CollapseCell(c, s)} ::
      c.level >= ERROR || CollapseCell(c, s).level >= ERROR ==> CollapseCell(c, s).level == c.level
  }

  lemma KeepsFrontierIff(s: CollapseState)
    ensures KeepsFrontier(s) <==> s.floor <= MAX_LEVEL_BAND_FLOOR
  {
    if s.floor > MAX_LEVEL_BAND_FLOOR { assert CollapseCell(Cell(0, STAR, STAR, STAR), s).level == s.floor - 1; }
  }

  lemma {:induction false} FloorKept(cells: CollapseState -> nat, s: CollapseState)
    requires s.floor <= MAX_LEVEL_BAND_FLOOR
    ensures FinalState(cells, s).floor <= MAX_LEVEL_BAND_FLOOR
    decreases Measure(s)
  {
    PickReduces(cells, cells(s), s);
    if cells(s) > CUBE_CELL_BUDGET && Pick(cells, cells(s), s).Some? {
      FloorKept(cells, Pick(cells, cells(s), s).value);
    }
  }

  /** Whatever the base, the state the search ends in keeps the frontier exactly when the floor it starts from is at
      most the frontier's. */
  lemma FrontierKept(cells: CollapseState -> nat, s: CollapseState)
    ensures KeepsFrontier(FinalState(cells, s)) <==> s.floor <= MAX_LEVEL_BAND_FLOOR
  {
    KeepsFrontierIff(FinalState(cells, s));
    FinalStateCoarser(cells, s);
    if s.floor <= MAX_LEVEL_BAND_FLOOR { FloorKept(cells, s); }
  }
}
