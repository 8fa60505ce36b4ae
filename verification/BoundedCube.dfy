/** Building a cube within the cell budget: close first, then collapse and close again. */
module BoundedCube {
  import opened Options
  import opened Bytes
  import opened Cells
  import opened Bases
  import opened Closure
  import opened ClosedCube
  import opened Collapse
  import opened Guardrail
  import opened Blocks
  import opened Emission

  lemma CollapsedInRange(base: seq<Row>, s: CollapseState, n: nat)
    requires RowsInRange(base, n)
    ensures RowsInRange(CollapsedBase(base, s), n)
  {
    CollapsedSupport(base, s);
    hide CollapsedBase;
    var b := CollapsedBase(base, s);
    forall r | r in b ensures InRange(r.cell, n) {
      assert r.cell in Support(b);
      var o :| o in Support(base) && CollapseCell(o, s) == r.cell;
      var q :| q in base && q.cell == o;
    }
  }

  lemma TrialCount(base: seq<Row>, s: CollapseState, labels: seq<Text>)
    requires RowsInRange(CollapsedBase(base, s), |labels|)
    ensures Emitted(CollapsedBase(base, s), labels).cellCount == Counting(base)(s)
  {}

  method PickCollapseStep(base: seq<Row>, currentCells: nat, state: CollapseState, labels: seq<Text>)
    returns (best: Option<CollapseState>)
    requires RowsInRange(base, |labels|)
    ensures best == Pick(Counting(base), currentCells, state)
  {
    hide CollapsedBase, ClosedCount, IsBest, NextSteps, Emitted;
    best := None;
    var bestDelta, bestCost := 0, 1;
    var steps := NextSteps(state);
    for k := 0 to |steps|
      invariant IsPick(best, Counting(base), currentCells, state, k)
      invariant best.Some? ==> bestDelta == Delta(Counting(base)(best.value), currentCells)
      invariant best.Some? ==> bestCost == StepCost(state, best.value)
    {
      var candidate := steps[k];
      PickStep(best, Counting(base), currentCells, state, k);
      CollapsedInRange(base, candidate, |labels|);
      var collapsed := CollapseBase(base, candidate);
      var trial := CloseAndEmit(collapsed, labels);
      var cells := trial.cellCount;
      TrialCount(base, candidate, labels);
      if cells < currentCells {
        var delta, cost := currentCells - cells, StepCost(state, candidate);
        if best.None? || Beats(delta, cost, bestDelta, bestCost) {
          best, bestDelta, bestCost := Some(candidate), delta, cost;
        }
      }
    }
    PickIs(best, Counting(base), currentCells, state);
  }

  /** The block of a base at a collapse state: closed, with its base retained and its axes stamped. */
  ghost function BlockAt(base: seq<Row>, labels: seq<Text>, s: CollapseState): CubeBlock
    requires |labels| <= STAR && RowsInRange(base, |labels|)
  {
    CollapsedInRange(base, s, |labels|);
    var collapsed := CollapsedBase(base, s);
    var block := Retained(Emitted(collapsed, labels), collapsed, labels);
    block.(axes := Stamp(block.axes, s), cellBudget := Some(CUBE_CELL_BUDGET))
  }

  ghost function BoundedBlock(base: seq<Row>, labels: seq<Text>, initial: CollapseState): CubeBlock
    requires |labels| <= STAR && RowsInRange(base, |labels|)
  {
    BlockAt(base, labels, FinalState(Counting(base), initial))
  }

  method BuildBoundedCube(base: seq<Row>, labels: seq<Text>, initial: CollapseState) returns (cube: CubeBlock)
    requires |labels| <= STAR && RowsInRange(base, |labels|)
    ensures cube == BoundedBlock(base, labels, initial)
  {
    hide CollapsedBase, ClosedCount, Counting, Emitted, Retained, Pick;
    var state := initial;
    CollapsedInRange(base, state, |labels|);
    var collapsed := CollapseBase(base, state);
    cube := CloseAndEmit(collapsed, labels);
    while cube.cellCount > CUBE_CELL_BUDGET
      invariant collapsed == CollapsedBase(base, state) && RowsInRange(collapsed, |labels|)
      invariant cube == Emitted(collapsed, labels)
      invariant FinalState(Counting(base), state) == FinalState(Counting(base), initial)
      decreases Measure(state)
    {
      TrialCount(base, state, labels);
      var next := PickCollapseStep(base, cube.cellCount, state, labels);
      PickReduces(Counting(base), cube.cellCount, state);
      if next.None? {
        break;
      }
      state := next.value;
      CollapsedInRange(base, state, |labels|);
      collapsed := CollapseBase(base, state);
      cube := CloseAndEmit(collapsed, labels);
    }
    TrialCount(base, state, labels);
    assert state == FinalState(Counting(base), initial);
    cube := RetainBase(cube, collapsed, labels);
    var axes := StampCollapse(cube.axes, state);
    cube := cube.(axes := axes, cellBudget := Some(CUBE_CELL_BUDGET));
  }

  /** Every cube built over the window's domain is within the budget it declares, and its axes say
      at which collapse it is to be read. */
  lemma BoundedBlockFits(base: seq<Row>, labels: seq<Text>, initial: CollapseState)
    requires |labels| <= STAR && RowsInRange(base, |labels|)
    requires InDomain(base) && initial.depth <= FULL_WHERE_DEPTH
    ensures var block := BoundedBlock(base, labels, initial);
            && block.cellCount == |block.cells| <= CUBE_CELL_BUDGET
            && block.cellBudget == Some(CUBE_CELL_BUDGET)
            && StateOfAxes(block.axes) == FinalState(Counting(base), initial)
            && Coarser(StateOfAxes(block.axes), initial)
  {
    GuardrailHolds(base, initial);
    FinalStateCoarser(Counting(base), initial);
    AxesRoundTrip(FinalState(Counting(base), initial));
  }
}
