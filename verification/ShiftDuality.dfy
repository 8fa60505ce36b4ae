/** What swapping the sides of a cube comparison does to the borders when latency shifts pin the current side:
    they trade places if and only if no counted row lies in a shifted component. */
module ShiftDuality {
  import opened Options
  import opened Orders
  import opened Bytes
  import opened Cells
  import opened Bases
  import opened Closure
  import opened Collapse
  import opened Blocks
  import opened Interning
  import opened Joints
  import opened Composition
  import opened CubeAlgebra
  import opened Border
  import opened CubeDiff
  import opened DiffProjection

  // ---------------------------------------------------------------- rows a shift pins

  predicate Drifts(component: Text, shifts: map<Text, Drift>) {
    component != [] && component in shifts && shifts[component].size != Unshifted
  }

  predicate IsPinned(c: Cell, labels: seq<Text>, shifts: map<Text, Drift>) {
    PinCell(c, labels, shifts).shift != STAR
  }

  /** No counted row of the base is pinned. */
  ghost predicate Pinless(base: seq<Row>, labels: seq<Text>, shifts: map<Text, Drift>) {
    forall r :: r in base && r.count > 0 ==> !IsPinned(r.cell, labels, shifts)
  }

  lemma {:induction false} PinlessReadings(base: seq<Row>, labels: seq<Text>, shifts: map<Text, Drift>,
                                           p: Cell -> bool)
    requires NoShift(base) && Pinless(base, labels, shifts)
    ensures Total(base, Image(p, Pinning(labels, shifts))) == Total(base, p)
  {
    if base != [] {
      var front, last := base[..|base| - 1], base[|base| - 1];
      assert forall r :: r in front ==> r in base;
      assert last in base;
      PinlessReadings(front, labels, shifts, p);
    }
  }

  /** Pinning a base none of whose counted rows is pinned moves no count. */
  lemma PinlessCounts(base: seq<Row>, labels: seq<Text>, shifts: map<Text, Drift>, c: Cell)
    requires NoShift(base) && Pinless(base, labels, shifts)
    ensures Count(Shifted(base, labels, shifts), c) == Count(base, c)
  {
    TotalOfImage(base, Pinning(labels, shifts), Under(c));
    PinlessReadings(base, labels, shifts, Under(c));
  }

  // ---------------------------------------------------------------- the two borders of a pinned side

  ghost predicate SameCounts(a: seq<Row>, b: seq<Row>) { forall c :: Count(a, c) == Count(b, c) }

  lemma SameCountsSameRegion(a: seq<Row>, m: seq<Row>, m': seq<Row>)
    requires SameCounts(m, m')
    ensures EmergentCells(a, m) == EmergentCells(a, m')
  {
    forall c ensures c in EmergentCells(a, m) <==> c in EmergentCells(a, m') {
      EmergentIsPopulated(a, m, c);
      EmergentIsPopulated(a, m', c);
    }
  }

  lemma SameCountsSameSide(cells: seq<Cell>, p: seq<Row>, m: seq<Row>, m': seq<Row>, labels: seq<Text>)
    requires SameCounts(m, m') && CellsInRange(cells, |labels|)
    ensures BorderCells(cells, p, m, labels) == BorderCells(cells, p, m', labels)
  {
    forall i | 0 <= i < |cells| ensures BorderCells(cells, p, m, labels)[i] == BorderCells(cells, p, m', labels)[i] {
      assert Count(m, cells[i]) == Count(m', cells[i]);
    }
  }

  lemma SameCountsSameBorder(a: seq<Row>, m: seq<Row>, m': seq<Row>, labels: seq<Text>)
    requires RowsInRange(m, |labels|) && RowsInRange(m', |labels|) && SameCounts(m, m')
    ensures BorderOf(a, m, a, m, labels) == BorderOf(a, m', a, m', labels)
  {
    SameCountsSameRegion(a, m, m');
    var e := EmergentCells(a, m);
    hide *;
    BorderFromSides(a, m, a, m, labels);
    BorderFromSides(a, m', a, m', labels);
    SameCountsSameSide(InOrder(LowerCells(e)), a, m, m', labels);
    SameCountsSameSide(InOrder(UpperCells(e)), a, m, m', labels);
  }

  /** Unless a counted row is pinned, what emerges does not depend on the shifts either. */
  lemma PinlessLeavesEmerging(previous: seq<Row>, current: seq<Row>, labels: seq<Text>, shifts: map<Text, Drift>,
                              s: CollapseState)
    requires RowsInRange(previous, |labels|) && RowsInRange(current, |labels|) && NoShift(current)
    requires Pinless(current, labels, shifts)
    ensures DiffBases(previous, current, labels, shifts, s).emerging
         == DiffBases(previous, current, labels, map[], s).emerging
  {
    var shifted := Shifted(current, labels, shifts);
    ShiftedInRange(current, labels, shifts);
    UnshiftedIsSame(current, labels);
    forall c ensures Count(shifted, c) == Count(current, c) { PinlessCounts(current, labels, shifts, c); }
    assert SameCounts(shifted, current);
    hide BorderOf, Shifted, SameCounts;
    SameCountsSameBorder(previous, shifted, current, labels);
  }

  /** Some coordinate pins a shift. */
  ghost predicate SideTells(side: seq<CubeBorderCell>) {
    exists k :: 0 <= k < |side| && side[k].coord.shift.Some?
  }

  /** Some most specific cell of a border pins a shift. */
  ghost predicate TellsShift(border: Option<CubeBorder>) {
    border.Some? && SideTells(border.value.lower)
  }

  lemma SwappedTells(border: Option<CubeBorder>)
    ensures TellsShift(SwappedBorder(border)) <==> TellsShift(border)
  {
    if border.Some? {
      var lower := border.value.lower;
      if k :| 0 <= k < |lower| && lower[k].coord.shift.Some? { assert Swapped(lower)[k].coord.shift.Some?; }
    }
  }

  lemma SideTellsCells(s: set<Cell>, p: seq<Row>, m: seq<Row>, labels: seq<Text>)
    requires CellsInRange(InOrder(s), |labels|)
    ensures SideTells(BorderCells(InOrder(s), p, m, labels)) <==> exists x :: x in s && x.shift != STAR
  {
    var cells := InOrder(s);
    var side := BorderCells(cells, p, m, labels);
    assert forall k :: 0 <= k < |side| ==> (side[k].coord.shift.Some? <==> cells[k].shift != STAR);
    if k :| 0 <= k < |side| && side[k].coord.shift.Some? { assert cells[k] in Elements(cells); }
    if x :| x in s && x.shift != STAR {
      assert x in Elements(cells);
      var k :| 0 <= k < |cells| && cells[k] == x;
      assert side[k].coord.shift.Some?;
    }
  }

  lemma NonEmptyTells(border: CubeBorder)
    ensures TellsShift(NonEmpty(border)) <==> SideTells(border.lower)
  {}

  /** A border tells a shift if and only if some most specific cell of its region pins one. */
  lemma BorderTells(a: seq<Row>, m: seq<Row>, p: seq<Row>, c: seq<Row>, labels: seq<Text>)
    requires RowsInRange(m, |labels|)
    ensures TellsShift(NonEmpty(BorderOf(a, m, p, c, labels)))
        <==> exists x :: x in LowerCells(EmergentCells(a, m)) && x.shift != STAR
  {
    hide *;
    BorderFromSides(a, m, p, c, labels);
    SideTellsCells(LowerCells(EmergentCells(a, m)), p, c, labels);
    NonEmptyTells(BorderOf(a, m, p, c, labels));
  }

  /** The emerging border tells a shift if and only if a counted row is pinned. */
  lemma EmergingTells(previous: seq<Row>, current: seq<Row>, labels: seq<Text>, shifts: map<Text, Drift>,
                      s: CollapseState)
    requires RowsInRange(previous, |labels|) && RowsInRange(current, |labels|) && NoShift(previous) && NoShift(current)
    ensures TellsShift(DiffBases(previous, current, labels, shifts, s).emerging)
        <==> !Pinless(current, labels, shifts)
  {
    var shifted := Shifted(current, labels, shifts);
    var e := EmergentCells(previous, shifted);
    ShiftedInRange(current, labels, shifts);
    BorderTells(previous, shifted, previous, shifted, labels);
    if x :| x in LowerCells(e) && x.shift != STAR {
      PinnedEmerges(previous, current, labels, shifts, x);
    }
    if r :| r in current && r.count > 0 && IsPinned(r.cell, labels, shifts) {
      var pinned := PinCell(r.cell, labels, shifts);
      PinnedCounts(current, labels, shifts, r);
      ShiftsOnlyEmerge(previous, current, labels, shifts, pinned);
      EmergentIsPopulated(previous, shifted, pinned);
      var x := LowerBelow(e, pinned);
      assert x in LowerCells(e) && x.shift != STAR;
    }
  }

  lemma PinnedCounts(current: seq<Row>, labels: seq<Text>, shifts: map<Text, Drift>, r: Row)
    requires r in current
    ensures Count(Shifted(current, labels, shifts), PinCell(r.cell, labels, shifts)) >= r.count
  {
    var pinned := PinCell(r.cell, labels, shifts);
    var shifted := Shifted(current, labels, shifts);
    var i :| 0 <= i < |current| && current[i] == r;
    assert shifted[i] == Row(pinned, r.count);
    TotalAtLeast(shifted, Under(pinned), shifted[i]);
  }

  /** An emergent cell that pins a shift counts some pinned row. */
  lemma PinnedEmerges(previous: seq<Row>, current: seq<Row>, labels: seq<Text>, shifts: map<Text, Drift>, x: Cell)
    requires NoShift(current) && x in EmergentCells(previous, Shifted(current, labels, shifts)) && x.shift != STAR
    ensures !Pinless(current, labels, shifts)
  {
    var shifted := Shifted(current, labels, shifts);
    EmergentIsPopulated(previous, shifted, x);
    if Pinless(current, labels, shifts) {
      PinlessCounts(current, labels, shifts, x);
      PinnedUncounted(current, x);
    }
  }

  lemma VanishingTellsNone(previous: seq<Row>, current: seq<Row>, labels: seq<Text>, shifts: map<Text, Drift>,
                           s: CollapseState)
    requires RowsInRange(previous, |labels|) && RowsInRange(current, |labels|) && NoShift(previous)
    ensures !TellsShift(DiffBases(previous, current, labels, shifts, s).vanishing)
  {
    var shifted := Shifted(current, labels, shifts);
    ShiftedInRange(current, labels, shifts);
    ShiftLeavesRegion(previous, current, labels, shifts);
    BorderTells(shifted, previous, previous, shifted, labels);
  }

  // ---------------------------------------------------------------- duality, exactly

  ghost predicate BordersTrade(there: CubeDiff, back: CubeDiff) {
    back.emerging == SwappedBorder(there.vanishing) && back.vanishing == SwappedBorder(there.emerging)
  }

  lemma UnshiftedTrade(previous: seq<Row>, current: seq<Row>, labels: seq<Text>, s: CollapseState)
    requires RowsInRange(previous, |labels|) && RowsInRange(current, |labels|)
    ensures BordersTrade(DiffBases(previous, current, labels, map[], s), DiffBases(current, previous, labels, map[], s))
  {
    UnshiftedIsSame(previous, labels);
    UnshiftedIsSame(current, labels);
    hide BorderOf, SwappedBorder, RowsInRange;
    BorderDual(previous, current, previous, current, labels);
    BorderDual(current, previous, previous, current, labels);
  }

  /** Swapping two bases swaps the borders if and only if neither side has a counted row its own shifts pin. */
  lemma BasesTradeExactly(previous: seq<Row>, current: seq<Row>, labels: seq<Text>, there: map<Text, Drift>,
                          back: map<Text, Drift>, s: CollapseState)
    requires RowsInRange(previous, |labels|) && RowsInRange(current, |labels|) && NoShift(previous) && NoShift(current)
    ensures BordersTrade(DiffBases(previous, current, labels, there, s), DiffBases(current, previous, labels, back, s))
        <==> Pinless(current, labels, there) && Pinless(previous, labels, back)
  {
    hide DiffBases, Pinless, TellsShift, SwappedBorder, RowsInRange;
    EmergingTells(previous, current, labels, there, s);
    EmergingTells(current, previous, labels, back, s);
    VanishingTellsNone(previous, current, labels, there, s);
    VanishingTellsNone(current, previous, labels, back, s);
    SwappedTells(DiffBases(previous, current, labels, there, s).emerging);
    SwappedTells(DiffBases(previous, current, labels, there, s).vanishing);
    if Pinless(current, labels, there) && Pinless(previous, labels, back) {
      PinlessLeavesEmerging(previous, current, labels, there, s);
      PinlessLeavesEmerging(current, previous, labels, back, s);
      ShiftLeavesVanishing(previous, current, labels, there, s);
      ShiftLeavesVanishing(current, previous, labels, back, s);
      UnshiftedTrade(previous, current, labels, s);
    }
  }

  // ---------------------------------------------------------------- the same for joints and blocks

  /** No counted row of the joint names a shifted component. */
  ghost predicate Quiet(rows: seq<BaseRow>, shifts: map<Text, Drift>) {
    forall r :: r in rows && r.count > 0 ==> !Drifts(r.component, shifts)
  }

  lemma QuietIsPinless(rows: seq<BaseRow>, labels: seq<Text>, shifts: map<Text, Drift>)
    requires Covers(labels, rows)
    ensures Pinless(IdRows(rows, labels), labels, shifts) <==> Quiet(rows, shifts)
  {
    ReadInterned(rows, labels);
    var base := IdRows(rows, labels);
    forall i | 0 <= i < |rows| ensures IsPinned(base[i].cell, labels, shifts) <==> Drifts(rows[i].component, shifts) {
      RowLabelled(rows, labels, i);
      assert base[i] in base && rows[i] in rows;
      if base[i].cell.component != STAR { assert labels[base[i].cell.component] in labels; }
    }
    hide IsPinned, Drifts;
    forall r | r in base && r.count > 0 && Quiet(rows, shifts) ensures !IsPinned(r.cell, labels, shifts) {
      var i :| 0 <= i < |base| && base[i] == r;
      assert rows[i] in rows;
    }
    forall r | r in rows && r.count > 0 && Pinless(base, labels, shifts) ensures !Drifts(r.component, shifts) {
      var i :| 0 <= i < |rows| && rows[i] == r;
      assert base[i] in base;
    }
  }

  lemma PooledDicts(x: seq<BaseRow>, y: seq<BaseRow>)
    ensures LabelsOf(x + y) == LabelsOf(y + x) && DictOf(x + y) == DictOf(y + x)
  {
    PooledLabels(x, y);
    PooledLabels(y, x);
    TextOrderIsTotal();
    AscendingUnique(TextOrder, DictOf(x + y), DictOf(y + x));
  }

  lemma JointsTradeExactly(x: seq<BaseRow>, y: seq<BaseRow>, there: map<Text, Drift>, back: map<Text, Drift>,
                           s: CollapseState)
    requires FitsIds(x + y)
    ensures FitsIds(y + x)
    ensures BordersTrade(DiffJoints(x, y, there, s), DiffJoints(y, x, back, s)) <==> Quiet(y, there) && Quiet(x, back)
  {
    PooledDicts(x, y);
    DictIsDict(x + y);
    PooledLabels(x, y);
    var labels := DictOf(x + y);
    assert Covers(labels, x) && Covers(labels, y);
    ReadInterned(x, labels);
    ReadInterned(y, labels);
    hide DiffBases, Quiet, BordersTrade, Covers, RowsInRange, NoShift;
    QuietIsPinless(x, labels, back);
    QuietIsPinless(y, labels, there);
    BasesTradeExactly(IdRows(x, labels), IdRows(y, labels), labels, there, back, s);
  }

  /** Shifts seen from the two sides: the same components, by as much. */
  ghost predicate Facing(there: map<Text, Drift>, back: map<Text, Drift>) {
    there.Keys == back.Keys && forall c :: c in there ==> back[c].size == there[c].size
  }

  /** At the common state, no counted row of the two cubes lies in a shifted component. */
  ghost predicate NoneShifted(previous: CubeBlock, current: CubeBlock, shifts: map<Text, Drift>)
    requires Composable(previous, current)
  {
    CommonState(previous, current).depth < FULL_WHERE_DEPTH
    || (Quiet(Contents(previous), shifts) && Quiet(Contents(current), shifts))
  }

  lemma QuietCollapsed(rows: seq<BaseRow>, s: CollapseState, shifts: map<Text, Drift>)
    ensures Quiet(CollapsedRows(rows, s), shifts) <==> s.depth < FULL_WHERE_DEPTH || Quiet(rows, shifts)
  {
    var collapsed := CollapsedRows(rows, s);
    forall r | r in collapsed && r.count > 0 && (s.depth < FULL_WHERE_DEPTH || Quiet(rows, shifts))
      ensures !Drifts(r.component, shifts)
    {
      var i :| 0 <= i < |rows| && collapsed[i] == r;
      assert rows[i] in rows;
    }
    if !(s.depth < FULL_WHERE_DEPTH) && Quiet(collapsed, shifts) {
      forall r | r in rows && r.count > 0 ensures !Drifts(r.component, shifts) {
        var i :| 0 <= i < |rows| && rows[i] == r;
        assert collapsed[i] in collapsed;
      }
    }
  }

  lemma FacingQuiet(rows: seq<BaseRow>, there: map<Text, Drift>, back: map<Text, Drift>)
    requires Facing(there, back)
    ensures Quiet(rows, there) <==> Quiet(rows, back)
  {
    forall c ensures Drifts(c, there) <==> Drifts(c, back) {
      assert c in there.Keys <==> c in back.Keys;
    }
    hide Drifts;
  }

  lemma ComposableCommutes(a: CubeBlock, b: CubeBlock)
    requires Composable(a, b)
    ensures Composable(b, a) && CommonState(b, a) == CommonState(a, b)
  {
    assert Elements(InternedBase(a).1) + Elements(InternedBase(b).1)
        == Elements(InternedBase(b).1) + Elements(InternedBase(a).1);
  }

  /** Swapping two cubes whose components shifted swaps the borders, each cell's two counts with them, if and only
      if no counted row lies in a shifted component at the common state. The axes stay. */
  lemma DiffDualExactly(previous: CubeBlock, current: CubeBlock, there: map<Text, Drift>, back: map<Text, Drift>)
    requires Composable(previous, current) && Facing(there, back)
    ensures Composable(current, previous)
    ensures DiffBlocks(current, previous, back).axes == DiffBlocks(previous, current, there).axes
    ensures BordersTrade(DiffBlocks(previous, current, there), DiffBlocks(current, previous, back))
        <==> NoneShifted(previous, current, there)
  {
    ComposableCommutes(previous, current);
    var s := CommonState(previous, current);
    var x, y := CollapsedRows(Contents(previous), s), CollapsedRows(Contents(current), s);
    DiffReadsJoints(previous, current, there);
    DiffReadsJoints(current, previous, back);
    assert there == map[] <==> back == map[] by {
      assert there == map[] <==> there.Keys == {};
      assert back == map[] <==> back.Keys == {};
    }
    hide DiffBlocks, Composable, Quiet, BordersTrade, Contents, Facing, BorderOf;
    QuietCollapsed(Contents(previous), s, there);
    QuietCollapsed(Contents(current), s, there);
    FacingQuiet(x, there, back);
    JointsTradeExactly(x, y, there, back, s);
  }

  /** Without shifts the borders always trade. */
  lemma DiffDual(previous: CubeBlock, current: CubeBlock)
    requires Composable(previous, current)
    ensures Composable(current, previous)
    ensures var there, back := DiffBlocks(previous, current, map[]), DiffBlocks(current, previous, map[]);
            && back.axes == there.axes
            && back.emerging == SwappedBorder(there.vanishing) && back.vanishing == SwappedBorder(there.emerging)
  {
    hide DiffBlocks, Composable, SwappedBorder, Contents;
    DiffDualExactly(previous, current, map[], map[]);
  }

  /** Such rows exist: one line of one shifted component on each side, and the borders do not trade. */
  lemma ShiftedBordersDoNotTrade(component: Text, level: Id, role: Id, s: CollapseState)
    requires component != []
    ensures var x := [BaseRow(level, component, role, 1)];
            && FitsIds(x + x)
            && !BordersTrade(DiffJoints(x, x, map[component := Drift(High, Up)], s),
                             DiffJoints(x, x, map[component := Drift(High, Down)], s))
  {
    var x := [BaseRow(level, component, role, 1)];
    var there, back := map[component := Drift(High, Up)], map[component := Drift(High, Down)];
    assert LabelsOf(x + x) == {component};
    assert x[0] in x && Drifts(x[0].component, there);
    assert !Quiet(x, there);
    hide DiffJoints;
    JointsTradeExactly(x, x, there, back, s);
  }
}
