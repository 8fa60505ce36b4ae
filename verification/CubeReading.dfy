/** What a document's cube says to a reader: the count beside a coordinate, the shift a border cell names, and the
    region a pair of borders bounds, each over the labelled rows the cube was made of. */
module CubeReading {
  import opened Options
  import opened Orders
  import opened Bytes
  import opened Cells
  import opened Bases
  import opened Closure
  import opened ClosedCube
  import opened Collapse
  import Guardrail
  import opened Blocks
  import opened Emission
  import opened BoundedCube
  import opened Interning
  import opened Joints
  import opened Composition
  import opened CubeAlgebra
  import opened CubeLines
  import opened Border
  import opened CubeDiff

  // ---------------------------------------------------------------- the shift a border cell names

  /** The size and direction a border's shift id stands for: 1, 2 and 3 are low, med and high upwards, three more
      is the same size downwards, and no other id is a shift. */
  function ReadShift(id: Id): Option<Drift> {
    var magnitude := if id > 3 then id - 3 else id;
    var direction := if id > 3 then Down else Up;
    if magnitude == 1 then Some(Drift(Low, direction))
    else if magnitude == 2 then Some(Drift(Med, direction))
    else if magnitude == 3 then Some(Drift(High, direction))
    else None
  }

  ghost predicate IsDirected(d: Drift) { d.size != Unshifted && d.direction != NoDirection }

  /** Every drift named has a direction unless it has no size, as a verdict on latencies does. */
  ghost predicate Directed(shifts: map<Text, Drift>) {
    forall t :: t in shifts && shifts[t].size != Unshifted ==> shifts[t].direction != NoDirection
  }

  /** A shift id read back is the drift it was made from, so no two drifts share one. */
  lemma ShiftReadsBack(d: Drift, e: Drift)
    requires IsDirected(d) && IsDirected(e)
    ensures ReadShift(SignedShiftId(d)) == Some(d)
    ensures SignedShiftId(d) == SignedShiftId(e) <==> d == e
    ensures SignedShiftId(d) != 0xFFFF_FFFF
  {}

  // ---------------------------------------------------------------- rows under a coordinate

  /** Whether a row falls under a coordinate: it has every value the coordinate names, and its component drifted as
      a named shift says. */
  predicate FallsUnder(q: CubeCoord, t: Tuple, shifts: map<Text, Drift>) {
    && (q.level == None || q.level == Some(t.level))
    && (q.path == None || (q.path == Some([t.component]) && t.component != []))
    && (q.role == None || q.role == Some(t.role))
    && (q.shift.Some? ==>
          t.component != [] && t.component in shifts && ReadShift(q.shift.value) == Some(shifts[t.component]))
  }

  /** The lines of the rows that fall under a coordinate. */
  function LinesUnder(rows: seq<BaseRow>, q: CubeCoord, shifts: map<Text, Drift>): nat {
    if rows == [] then 0
    else
      var last := rows[|rows| - 1];
      LinesUnder(rows[..|rows| - 1], q, shifts) + if FallsUnder(q, TupleOf(last), shifts) then last.count else 0
  }

  lemma RowFalls(x: Cell, labels: seq<Text>, shifts: map<Text, Drift>, c: Cell)
    requires IsDict(labels) && InRange(x, |labels|) && InRange(c, |labels|) && x.shift == STAR && Directed(shifts)
    ensures FallsUnder(CoordOf(c, labels), ReadCell(x, labels), shifts) <==> IsAncestor(c, PinCell(x, labels, shifts))
  {
    if c.component != STAR { assert labels[c.component] in labels; }
    if x.component != STAR { assert labels[x.component] in labels; }
    if c.component != STAR && x.component != STAR && labels[c.component] == labels[x.component] {
      DictIndex(labels, c.component, x.component);
    }
    if x.component != STAR && labels[x.component] in shifts && IsDirected(shifts[labels[x.component]]) {
      var d := shifts[labels[x.component]];
      ShiftReadsBack(d, d);
      if ReadShift(c.shift) == Some(d) { ReadShiftIsId(c.shift, d); }
    }
  }

  lemma ReadShiftIsId(id: Id, d: Drift)
    requires IsDirected(d) && ReadShift(id) == Some(d)
    ensures id == SignedShiftId(d)
  {}

  lemma LinesSnoc(rows: seq<BaseRow>, r: BaseRow, q: CubeCoord, shifts: map<Text, Drift>)
    ensures LinesUnder(rows + [r], q, shifts)
         == LinesUnder(rows, q, shifts) + if FallsUnder(q, TupleOf(r), shifts) then r.count else 0
  {
    assert (rows + [r])[..|rows|] == rows;
  }

  lemma ReadSnoc(front: seq<Row>, last: Row, labels: seq<Text>)
    requires RowsInRange(front + [last], |labels|)
    ensures RowsInRange(front, |labels|) && InRange(last.cell, |labels|)
    ensures Read(front + [last], labels) == Read(front, labels) + [ReadRow(last, labels)]
  {
    assert forall r :: r in front ==> r in front + [last];
    assert last in front + [last];
  }

  lemma ShiftedSnoc(front: seq<Row>, last: Row, labels: seq<Text>, shifts: map<Text, Drift>)
    ensures Shifted(front + [last], labels, shifts)
         == Shifted(front, labels, shifts) + [Row(PinCell(last.cell, labels, shifts), last.count)]
  {}

  /** A cell's count in a pinned base is the count of the rows that fall under its coordinate. */
  lemma {:induction false} CountReads(base: seq<Row>, labels: seq<Text>, shifts: map<Text, Drift>, c: Cell)
    requires IsDict(labels) && RowsInRange(base, |labels|) && NoShift(base) && InRange(c, |labels|) && Directed(shifts)
    ensures Count(Shifted(base, labels, shifts), c) == LinesUnder(Read(base, labels), CoordOf(c, labels), shifts)
  {
    if base != [] {
      var front, last := base[..|base| - 1], base[|base| - 1];
      assert base == front + [last];
      NoShiftSnoc(front, last);
      ReadSnoc(front, last, labels);
      ShiftedSnoc(front, last, labels, shifts);
      hide Shifted, Read, FallsUnder, CoordOf, PinCell, RowsInRange, NoShift, LinesUnder, Total, IsDict;
      CountReads(front, labels, shifts, c);
      RowFalls(last.cell, labels, shifts, c);
      LinesSnoc(Read(front, labels), ReadRow(last, labels), CoordOf(c, labels), shifts);
      TotalSnoc(Shifted(front, labels, shifts), Row(PinCell(last.cell, labels, shifts), last.count), Under(c));
    }
  }

  lemma NoShiftSnoc(front: seq<Row>, last: Row)
    requires NoShift(front + [last])
    ensures NoShift(front) && last.cell.shift == STAR
  {
    assert forall r :: r in front ==> r in front + [last];
    assert last in front + [last];
  }

  // ---------------------------------------------------------------- rows with one joint read alike

  function Selected(rows: seq<BaseRow>, q: CubeCoord, shifts: map<Text, Drift>): seq<BaseRow> {
    if rows == [] then []
    else
      var last := rows[|rows| - 1];
      Selected(rows[..|rows| - 1], q, shifts) + if FallsUnder(q, TupleOf(last), shifts) then [last] else []
  }

  lemma {:induction false} SelectedLines(rows: seq<BaseRow>, q: CubeCoord, shifts: map<Text, Drift>)
    ensures JointLines(Selected(rows, q, shifts)) == LinesUnder(rows, q, shifts)
  {
    if rows != [] {
      var front, last := rows[..|rows| - 1], rows[|rows| - 1];
      SelectedLines(front, q, shifts);
      SumSnoc(Selected(front, q, shifts), last, RowCount);
      assert RowCount(last) == last.count;
      assert Selected(front, q, shifts) + [] == Selected(front, q, shifts);
    }
  }

  lemma {:induction false} SelectedJoint(rows: seq<BaseRow>, q: CubeCoord, shifts: map<Text, Drift>, t: Tuple)
    ensures JointCount(Selected(rows, q, shifts), t) == if FallsUnder(q, t, shifts) then JointCount(rows, t) else 0
    ensures Names(Selected(rows, q, shifts), t) <==> FallsUnder(q, t, shifts) && Names(rows, t)
  {
    if rows != [] {
      var front, last := rows[..|rows| - 1], rows[|rows| - 1];
      SelectedJoint(front, q, shifts, t);
      SumSnoc(Selected(front, q, shifts), last, At(t));
      assert At(t)(last) == CountAt(t, last);
      assert Selected(front, q, shifts) + [] == Selected(front, q, shifts);
      hide FallsUnder;
      NamesSnoc(front, last, t);
      NamesSnoc(Selected(front, q, shifts), last, t);
      assert rows == front + [last];
    }
  }

  lemma NamesSnoc(rows: seq<BaseRow>, r: BaseRow, t: Tuple)
    ensures Names(rows + [r], t) <==> Names(rows, t) || TupleOf(r) == t
  {
    assert forall x :: x in rows + [r] <==> x in rows || x == r;
  }

  lemma SameJointSameReading(a: seq<BaseRow>, b: seq<BaseRow>, q: CubeCoord, shifts: map<Text, Drift>)
    requires SameJoint(a, b)
    ensures LinesUnder(a, q, shifts) == LinesUnder(b, q, shifts)
  {
    hide FallsUnder, Names, JointCount;
    forall t
      ensures JointCount(Selected(a, q, shifts), t) == JointCount(Selected(b, q, shifts), t)
      ensures Names(Selected(a, q, shifts), t) <==> Names(Selected(b, q, shifts), t)
    {
      SelectedJoint(a, q, shifts, t);
      SelectedJoint(b, q, shifts, t);
      assert JointCount(a, t) == JointCount(b, t) && (Names(a, t) <==> Names(b, t));
    }
    SameJointSameLines(Selected(a, q, shifts), Selected(b, q, shifts));
    SelectedLines(a, q, shifts);
    SelectedLines(b, q, shifts);
  }

  // ---------------------------------------------------------------- the emitted cells

  /** Coordinates in the order of generalization: every axis the first names has the second's value. */
  predicate Generalizes(g: CubeCoord, q: CubeCoord) {
    && (g.level == None || g.level == q.level)
    && (g.path == None || g.path == q.path)
    && (g.role == None || g.role == q.role)
    && (g.shift == None || g.shift == q.shift)
  }

  lemma CoordsOrdered(g: Cell, c: Cell, labels: seq<Text>)
    requires IsDict(labels) && InRange(g, |labels|) && InRange(c, |labels|)
    ensures Generalizes(CoordOf(g, labels), CoordOf(c, labels)) <==> IsAncestor(g, c)
  {
    if g.component != STAR && c.component != STAR && labels[g.component] == labels[c.component] {
      DictIndex(labels, g.component, c.component);
    }
  }

  /** The count of a base at a cell is the count of its labelled rows under the cell's coordinate. */
  lemma BaseReads(base: seq<Row>, labels: seq<Text>, rows: seq<BaseRow>, c: Cell)
    requires IsDict(labels) && RowsInRange(base, |labels|) && NoShift(base) && InRange(c, |labels|)
    requires SameJoint(Read(base, labels), rows)
    ensures Count(base, c) == LinesUnder(rows, CoordOf(c, labels), map[])
  {
    UnshiftedIsSame(base, labels);
    hide SameJoint, CoordOf, LinesUnder;
    CountReads(base, labels, map[], c);
    SameJointSameReading(Read(base, labels), rows, CoordOf(c, labels), map[]);
  }

  /** Beside every emitted coordinate stands the number of lines that fall under it once their rows are read at the
      state the cube's axes declare. */
  lemma EmittedCounts(rows: seq<BaseRow>, s: CollapseState, i: nat)
    requires FitsIds(rows) && i < |BuildRows(rows, s).cells|
    ensures var cube := BuildRows(rows, s);
            && cube.cells[i].coord.shift == None
            && cube.cells[i].count
                == LinesUnder(CollapsedRows(rows, StateOfAxes(cube.axes)), cube.cells[i].coord, map[])
  {
    BuiltParts(rows, s);
    var labels, b, cube := DictOf(rows), BuiltBase(rows, s), BuildRows(rows, s);
    hide BuildRows, BuiltBase, BuiltState, SameJoint, RetainedRows, Chosen;
    var closed := ClosedRows(b);
    assert closed[i] in closed;
    ClosedNoShift(b);
    BaseReads(b, labels, CollapsedRows(rows, BuiltState(rows, s)), closed[i].cell);
  }

  /** A built cube names its three axes, the WHERE depth it keeps and the level floor it bands to, where it bands. */
  lemma AxesRead(rows: seq<BaseRow>, s: CollapseState)
    requires FitsIds(rows)
    ensures var cube := BuildRows(rows, s);
            var state := StateOfAxes(cube.axes);
            && cube.axes == [CubeAxis("level", None, if state.floor > 0 then Some(state.floor) else None),
                             CubeAxis("where", Some(state.depth), None), CubeAxis("structural_role", None, None)]
            && cube.cellBudget == Some(4096) && cube.cellCount == |cube.cells|
  {
    BuiltParts(rows, s);
    BuildRowsIs(rows, s);
    var state := BuiltState(rows, s);
    assert BuildRows(rows, s) == BlockAt(IdRows(rows, DictOf(rows)), DictOf(rows), state);
    hide BuildRows, BuiltBase, BuiltState, SameJoint, RetainedRows, Chosen, BoundedBlock;
    StampedAxes(state);
    hide Stamp, StateOfAxes, Read, CollapsedRows, CoordRows, ClosedRows, CollapsedBase;
  }

  lemma StampedAxes(s: CollapseState)
    ensures Stamp(REFERENCE_AXES, s)
         == [CubeAxis("level", None, if s.floor > 0 then Some(s.floor) else None),
             CubeAxis("where", Some(s.depth), None), CubeAxis("structural_role", None, None)]
  {}

  /** A coordinate a reader may ask for: any values on any of the axes. */
  predicate IsQuery(q: CubeCoord) {
    && q.level != Some(STAR) && q.role != Some(STAR) && q.shift != Some(STAR)
    && (q.path.Some? ==> |q.path.value| == 1)
  }

  predicate Known(q: CubeCoord, labels: seq<Text>) {
    q.path.Some? && |q.path.value| == 1 ==> q.path.value[0] in labels
  }

  lemma QueryCell(q: CubeCoord, labels: seq<Text>)
    requires IsDict(labels) && IsQuery(q) && Known(q, labels)
    ensures InRange(CellOf(q, labels), |labels|)
    ensures CoordOf(CellOf(q, labels).(shift := Unpin(q.shift)), labels) == q
  {
    if q.path.Some? { assert q.path.value == [q.path.value[0]]; }
  }

  lemma {:induction false} UnknownQuery(base: seq<Row>, labels: seq<Text>, q: CubeCoord, shifts: map<Text, Drift>)
    requires RowsInRange(base, |labels|) && !Known(q, labels)
    ensures LinesUnder(Read(base, labels), q, shifts) == 0
  {
    if base != [] {
      var front, last := base[..|base| - 1], base[|base| - 1];
      assert base == front + [last];
      ReadSnoc(front, last, labels);
      UnknownQuery(front, labels, q, shifts);
      LinesSnoc(Read(front, labels), ReadRow(last, labels), q, shifts);
    }
  }

  /** The cube answers every question about its coarse rows, emitted or not: the lines under a coordinate are the
      greatest count among the emitted cells it generalizes, none when there is no such cell. */
  lemma QueryAnswered(rows: seq<BaseRow>, s: CollapseState, q: CubeCoord)
    requires FitsIds(rows) && IsQuery(q) && q.shift == None
    ensures var cube := BuildRows(rows, s);
            var lines := LinesUnder(CollapsedRows(rows, StateOfAxes(cube.axes)), q, map[]);
            && (forall cell :: cell in cube.cells && Generalizes(q, cell.coord) ==> cell.count <= lines)
            && (lines > 0 ==> exists cell :: cell in cube.cells && Generalizes(q, cell.coord) && cell.count == lines)
  {
    BuiltParts(rows, s);
    var labels, b, cube := DictOf(rows), BuiltBase(rows, s), BuildRows(rows, s);
    var coarse := CollapsedRows(rows, BuiltState(rows, s));
    hide BuildRows, BuiltBase, BuiltState, RetainedRows, Chosen, SameJoint;
    if Known(q, labels) {
      QueryCell(q, labels);
      assert CellOf(q, labels).(shift := Unpin(q.shift)) == CellOf(q, labels);
      BaseReads(b, labels, coarse, CellOf(q, labels));
      LosslessCounts(b, CellOf(q, labels));
      BestUnderIsMax(ClosedRows(b), CellOf(q, labels));
      EmittedUnder(ClosedRows(b), labels, CellOf(q, labels), Count(b, CellOf(q, labels)));
    } else {
      UnknownQuery(b, labels, q, map[]);
      SameJointSameReading(Read(b, labels), coarse, q, map[]);
      UnknownEmitted(ClosedRows(b), labels, q);
    }
  }

  lemma UnknownEmitted(closed: seq<Row>, labels: seq<Text>, q: CubeCoord)
    requires RowsInRange(closed, |labels|) && IsQuery(q) && !Known(q, labels)
    ensures forall cell :: cell in CoordRows(closed, labels) ==> !Generalizes(q, cell.coord)
  {
    forall cell | cell in CoordRows(closed, labels) ensures !Generalizes(q, cell.coord) {
      var i :| 0 <= i < |closed| && CoordRows(closed, labels)[i] == cell;
      assert closed[i] in closed;
    }
  }

  lemma EmittedUnder(closed: seq<Row>, labels: seq<Text>, c: Cell, lines: nat)
    requires IsDict(labels) && RowsInRange(closed, |labels|) && InRange(c, |labels|)
    requires forall r :: r in closed && IsAncestor(c, r.cell) ==> r.count <= lines
    requires lines == 0 || exists r :: r in closed && IsAncestor(c, r.cell) && r.count == lines
    ensures forall cell :: cell in CoordRows(closed, labels) && Generalizes(CoordOf(c, labels), cell.coord) ==>
                cell.count <= lines
    ensures lines > 0 ==>
              exists cell :: cell in CoordRows(closed, labels) && Generalizes(CoordOf(c, labels), cell.coord)
                          && cell.count == lines
  {
    var cells := CoordRows(closed, labels);
    hide CoordOf, Generalizes;
    forall cell | cell in cells && Generalizes(CoordOf(c, labels), cell.coord) ensures cell.count <= lines {
      var i :| 0 <= i < |closed| && cells[i] == cell;
      CoordsOrdered(c, closed[i].cell, labels);
    }
    if lines > 0 {
      var r :| r in closed && IsAncestor(c, r.cell) && r.count == lines;
      var i :| 0 <= i < |closed| && closed[i] == r;
      CoordsOrdered(c, r.cell, labels);
      assert cells[i] in cells;
    }
  }

  /** The number of the pinned axes, then the values in the order of the axes. */
  function OrderKey(c: Cell): seq<nat> {
    [(if c.level < 0xFFFF_FFFF then 1 else 0) + (if c.component < 0xFFFF_FFFF then 2 else 0)
     + (if c.role < 0xFFFF_FFFF then 4 else 0) + (if c.shift < 0xFFFF_FFFF then 8 else 0),
     c.level, c.component, c.role, c.shift]
  }

  lemma LexStep(a: seq<nat>, b: seq<nat>, n: nat)
    requires n < |a| && n < |b|
    ensures LexLess(a[n..], b[n..]) <==> a[n] < b[n] || (a[n] == b[n] && LexLess(a[n + 1..], b[n + 1..]))
  {
    assert a[n..][1..] == a[n + 1..] && b[n..][1..] == b[n + 1..];
  }

  lemma PrecedesInFigures(a: Cell, b: Cell)
    ensures Precedes(a, b) <==> LexLess(OrderKey(a), OrderKey(b))
  {
    var x, y := OrderKey(a), OrderKey(b);
    hide LexLess;
    LexStep(x, y, 0);
    LexStep(x, y, 1);
    LexStep(x, y, 2);
    LexStep(x, y, 3);
    LexStep(x, y, 4);
    LexIrreflexive([]);
    assert x[0..] == x && y[0..] == y && x[5..] == [] && y[5..] == [];
  }

  /** The closed cells, and a border's side alike, stand in ascending order of the axes they pin, level counting one,
      where two, role four and shift eight, and then of their values axis by axis. */
  lemma CellsInOrder(base: seq<Row>, side: set<Cell>, i: nat, j: nat)
    ensures i < j < |ClosedRows(base)| ==>
              LexLess(OrderKey(ClosedRows(base)[i].cell), OrderKey(ClosedRows(base)[j].cell))
    ensures i < j < |InOrder(side)| ==> LexLess(OrderKey(InOrder(side)[i]), OrderKey(InOrder(side)[j]))
  {
    hide OrderKey, LexLess;
    if i < j < |ClosedRows(base)| {
      var cells := CellsOf(ClosedRows(base));
      assert CanonicalOrder(cells[i], cells[j]);
      PrecedesInFigures(cells[i], cells[j]);
    }
    if i < j < |InOrder(side)| {
      assert CanonicalOrder(InOrder(side)[i], InOrder(side)[j]);
      PrecedesInFigures(InOrder(side)[i], InOrder(side)[j]);
    }
  }

  // ---------------------------------------------------------------- the borders of a comparison

  function CellsOfBorder(border: Option<CubeBorder>): seq<CubeBorderCell> {
    match border case None => [] case Some(b) => b.lower + b.upper
  }

  lemma SideCellReads(side: set<Cell>, p: seq<Row>, c: seq<Row>, labels: seq<Text>, b: CubeBorderCell)
    returns (cell: Cell)
    requires CellsInRange(InOrder(side), |labels|) && b in BorderCells(InOrder(side), p, c, labels)
    ensures InRange(cell, |labels|) && b == BorderCell(cell, p, c, labels) && cell in side
  {
    hide BorderCell;
    var cells := InOrder(side);
    var i :| 0 <= i < |cells| && BorderCells(cells, p, c, labels)[i] == b;
    cell := cells[i];
    assert cell in Elements(cells);
  }

  lemma BorderCellReads(anti: seq<Row>, mono: seq<Row>, p: seq<Row>, c: seq<Row>, labels: seq<Text>, b: CubeBorderCell)
    returns (cell: Cell)
    requires RowsInRange(mono, |labels|) && b in CellsOfBorder(NonEmpty(BorderOf(anti, mono, p, c, labels)))
    ensures InRange(cell, |labels|) && b == BorderCell(cell, p, c, labels) && Emergent(anti, mono, cell)
  {
    var e := EmergentCells(anti, mono);
    EmergentInRange(anti, mono, |labels|, LowerCells(e));
    EmergentInRange(anti, mono, |labels|, UpperCells(e));
    hide BorderCells, InOrder, RowsInRange, CellsInRange, BorderCell;
    if b in BorderOf(anti, mono, p, c, labels).lower {
      cell := SideCellReads(LowerCells(e), p, c, labels, b);
    } else {
      cell := SideCellReads(UpperCells(e), p, c, labels, b);
    }
  }

  /** Count of a side of the comparison at a cell, pinned or not. */
  lemma SideReads(base: seq<Row>, labels: seq<Text>, rows: seq<BaseRow>, shifts: map<Text, Drift>, cell: Cell)
    requires IsDict(labels) && RowsInRange(base, |labels|) && NoShift(base) && InRange(cell, |labels|)
    requires Directed(shifts) && SameJoint(Read(base, labels), rows)
    ensures Count(Shifted(base, labels, shifts), cell) == LinesUnder(rows, CoordOf(cell, labels), shifts)
    ensures cell.shift == STAR ==> Count(base, cell) == LinesUnder(rows, CoordOf(cell, labels), shifts)
    ensures cell.shift != STAR ==> Count(base, cell) == 0
  {
    hide SameJoint, CoordOf, LinesUnder, Shifted;
    CountReads(base, labels, shifts, cell);
    SameJointSameReading(Read(base, labels), rows, CoordOf(cell, labels), shifts);
    if cell.shift == STAR { ShiftedReadings(base, labels, shifts, cell); } else { PinnedUncounted(base, cell); }
  }

  lemma EmergingReads(p: seq<Row>, c: seq<Row>, labels: seq<Text>, was: seq<BaseRow>, now: seq<BaseRow>,
                      shifts: map<Text, Drift>, b: CubeBorderCell)
    requires IsDict(labels) && RowsInRange(p, |labels|) && RowsInRange(c, |labels|) && NoShift(p) && NoShift(c)
    requires Directed(shifts) && SameJoint(Read(p, labels), was) && SameJoint(Read(c, labels), now)
    requires RowsInRange(Shifted(c, labels, shifts), |labels|)
    requires var shifted := Shifted(c, labels, shifts);
             b in CellsOfBorder(NonEmpty(BorderOf(p, shifted, p, shifted, labels)))
    ensures IsQuery(b.coord) && b.previousCount == 0 && b.currentCount == LinesUnder(now, b.coord, shifts) >= 1
    ensures b.coord.shift == None ==> LinesUnder(was, b.coord, shifts) == 0
  {
    hide SameJoint, LinesUnder, Shifted, BorderOf, NonEmpty, NoShift, IsDict;
    var cell := BorderCellReads(p, Shifted(c, labels, shifts), p, Shifted(c, labels, shifts), labels, b);
    SideReads(p, labels, was, shifts, cell);
    SideReads(c, labels, now, shifts, cell);
  }

  lemma VanishingReads(p: seq<Row>, c: seq<Row>, labels: seq<Text>, was: seq<BaseRow>, now: seq<BaseRow>,
                       shifts: map<Text, Drift>, b: CubeBorderCell)
    requires IsDict(labels) && RowsInRange(p, |labels|) && RowsInRange(c, |labels|) && NoShift(p) && NoShift(c)
    requires Directed(shifts) && SameJoint(Read(p, labels), was) && SameJoint(Read(c, labels), now)
    requires var shifted := Shifted(c, labels, shifts);
             b in CellsOfBorder(NonEmpty(BorderOf(shifted, p, p, shifted, labels)))
    ensures IsQuery(b.coord) && b.previousCount == LinesUnder(was, b.coord, shifts) >= 1 && b.currentCount == 0
    ensures b.coord.shift == None && LinesUnder(now, b.coord, shifts) == 0
  {
    hide SameJoint, LinesUnder, Shifted, BorderOf, NonEmpty, NoShift, IsDict;
    var cell := BorderCellReads(Shifted(c, labels, shifts), p, p, Shifted(c, labels, shifts), labels, b);
    SideReads(p, labels, was, shifts, cell);
    SideReads(c, labels, now, shifts, cell);
  }

  /** What a comparison's borders count: an emerging cell had no line before and has its lines now, a vanishing one had
      its lines before and has none now; where an emerging cell names a shift, its lines now are exactly those of the
      components that drifted by that size in that direction. */
  lemma BorderCounts(previous: CubeBlock, current: CubeBlock, shifts: map<Text, Drift>, b: CubeBorderCell)
    requires Composable(previous, current) && Directed(shifts)
    ensures var diff, s := DiffBlocks(previous, current, shifts), CommonState(previous, current);
            var was, now := CollapsedRows(Contents(previous), s), CollapsedRows(Contents(current), s);
            && (b in CellsOfBorder(diff.emerging) || b in CellsOfBorder(diff.vanishing) ==> IsQuery(b.coord))
            && (b in CellsOfBorder(diff.emerging) ==>
                  b.previousCount == 0 && b.currentCount == LinesUnder(now, b.coord, shifts) >= 1)
            && (b in CellsOfBorder(diff.vanishing) ==>
                  && b.previousCount == LinesUnder(was, b.coord, shifts) >= 1 && b.currentCount == 0
                  && b.coord.shift == None)
            && (b in CellsOfBorder(diff.emerging) && b.coord.shift == None ==> LinesUnder(was, b.coord, shifts) == 0)
            && (b in CellsOfBorder(diff.vanishing) ==> LinesUnder(now, b.coord, shifts) == 0)
  {
    InternedInRange(previous);
    InternedInRange(current);
    var (prevBase, prevDict) := InternedBase(previous);
    var (curBase, curDict) := InternedBase(current);
    MergedIsDict(prevDict, curDict);
    var labels, s := Merged(prevDict, curDict), CommonState(previous, current);
    hide InternedBase, Projected, SameJoint, BorderOf, LinesUnder, CommonState, NonEmpty, Shifted;
    ProjectedReads(prevBase, prevDict, labels, s);
    ProjectedReads(curBase, curDict, labels, s);
    ContentsIs(previous, prevBase, prevDict);
    ContentsIs(current, curBase, curDict);
    var p, c := Projected(prevBase, prevDict, labels, s), Projected(curBase, curDict, labels, s);
    var was, now := CollapsedRows(Contents(previous), s), CollapsedRows(Contents(current), s);
    ShiftedInRange(c, labels, shifts);
    var diff := DiffBlocks(previous, current, shifts);
    hide Contents, CollapsedRows;
    if b in CellsOfBorder(diff.emerging) { EmergingReads(p, c, labels, was, now, shifts, b); }
    if b in CellsOfBorder(diff.vanishing) { VanishingReads(p, c, labels, was, now, shifts, b); }
  }

  // ---------------------------------------------------------------- the region two borders bound

  ghost predicate SomeAbove(cells: seq<CubeBorderCell>, q: CubeCoord) {
    exists u :: u in cells && Generalizes(u.coord, q)
  }

  ghost predicate SomeBelow(cells: seq<CubeBorderCell>, q: CubeCoord) {
    exists l :: l in cells && Generalizes(q, l.coord)
  }

  /** A coordinate lies within a border: below one of its upper cells and above one of its lower ones. */
  ghost predicate Within(q: CubeCoord, border: Option<CubeBorder>) {
    border.Some? && SomeAbove(border.value.upper, q) && SomeBelow(border.value.lower, q)
  }

  lemma SideMember(side: set<Cell>, cell: Cell, p: seq<Row>, c: seq<Row>, labels: seq<Text>)
    requires CellsInRange(InOrder(side), |labels|) && cell in side
    ensures InRange(cell, |labels|) && BorderCell(cell, p, c, labels) in BorderCells(InOrder(side), p, c, labels)
  {
    hide BorderCell;
    assert cell in Elements(InOrder(side));
    var i :| 0 <= i < |InOrder(side)| && InOrder(side)[i] == cell;
    assert BorderCells(InOrder(side), p, c, labels)[i] == BorderCell(cell, p, c, labels);
  }

  lemma SideAbove(side: set<Cell>, cell: Cell, p: seq<Row>, c: seq<Row>, labels: seq<Text>)
    requires IsDict(labels) && CellsInRange(InOrder(side), |labels|) && InRange(cell, |labels|)
    ensures SomeAbove(BorderCells(InOrder(side), p, c, labels), CoordOf(cell, labels))
       <==> exists u :: u in side && IsAncestor(u, cell)
  {
    var cells := BorderCells(InOrder(side), p, c, labels);
    hide BorderCells, InOrder, CoordOf, Generalizes, IsDict, CellsInRange, IsAncestor;
    if x :| x in cells && Generalizes(x.coord, CoordOf(cell, labels)) {
      var u := SideCellReads(side, p, c, labels, x);
      CoordsOrdered(u, cell, labels);
    }
    if u :| u in side && IsAncestor(u, cell) {
      SideMember(side, u, p, c, labels);
      CoordsOrdered(u, cell, labels);
      assert BorderCell(u, p, c, labels) in cells;
    }
  }

  lemma SideBelow(side: set<Cell>, cell: Cell, p: seq<Row>, c: seq<Row>, labels: seq<Text>)
    requires IsDict(labels) && CellsInRange(InOrder(side), |labels|) && InRange(cell, |labels|)
    ensures SomeBelow(BorderCells(InOrder(side), p, c, labels), CoordOf(cell, labels))
       <==> exists l :: l in side && IsAncestor(cell, l)
  {
    var cells := BorderCells(InOrder(side), p, c, labels);
    hide BorderCells, InOrder, CoordOf, Generalizes, IsDict, CellsInRange, IsAncestor;
    if x :| x in cells && Generalizes(CoordOf(cell, labels), x.coord) {
      var l := SideCellReads(side, p, c, labels, x);
      CoordsOrdered(cell, l, labels);
    }
    if l :| l in side && IsAncestor(cell, l) {
      SideMember(side, l, p, c, labels);
      CoordsOrdered(cell, l, labels);
      assert BorderCell(l, p, c, labels) in cells;
    }
  }

  lemma EmergentWithin(anti: seq<Row>, mono: seq<Row>, p: seq<Row>, c: seq<Row>, labels: seq<Text>, cell: Cell)
    requires IsDict(labels) && RowsInRange(mono, |labels|) && InRange(cell, |labels|)
    ensures Emergent(anti, mono, cell)
       <==> Within(CoordOf(cell, labels), NonEmpty(BorderOf(anti, mono, p, c, labels)))
  {
    var e := EmergentCells(anti, mono);
    EmergentInRange(anti, mono, |labels|, LowerCells(e));
    EmergentInRange(anti, mono, |labels|, UpperCells(e));
    BorderDeterminesRegion(anti, mono, cell);
    hide BorderCells, InOrder, RowsInRange, CellsInRange, CoordOf, Emergent, IsDict, UpperCells, LowerCells,
         EmergentCells, IsAncestor;
    SideAbove(UpperCells(e), cell, p, c, labels);
    SideBelow(LowerCells(e), cell, p, c, labels);
  }

  lemma UnknownCoord(q: CubeCoord, cell: Cell, labels: seq<Text>)
    requires InRange(cell, |labels|) && IsQuery(q) && !Known(q, labels)
    ensures !Generalizes(q, CoordOf(cell, labels))
  {}

  lemma LowerListed(border: CubeBorder, y: CubeBorderCell)
    requires y in border.lower
    ensures y in CellsOfBorder(NonEmpty(border))
  {}

  lemma UnknownOutside(anti: seq<Row>, mono: seq<Row>, p: seq<Row>, c: seq<Row>, labels: seq<Text>, q: CubeCoord)
    requires RowsInRange(mono, |labels|) && IsQuery(q) && !Known(q, labels)
    ensures !Within(q, NonEmpty(BorderOf(anti, mono, p, c, labels)))
  {
    var border := BorderOf(anti, mono, p, c, labels);
    hide *;
    if Within(q, NonEmpty(border)) {
      var y := WithinLower(q, border);
      LowerListed(border, y);
      var l := BorderCellReads(anti, mono, p, c, labels, y);
      UnknownCoord(q, l, labels);
      BorderCellCoord(l, p, c, labels);
    }
  }

  lemma BorderCellCoord(cell: Cell, p: seq<Row>, c: seq<Row>, labels: seq<Text>)
    requires InRange(cell, |labels|)
    ensures BorderCell(cell, p, c, labels).coord == CoordOf(cell, labels)
  {}

  lemma WithinLower(q: CubeCoord, border: CubeBorder) returns (y: CubeBorderCell)
    requires Within(q, NonEmpty(border))
    ensures y in border.lower && Generalizes(q, y.coord)
  {
    y :| y in border.lower && Generalizes(q, y.coord);
  }

  /** The lines a coordinate had before; nothing before is under a shift. */
  function LinesBefore(rows: seq<BaseRow>, q: CubeCoord): nat {
    if q.shift == None then LinesUnder(rows, q, map[]) else 0
  }

  lemma LinesUnshifted(rows: seq<BaseRow>, q: CubeCoord, shifts: map<Text, Drift>)
    requires q.shift == None
    ensures LinesUnder(rows, q, shifts) == LinesUnder(rows, q, map[])
  {
    if rows != [] { LinesUnshifted(rows[..|rows| - 1], q, shifts); }
  }

  lemma RegionReads(p: seq<Row>, c: seq<Row>, labels: seq<Text>, was: seq<BaseRow>, now: seq<BaseRow>,
                    shifts: map<Text, Drift>, q: CubeCoord)
    requires IsDict(labels) && RowsInRange(p, |labels|) && RowsInRange(c, |labels|) && NoShift(p) && NoShift(c)
    requires Directed(shifts) && SameJoint(Read(p, labels), was) && SameJoint(Read(c, labels), now) && IsQuery(q)
    requires RowsInRange(Shifted(c, labels, shifts), |labels|)
    ensures var shifted := Shifted(c, labels, shifts);
            && (Within(q, NonEmpty(BorderOf(p, shifted, p, shifted, labels))) <==>
                  LinesBefore(was, q) == 0 && LinesUnder(now, q, shifts) >= 1)
            && (Within(q, NonEmpty(BorderOf(shifted, p, p, shifted, labels))) <==>
                  LinesBefore(was, q) >= 1 && LinesUnder(now, q, shifts) == 0)
  {
    var shifted := Shifted(c, labels, shifts);
    assert |labels| <= STAR;
    hide SameJoint, LinesUnder, Shifted, BorderOf, NonEmpty, NoShift, IsDict, Within, CoordOf, CellOf;
    if q.shift == None { LinesUnshifted(was, q, shifts); }
    if Known(q, labels) {
      QueryCell(q, labels);
      var cell := CellOf(q, labels).(shift := Unpin(q.shift));
      SideReads(p, labels, was, shifts, cell);
      SideReads(c, labels, now, shifts, cell);
      EmergentWithin(p, shifted, p, shifted, labels, cell);
      EmergentWithin(shifted, p, p, shifted, labels, cell);
    } else {
      UnknownQuery(p, labels, q, shifts);
      UnknownQuery(c, labels, q, shifts);
      SameJointSameReading(Read(p, labels), was, q, shifts);
      SameJointSameReading(Read(c, labels), now, q, shifts);
      UnknownOutside(p, shifted, p, shifted, labels, q);
      UnknownOutside(shifted, p, p, shifted, labels, q);
    }
  }

  /** The two borders tell for every coordinate whether it emerged or vanished: it had no line before and has some
      now if and only if it lies within the emerging border, and the other way round for the vanishing one. */
  lemma BordersTell(previous: CubeBlock, current: CubeBlock, shifts: map<Text, Drift>, q: CubeCoord)
    requires Composable(previous, current) && Directed(shifts) && IsQuery(q)
    ensures var diff, s := DiffBlocks(previous, current, shifts), CommonState(previous, current);
            var was := LinesBefore(CollapsedRows(Contents(previous), s), q);
            var now := LinesUnder(CollapsedRows(Contents(current), s), q, shifts);
            && (Within(q, diff.emerging) <==> was == 0 && now >= 1)
            && (Within(q, diff.vanishing) <==> was >= 1 && now == 0)
  {
    InternedInRange(previous);
    InternedInRange(current);
    var (prevBase, prevDict) := InternedBase(previous);
    var (curBase, curDict) := InternedBase(current);
    MergedIsDict(prevDict, curDict);
    var labels, s := Merged(prevDict, curDict), CommonState(previous, current);
    hide InternedBase, Projected, SameJoint, BorderOf, LinesUnder, CommonState, NonEmpty, Shifted, Within;
    ProjectedReads(prevBase, prevDict, labels, s);
    ProjectedReads(curBase, curDict, labels, s);
    ContentsIs(previous, prevBase, prevDict);
    ContentsIs(current, curBase, curDict);
    var p, c := Projected(prevBase, prevDict, labels, s), Projected(curBase, curDict, labels, s);
    ShiftedInRange(c, labels, shifts);
    hide Contents, CollapsedRows;
    RegionReads(p, c, labels, CollapsedRows(Contents(previous), s), CollapsedRows(Contents(current), s), shifts, q);
  }

  lemma WithinIsFound(q: CubeCoord, border: Option<CubeBorder>)
    requires Within(q, border)
    ensures CellsOfBorder(border) != []
  {}

  /** A coordinate on the same side of zero before and now. */
  ghost predicate Steady(previous: CubeBlock, current: CubeBlock, shifts: map<Text, Drift>, q: CubeCoord)
    requires Composable(previous, current)
  {
    var s := CommonState(previous, current);
    LinesBefore(CollapsedRows(Contents(previous), s), q) == 0
    <==> LinesUnder(CollapsedRows(Contents(current), s), q, shifts) == 0
  }

  lemma FoundTells(previous: CubeBlock, current: CubeBlock, shifts: map<Text, Drift>, b: CubeBorderCell)
    requires Composable(previous, current) && Directed(shifts)
    requires var diff := DiffBlocks(previous, current, shifts);
             b in CellsOfBorder(diff.emerging) || b in CellsOfBorder(diff.vanishing)
    ensures IsQuery(b.coord) && !Steady(previous, current, shifts, b.coord)
  {
    hide DiffBlocks, CommonState, Contents, CollapsedRows, LinesUnder, IsQuery, CellsOfBorder, Composable;
    ComposableInRange(previous, current);
    BorderCounts(previous, current, shifts, b);
    if b.coord.shift == None {
      LinesUnshifted(CollapsedRows(Contents(previous), CommonState(previous, current)), b.coord, shifts);
    }
  }

  lemma SteadyIsOutside(previous: CubeBlock, current: CubeBlock, shifts: map<Text, Drift>, q: CubeCoord)
    requires Composable(previous, current) && Directed(shifts) && IsQuery(q)
    ensures var diff := DiffBlocks(previous, current, shifts);
            Steady(previous, current, shifts, q) <==> !Within(q, diff.emerging) && !Within(q, diff.vanishing)
  {
    hide DiffBlocks, CommonState, Contents, CollapsedRows, LinesUnder, IsQuery, Composable, Within, LinesBefore;
    BordersTell(previous, current, shifts, q);
  }

  lemma QuietTells(previous: CubeBlock, current: CubeBlock, shifts: map<Text, Drift>, q: CubeCoord)
    requires Composable(previous, current) && Directed(shifts) && IsQuery(q)
    requires var diff := DiffBlocks(previous, current, shifts);
             CellsOfBorder(diff.emerging) == [] && CellsOfBorder(diff.vanishing) == []
    ensures Steady(previous, current, shifts, q)
  {
    var diff := DiffBlocks(previous, current, shifts);
    hide *;
    SteadyIsOutside(previous, current, shifts, q);
    if Within(q, diff.emerging) { WithinIsFound(q, diff.emerging); }
    if Within(q, diff.vanishing) { WithinIsFound(q, diff.vanishing); }
  }

  /** A comparison's borders are empty exactly when every coordinate has lines now if it had lines before, and only
      then. */
  lemma BordersQuiet(previous: CubeBlock, current: CubeBlock, shifts: map<Text, Drift>)
    requires Composable(previous, current) && Directed(shifts)
    ensures var diff := DiffBlocks(previous, current, shifts);
            CellsOfBorder(diff.emerging) == [] && CellsOfBorder(diff.vanishing) == []
            <==> forall q :: IsQuery(q) ==> Steady(previous, current, shifts, q)
  {
    var diff := DiffBlocks(previous, current, shifts);
    hide DiffBlocks, IsQuery, CellsOfBorder, Composable, Steady, Directed;
    if CellsOfBorder(diff.emerging) != [] {
      FoundTells(previous, current, shifts, CellsOfBorder(diff.emerging)[0]);
    } else if CellsOfBorder(diff.vanishing) != [] {
      FoundTells(previous, current, shifts, CellsOfBorder(diff.vanishing)[0]);
    } else {
      forall q | IsQuery(q) ensures Steady(previous, current, shifts, q) {
        QuietTells(previous, current, shifts, q);
      }
    }
  }
}
