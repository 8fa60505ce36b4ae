/** What a cube counts at its all-star cell, and that neither building nor composing cubes changes it. */
module CubeLines {
  import opened Orders
  import opened Sums
  import opened Cells
  import opened Bases
  import opened Bytes
  import opened Collapse
  import opened Guardrail
  import opened Blocks
  import opened Interning
  import opened Joints
  import opened Composition
  import opened CubeAlgebra

  const RowCount: BaseRow -> nat := (r: BaseRow) => r.count

  function JointLines(rows: seq<BaseRow>): nat { Sum(rows, RowCount) }

  /** The count of the all-star cell. */
  ghost function ApexCount(block: CubeBlock): nat
    requires BlockInRange(block)
  {
    Count(InternedBase(block).0, TOP)
  }

  lemma {:induction false} ReadLines(base: seq<Row>, labels: seq<Text>)
    requires IsDict(labels) && RowsInRange(base, |labels|) && NoShift(base)
    ensures JointLines(Read(base, labels)) == Count(base, TOP)
    decreases |base|
  {
    if base != [] {
      var front, last := base[..|base| - 1], base[|base| - 1];
      assert forall r :: r in base <==> r in front || r == last;
      ReadLines(front, labels);
      assert Read(base, labels) == Read(front, labels) + [ReadRow(last, labels)];
      SumSnoc(Read(front, labels), ReadRow(last, labels), RowCount);
    }
  }

  lemma ApexIsLines(block: CubeBlock)
    requires BlockInRange(block)
    ensures ApexCount(block) == JointLines(Contents(block))
  {
    hide InternedBase, Read, Count;
    InternedInRange(block);
    ReadLines(InternedBase(block).0, InternedBase(block).1);
  }

  // ---------------------------------------------------------------- joints

  ghost function TuplesOf(rows: seq<BaseRow>): set<Tuple> { set r | r in rows :: TupleOf(r) }

  function Counting(rows: seq<BaseRow>): Tuple -> nat { (t: Tuple) => JointCount(rows, t) }

  function AtOne(r: BaseRow): Tuple -> nat { (t: Tuple) => CountAt(t, r) }

  lemma OneTuple(tuples: set<Tuple>, r: BaseRow)
    requires TupleOf(r) in tuples
    ensures SetSum(tuples, AtOne(r)) == r.count
  {
    SetSumRemove(tuples, TupleOf(r), AtOne(r));
    SetSumZero(tuples - {TupleOf(r)}, AtOne(r));
  }

  lemma {:induction false} LinesByTuple(rows: seq<BaseRow>, tuples: set<Tuple>)
    requires TuplesOf(rows) <= tuples
    ensures JointLines(rows) == SetSum(tuples, Counting(rows))
  {
    if rows == [] {
      SetSumZero(tuples, Counting(rows));
    } else {
      var front, last := rows[..|rows| - 1], rows[|rows| - 1];
      assert rows == front + [last];
      assert forall r :: r in front ==> r in rows;
      assert last in rows && TupleOf(last) in TuplesOf(rows);
      LinesByTuple(front, tuples);
      OneTuple(tuples, last);
      forall t ensures Counting(rows)(t) == Counting(front)(t) + AtOne(last)(t) { SumSnoc(front, last, At(t)); }
      SetSumPlus(tuples, Counting(front), AtOne(last), Counting(rows));
    }
  }

  lemma SameJointSameLines(a: seq<BaseRow>, b: seq<BaseRow>)
    requires SameJoint(a, b)
    ensures JointLines(a) == JointLines(b)
  {
    var tuples := TuplesOf(a) + TuplesOf(b);
    LinesByTuple(a, tuples);
    LinesByTuple(b, tuples);
    forall t ensures Counting(a)(t) == Counting(b)(t) { assert JointCount(a, t) == JointCount(b, t); }
    SetSumSame(tuples, Counting(a), Counting(b));
  }

  lemma {:induction false} CollapsedLines(rows: seq<BaseRow>, s: CollapseState)
    ensures JointLines(CollapsedRows(rows, s)) == JointLines(rows)
  {
    if rows != [] {
      var front, last := rows[..|rows| - 1], rows[|rows| - 1];
      CollapsedLines(front, s);
      assert CollapsedRows(rows, s) == CollapsedRows(front, s) + [CollapseRow(last, s)];
      SumSnoc(CollapsedRows(front, s), CollapseRow(last, s), RowCount);
    }
  }

  // ---------------------------------------------------------------- cubes

  /** However far a cube collapses to fit its budget, its all-star cell counts every line. */
  lemma BuiltCountsLines(rows: seq<BaseRow>, s: CollapseState)
    requires FitsIds(rows)
    ensures BlockInRange(BuildRows(rows, s)) && ApexCount(BuildRows(rows, s)) == JointLines(rows)
  {
    hide *;
    ContentsOfBuilt(rows, s);
    var cube := BuildRows(rows, s);
    ApexIsLines(cube);
    SameJointSameLines(Contents(cube), CollapsedRows(rows, StateOfAxes(cube.axes)));
    CollapsedLines(rows, StateOfAxes(cube.axes));
  }

  /** Composed cubes count the lines of both. */
  lemma ComposedCountsLines(a: CubeBlock, b: CubeBlock)
    requires Composable(a, b)
    ensures BlockInRange(a) && BlockInRange(b) && BlockInRange(ComposeBlock(a, b))
    ensures ApexCount(ComposeBlock(a, b)) == ApexCount(a) + ApexCount(b)
  {
    ComposableInRange(a, b);
    hide *;
    ComposedContents(a, b);
    var cube := ComposeBlock(a, b);
    var s := StateOfAxes(cube.axes);
    ApexIsLines(a);
    ApexIsLines(b);
    ApexIsLines(cube);
    SameJointSameLines(Contents(cube), CollapsedRows(Contents(a) + Contents(b), s));
    CollapsedLines(Contents(a) + Contents(b), s);
    LinesConcat(Contents(a), Contents(b));
  }

  lemma ComposableInRange(a: CubeBlock, b: CubeBlock)
    requires Composable(a, b)
    ensures BlockInRange(a) && BlockInRange(b)
  {
    hide BlockInRange, InternedBase;
  }

  lemma LinesConcat(a: seq<BaseRow>, b: seq<BaseRow>)
    ensures JointLines(a + b) == JointLines(a) + JointLines(b)
  {
    SumConcat(a, b, RowCount);
  }
}
