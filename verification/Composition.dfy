/** Building a cube from labelled rows and composing two cubes: composition is the cube of the
    pooled joint, read no finer than the coarser of its members. */
module Composition {
  import opened Options
  import opened Orders
  import opened Bytes
  import opened Cells
  import opened Bases
  import opened Closure
  import opened ClosedCube
  import opened Collapse
  import GuardrailLimits
  import opened Blocks
  import opened Emission
  import opened BoundedCube
  import opened Interning
  import opened Renaming
  import opened Joints

  method BuildClosedCube(rows: seq<BaseRow>) returns (cube: CubeBlock)
    requires FitsIds(rows)
    ensures cube == BuildRows(rows, UNCOLLAPSED)
  {
    DictIsDict(rows);
    var labels := LabelsOfRows(rows);
    var events := InternRows(rows, labels);
    IdRowsInRange(rows, labels);
    var base := SortReduceBase(events);
    hide Reduced, BoundedBlock;
    ReducedEquivalent(events);
    EquivalentBlocks(Reduced(events), events, labels, UNCOLLAPSED);
    cube := BuildBoundedCube(base, labels, UNCOLLAPSED);
  }

  method InternRows(rows: seq<BaseRow>, labels: seq<Text>) returns (events: seq<Row>)
    requires IsDict(labels)
    ensures events == IdRows(rows, labels)
  {
    events := [];
    for k := 0 to |rows|
      invariant events == IdRows(rows[..k], labels)
    {
      var id := ComponentId(labels, rows[k].component);
      events := events + [Row(Cell(rows[k].level, id, rows[k].role, STAR), rows[k].count)];
    }
    assert rows[..|rows|] == rows;
  }

  method LabelsOfRows(rows: seq<BaseRow>) returns (labels: seq<Text>)
    ensures labels == DictOf(rows)
  {
    var components: seq<Text> := [];
    for k := 0 to |rows|
      invariant Elements(components) == LabelsOf(rows[..k])
    {
      assert rows[..k + 1] == rows[..k] + [rows[k]];
      LabelsSnoc(rows[..k], rows[k]);
      if rows[k].component != [] {
        assert Elements(components + [rows[k].component]) == Elements(components) + {rows[k].component};
        components := components + [rows[k].component];
      }
    }
    assert rows[..|rows|] == rows;
    TextOrderIsTotal();
    labels := SortedSet(TextOrder, components);
    SortedOfUnique(TextOrder, labels, LabelsOf(rows));
  }

  lemma LabelsSnoc(rows: seq<BaseRow>, r: BaseRow)
    ensures LabelsOf(rows + [r]) == if r.component != [] then LabelsOf(rows) + {r.component} else LabelsOf(rows)
  {
    assert forall x :: x in rows + [r] <==> x in rows || x == r;
    assert r.component != [] ==> r.component in LabelsOf(rows + [r]) by { assert r in rows + [r]; }
  }

  // ---------------------------------------------------------------- what a block holds

  lemma LeafDictIsDict(block: CubeBlock)
    requires BlockInRange(block)
    ensures IsDict(LeafDict(block))
  {
    forall t | t in LeafDict(block) ensures t != [] {
      assert t in Elements(LeafDict(block));
      var c :| c in block.cells && Leaf(c).Some? && Leaf(c).value == t;
    }
  }

  lemma InternedInRange(block: CubeBlock)
    requires BlockInRange(block)
    ensures var (base, labels) := InternedBase(block);
            IsDict(labels) && RowsInRange(base, |labels|) && NoShift(base)
  {
    if block.base != [] {
      var rows := RowsOfRetained(block.base);
      forall r | r in rows ensures InRange(r.cell, |block.dict|) && r.cell.shift == STAR {
        var i :| 0 <= i < |rows| && rows[i] == r;
        assert block.base[i] in block.base;
      }
      ReducedInRange(rows, |block.dict|);
      ReducedNoShift(rows);
    } else {
      LeafDictIsDict(block);
      var labels := LeafDict(block);
      var closed := InternalCells(block, labels);
      forall r | r in closed ensures InRange(r.cell, |labels|) && r.cell.shift == STAR {
        var i :| 0 <= i < |closed| && closed[i] == r;
      }
      RecoveredInRange(closed, |labels|);
    }
  }

  lemma ReducedNoShift(rows: seq<Row>)
    requires NoShift(rows)
    ensures NoShift(Reduced(rows))
  {
    ReducedIs(rows);
    hide Reduced;
    forall r | r in Reduced(rows) ensures r.cell.shift == STAR { assert r.cell in Support(rows); }
  }

  lemma {:induction false} ResidualCells(closed: seq<Row>, stars: seq<Cell>)
    ensures forall r :: r in Residuals(closed, stars) ==> r.cell in stars
  {
    if stars != [] { ResidualCells(closed, stars[..|stars| - 1]); }
  }

  lemma RecoveredInRange(closed: seq<Row>, n: nat)
    requires RowsInRange(closed, n) && NoShift(closed)
    ensures RowsInRange(Recovered(closed), n) && NoShift(Recovered(closed))
  {
    var stars := StarOrder(closed);
    var events := RecoveryEvents(closed);
    SelectTotal(closed, Pinned3, Pinned3);
    ResidualCells(closed, stars);
    forall r | r in events ensures InRange(r.cell, n) && r.cell.shift == STAR {
      if r in Residuals(closed, stars) { assert r.cell in StarWheres(closed); }
    }
    ReducedInRange(events, n);
    ReducedNoShift(events);
  }

  /** The joint a block stands for. */
  ghost function Contents(block: CubeBlock): seq<BaseRow>
    requires BlockInRange(block)
  {
    InternedInRange(block);
    var (base, labels) := InternedBase(block);
    Read(base, labels)
  }

  // ---------------------------------------------------------------- composing

  ghost predicate Composable(a: CubeBlock, b: CubeBlock) {
    BlockInRange(a) && BlockInRange(b) && |Elements(InternedBase(a).1) + Elements(InternedBase(b).1)| <= STAR
  }

  lemma MergedIsDict(a: seq<Text>, b: seq<Text>)
    requires IsDict(a) && IsDict(b) && |Elements(a) + Elements(b)| <= STAR
    ensures IsDict(Merged(a, b)) && Elements(a) <= Elements(Merged(a, b)) && Elements(b) <= Elements(Merged(a, b))
  {
    var m := Merged(a, b);
    TextOrderIsTotal();
    AscendingIsSorted(TextOrder, m);
    DistinctTexts(m);
    forall t | t in m ensures t != [] { assert t in Elements(m); }
  }

  lemma {:induction false} DistinctTexts(labels: seq<Text>)
    requires NoDuplicates(labels)
    ensures |Elements(labels)| == |labels|
  {
    if labels != [] {
      var front, last := labels[..|labels| - 1], labels[|labels| - 1];
      assert labels == front + [last] && last !in front;
      DistinctTexts(front);
      assert Elements(labels) == Elements(front) + {last};
    }
  }

  lemma RelabelledReads(base: seq<Row>, from: seq<Text>, to: seq<Text>)
    requires IsDict(from) && IsDict(to) && Elements(from) <= Elements(to) && RowsInRange(base, |from|) && NoShift(base)
    ensures var r := Relabelled(base, from, to);
            RowsInRange(r, |to|) && NoShift(r) && Read(r, to) == Read(base, from)
  {
    var r := Relabelled(base, from, to);
    forall i | 0 <= i < |r| ensures InRange(r[i].cell, |to|) && r[i].cell.shift == STAR {
      RelabelledRow(base, from, to, i);
    }
    assert RowsInRange(r, |to|);
    forall i | 0 <= i < |r| ensures Read(r, to)[i] == Read(base, from)[i] { RelabelledRow(base, from, to, i); }
  }

  lemma RelabelledRow(base: seq<Row>, from: seq<Text>, to: seq<Text>, i: nat)
    requires IsDict(from) && IsDict(to) && Elements(from) <= Elements(to) && RowsInRange(base, |from|) && NoShift(base)
    requires i < |base|
    ensures var c := Relabelled(base, from, to)[i].cell;
            base[i] in base && InRange(c, |to|) && c.shift == STAR && LabelAt(c, to) == LabelAt(base[i].cell, from)
  {
    assert base[i] in base;
    var w := base[i].cell.component;
    if w != STAR { assert from[w] in from && from[w] in Elements(to); }
  }

  /** What compose_cubes pools before it builds: both bases moved to the merged dictionary. */
  ghost function PooledEvents(a: CubeBlock, b: CubeBlock): (seq<Row>, seq<Text>)
    requires Composable(a, b)
  {
    InternedInRange(a);
    InternedInRange(b);
    var (baseA, dictA) := InternedBase(a);
    var (baseB, dictB) := InternedBase(b);
    MergedIsDict(dictA, dictB);
    var labels := Merged(dictA, dictB);
    (Reduced(Relabelled(baseA, dictA, labels)) + Reduced(Relabelled(baseB, dictB, labels)), labels)
  }

  /** The pooled base reads as both contents together. */
  lemma PooledReads(a: CubeBlock, b: CubeBlock)
    requires Composable(a, b)
    ensures var (events, labels) := PooledEvents(a, b);
            IsDict(labels) && RowsInRange(events, |labels|) && NoShift(events)
            && SameJoint(Read(events, labels), Contents(a) + Contents(b))
  {
    InternedInRange(a);
    InternedInRange(b);
    var (baseA, dictA) := InternedBase(a);
    var (baseB, dictB) := InternedBase(b);
    MergedIsDict(dictA, dictB);
    var labels := Merged(dictA, dictB);
    RelabelledReads(baseA, dictA, labels);
    RelabelledReads(baseB, dictB, labels);
    var ra, rb := Relabelled(baseA, dictA, labels), Relabelled(baseB, dictB, labels);
    hide *;
    ReducedReads(ra, labels);
    ReducedReads(rb, labels);
    ConcatInRange(Reduced(ra), Reduced(rb), |labels|);
    ReadConcat(Reduced(ra), Reduced(rb), labels);
    PooledJoint(Read(Reduced(ra), labels), Read(ra, labels), Read(Reduced(rb), labels), Read(rb, labels));
    PooledEventsIs(a, b, baseA, dictA, baseB, dictB);
    ContentsIs(a, baseA, dictA);
    ContentsIs(b, baseB, dictB);
  }

  lemma ContentsIs(block: CubeBlock, base: seq<Row>, labels: seq<Text>)
    requires BlockInRange(block) && (base, labels) == InternedBase(block)
    ensures RowsInRange(base, |labels|) && Contents(block) == Read(base, labels)
  {
    InternedInRange(block);
  }

  lemma PooledEventsIs(a: CubeBlock, b: CubeBlock, baseA: seq<Row>, dictA: seq<Text>, baseB: seq<Row>, dictB: seq<Text>)
    requires Composable(a, b) && (baseA, dictA) == InternedBase(a) && (baseB, dictB) == InternedBase(b)
    ensures |Merged(dictA, dictB)| <= STAR && RowsInRange(baseA, |dictA|) && RowsInRange(baseB, |dictB|)
    ensures PooledEvents(a, b) == (Reduced(Relabelled(baseA, dictA, Merged(dictA, dictB)))
                                   + Reduced(Relabelled(baseB, dictB, Merged(dictA, dictB))), Merged(dictA, dictB))
  {
    InternedInRange(a);
    InternedInRange(b);
    MergedIsDict(dictA, dictB);
  }

  lemma ConcatInRange(a: seq<Row>, b: seq<Row>, n: nat)
    requires RowsInRange(a, n) && RowsInRange(b, n) && NoShift(a) && NoShift(b)
    ensures RowsInRange(a + b, n) && NoShift(a + b)
  {}

  lemma ReducedReads(base: seq<Row>, labels: seq<Text>)
    requires IsDict(labels) && RowsInRange(base, |labels|) && NoShift(base)
    ensures RowsInRange(Reduced(base), |labels|) && NoShift(Reduced(base))
    ensures SameJoint(Read(Reduced(base), labels), Read(base, labels))
  {
    ReducedInRange(base, |labels|);
    ReducedNoShift(base);
    ReducedEquivalent(base);
    SameJointIff(Reduced(base), base, labels);
  }

  ghost function CommonState(a: CubeBlock, b: CubeBlock): CollapseState {
    MinCommon(StateOfAxes(a.axes), StateOfAxes(b.axes))
  }

  ghost function ComposeBlock(a: CubeBlock, b: CubeBlock): CubeBlock
    requires Composable(a, b)
  {
    PooledReads(a, b);
    var (events, labels) := PooledEvents(a, b);
    ReducedInRange(events, |labels|);
    BoundedBlock(Reduced(events), labels, CommonState(a, b))
  }

  method ComposeCubes(a: CubeBlock, b: CubeBlock) returns (cube: CubeBlock)
    requires Composable(a, b)
    ensures cube == ComposeBlock(a, b)
  {
    var stateA := CollapseStateOf(a.axes);
    var stateB := CollapseStateOf(b.axes);
    var common := MinCommon(stateA, stateB);
    InternedInRange(a);
    InternedInRange(b);
    var baseA, dictA := InternedBaseOf(a);
    var baseB, dictB := InternedBaseOf(b);
    MergedIsDict(dictA, dictB);
    var labels := MergeDicts(dictA, dictB);
    assert forall t :: t in dictA ==> t in Elements(dictA) && t in Elements(labels);
    assert forall t :: t in dictB ==> t in Elements(dictB) && t in Elements(labels);
    PooledReads(a, b);
    hide Reduced, InternedBase, Recovered, BoundedBlock;
    PooledEventsIs(a, b, baseA, dictA, baseB, dictB);
    var remappedA := RemapBase(baseA, dictA, labels);
    var remappedB := RemapBase(baseB, dictB, labels);
    var base := SortReduceBase(remappedA + remappedB);
    ReducedInRange(remappedA + remappedB, |labels|);
    cube := BuildBoundedCube(base, labels, common);
  }

  /** Composition is the cube of the two contents pooled, built from the common collapse state. */
  lemma ComposeIsPooledCube(a: CubeBlock, b: CubeBlock)
    requires Composable(a, b)
    ensures FitsIds(Contents(a) + Contents(b))
    ensures ComposeBlock(a, b) == BuildRows(Contents(a) + Contents(b), CommonState(a, b))
  {
    PooledReads(a, b);
    var (events, labels) := PooledEvents(a, b);
    hide *;
    var s := CommonState(a, b);
    ReducedReads(events, labels);
    SameJointTransitive(Read(Reduced(events), labels), Read(events, labels), Contents(a) + Contents(b));
    BlockOfReading(Reduced(events), labels, s);
    SameJointSameCube(Read(Reduced(events), labels), Contents(a) + Contents(b), s);
    ComposeBlockIs(a, b, events, labels);
  }

  lemma ComposeBlockIs(a: CubeBlock, b: CubeBlock, events: seq<Row>, labels: seq<Text>)
    requires Composable(a, b) && (events, labels) == PooledEvents(a, b)
    ensures IsDict(labels) && RowsInRange(Reduced(events), |labels|)
    ensures ComposeBlock(a, b) == BoundedBlock(Reduced(events), labels, CommonState(a, b))
  {
    PooledReads(a, b);
    ReducedInRange(events, |labels|);
  }

  /** Composition is commutative as a whole block. */
  lemma ComposeCommutes(a: CubeBlock, b: CubeBlock)
    requires Composable(a, b)
    ensures Composable(b, a) && ComposeBlock(a, b) == ComposeBlock(b, a)
  {
    assert Elements(InternedBase(a).1) + Elements(InternedBase(b).1) == Elements(InternedBase(b).1)
        + Elements(InternedBase(a).1);
    MinCommonIsJoin(StateOfAxes(a.axes), StateOfAxes(b.axes), UNCOLLAPSED);
    assert CommonState(a, b) == CommonState(b, a);
    hide SameJoint, InternedBase, ComposeBlock, BuildRows;
    ComposeIsPooledCube(a, b);
    ComposeIsPooledCube(b, a);
    PoolingCommutes(Contents(a), Contents(b));
    SameJointSameCube(Contents(a) + Contents(b), Contents(b) + Contents(a), CommonState(a, b));
  }
}
