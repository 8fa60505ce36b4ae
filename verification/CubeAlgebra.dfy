/** Cubes as an algebra: a built cube holds its joint read at its collapse state, with or without
    its retained base, and within the budget composing cubes is pooling joints. */
module CubeAlgebra {
  import opened Options
  import opened Orders
  import opened Bytes
  import opened Cells
  import opened Bases
  import opened Closure
  import opened Population
  import opened ClosedCube
  import opened Collapse
  import opened Guardrail
  import GuardrailLimits
  import opened Blocks
  import opened Emission
  import opened BoundedCube
  import opened Interning
  import opened Renaming
  import opened Joints
  import opened Composition

  // ---------------------------------------------------------------- retention

  lemma {:induction false} ChosenFrom(labels: seq<Text>, flags: seq<bool>, n: nat)
    requires IsDict(labels) && n <= |flags| && n <= |labels|
    ensures Ascending(TextOrder, Chosen(labels, flags, n))
    ensures forall t :: t in Chosen(labels, flags, n) ==> exists i :: 0 <= i < n && flags[i] && labels[i] == t
  {
    if n > 0 {
      ChosenFrom(labels, flags, n - 1);
      var front := Chosen(labels, flags, n - 1);
      forall j | 0 <= j < |front| ensures TextOrder(front[j], labels[n - 1]) {
        assert front[j] in front;
        var i :| 0 <= i < n - 1 && labels[i] == front[j];
        assert TextOrder(labels[i], labels[n - 1]);
      }
    }
  }

  lemma {:induction false} ChosenAt(labels: seq<Text>, flags: seq<bool>, n: nat, i: nat)
    requires n <= |flags| && n <= |labels| && i < n && flags[i]
    ensures Rank(flags, i) < Rank(flags, n) && Chosen(labels, flags, n)[Rank(flags, i)] == labels[i]
  {
    if i < n - 1 { ChosenAt(labels, flags, n - 1, i); }
  }

  lemma ChosenIsDict(base: seq<Row>, labels: seq<Text>)
    requires IsDict(labels)
    ensures var dict := Chosen(labels, Flags(base, |labels|), |labels|);
            IsDict(dict) && Elements(dict) <= Elements(labels)
  {
    var flags := Flags(base, |labels|);
    var dict := Chosen(labels, flags, |labels|);
    ChosenFrom(labels, flags, |labels|);
    forall t | t in dict ensures t in Elements(labels) && t != [] {
      var i :| 0 <= i < |labels| && flags[i] && labels[i] == t;
      assert labels[i] in labels;
    }
  }

  /** A retained base, read through the dictionary retained with it, is the base it came from. */
  lemma RetainedReads(base: seq<Row>, labels: seq<Text>)
    requires IsDict(labels) && RowsInRange(base, |labels|) && NoShift(base)
    ensures var flags := Flags(base, |labels|);
            var rows, dict := RowsOfRetained(RetainedRows(base, flags)), Chosen(labels, flags, |labels|);
            RowsInRange(rows, |dict|) && NoShift(rows) && Read(rows, dict) == Read(base, labels)
  {
    var flags := Flags(base, |labels|);
    var rows, dict := RowsOfRetained(RetainedRows(base, flags)), Chosen(labels, flags, |labels|);
    forall i | 0 <= i < |rows|
      ensures InRange(rows[i].cell, |dict|) && LabelAt(rows[i].cell, dict) == LabelAt(base[i].cell, labels)
    {
      assert base[i] in base;
      var w := base[i].cell.component;
      if w != STAR {
        assert flags[w];
        ChosenIsDict(base, labels);
        ChosenAt(labels, flags, |labels|, w);
      }
    }
    assert RowsInRange(rows, |dict|);
    forall i | 0 <= i < |rows| ensures Read(rows, dict)[i] == Read(base, labels)[i] {}
  }

  // ---------------------------------------------------------------- built blocks

  /** The base a block is closed over, and the state it was closed at. */
  ghost function BuiltBase(rows: seq<BaseRow>, s: CollapseState): seq<Row>
    requires FitsIds(rows)
  {
    DictIsDict(rows);
    CollapsedBase(IdRows(rows, DictOf(rows)), FinalState(Counting(IdRows(rows, DictOf(rows))), s))
  }

  ghost function BuiltState(rows: seq<BaseRow>, s: CollapseState): CollapseState
    requires FitsIds(rows)
  {
    DictIsDict(rows);
    FinalState(Counting(IdRows(rows, DictOf(rows))), s)
  }

  lemma BuiltParts(rows: seq<BaseRow>, s: CollapseState)
    requires FitsIds(rows)
    ensures var labels, b, block := DictOf(rows), BuiltBase(rows, s), BuildRows(rows, s);
            && IsDict(labels) && RowsInRange(b, |labels|) && NoShift(b)
            && RowsInRange(ClosedRows(b), |labels|)
            && block.base == RetainedRows(b, Flags(b, |labels|))
            && block.dict == Chosen(labels, Flags(b, |labels|), |labels|)
            && block.cells == CoordRows(ClosedRows(b), labels)
            && StateOfAxes(block.axes) == BuiltState(rows, s)
            && Coarser(BuiltState(rows, s), s)
            && SameJoint(Read(b, labels), CollapsedRows(rows, BuiltState(rows, s)))
  {
    DictIsDict(rows);
    var labels := DictOf(rows);
    ReadInterned(rows, labels);
    ReadCollapsed(IdRows(rows, labels), labels, BuiltState(rows, s));
    AxesRoundTrip(BuiltState(rows, s));
    FinalStateCoarser(Counting(IdRows(rows, labels)), s);
    PopulatedInRange(BuiltBase(rows, s), |labels|);
    BuildRowsIs(rows, s);
  }

  lemma CellLeaves(rows: seq<Row>, labels: seq<Text>)
    requires IsDict(labels) && RowsInRange(rows, |labels|)
    ensures LeavesOf(CoordRows(rows, labels)) <= Elements(labels)
    ensures forall c :: c in CoordRows(rows, labels) && Leaf(c).Some? ==> Leaf(c).value != []
    ensures forall r :: r in rows && r.cell.component != STAR ==>
        labels[r.cell.component] in LeavesOf(CoordRows(rows, labels))
  {
    var cells := CoordRows(rows, labels);
    forall c | c in cells && Leaf(c).Some? ensures Leaf(c).value in Elements(labels) && Leaf(c).value != [] {
      var i :| 0 <= i < |cells| && cells[i] == c;
      assert rows[i] in rows;
      assert labels[rows[i].cell.component] in labels;
    }
    forall r | r in rows && r.cell.component != STAR ensures labels[r.cell.component] in LeavesOf(cells) {
      var i :| 0 <= i < |rows| && rows[i] == r;
      assert cells[i] in cells && Leaf(cells[i]) == Some(labels[r.cell.component]);
    }
  }

  lemma RetainedIdsInRange(base: seq<Row>, labels: seq<Text>)
    requires IsDict(labels) && RowsInRange(base, |labels|) && NoShift(base)
    ensures var flags := Flags(base, |labels|);
            forall r :: r in RetainedRows(base, flags) ==>
              r.componentId == STAR || r.componentId < |Chosen(labels, flags, |labels|)|
  {
    RetainedReads(base, labels);
    var retained := RetainedRows(base, Flags(base, |labels|));
    var rows := RowsOfRetained(retained);
    hide Flags, Chosen, RetainedRow, Read, NoShift;
    forall r | r in retained ensures r.componentId == STAR
        || r.componentId < |Chosen(labels, Flags(base, |labels|), |labels|)| {
      var i :| 0 <= i < |retained| && retained[i] == r;
      assert rows[i] in rows;
    }
  }

  lemma BlockOfParts(block: CubeBlock, rows: seq<Row>, labels: seq<Text>)
    requires IsDict(labels) && RowsInRange(rows, |labels|) && block.cells == CoordRows(rows, labels)
    requires IsDict(block.dict) && forall r :: r in block.base ==> r.componentId == STAR || r.componentId < |block.dict|
    ensures BlockInRange(block)
  {
    CellLeaves(rows, labels);
    FewerElements(Leaves(block), labels);
    forall c | c in block.cells && c.coord.path.Some? && c.coord.path.value != []
      ensures c.coord.path.value[|c.coord.path.value| - 1] != []
    {
      assert Leaf(c).Some?;
    }
  }

  lemma BuiltInRange(rows: seq<BaseRow>, s: CollapseState)
    requires FitsIds(rows)
    ensures BlockInRange(BuildRows(rows, s))
  {
    hide *;
    BuiltParts(rows, s);
    var labels, b := DictOf(rows), BuiltBase(rows, s);
    ChosenIsDict(b, labels);
    RetainedIdsInRange(b, labels);
    BlockOfParts(BuildRows(rows, s), ClosedRows(b), labels);
  }

  lemma NoSupport(rows: seq<Row>)
    ensures rows == [] <==> Support(rows) == {}
  {
    SupportOfCells(rows);
    NoElements(CellsOf(rows));
  }

  lemma NothingRecovered()
    ensures Recovered([]) == []
  {
    assert Elements(StarOrder([])) == {};
    NoElements(StarOrder([]));
    assert RecoveryEvents([]) == [];
    assert CanonicalRows([]);
    CanonicalIsReduced([]);
  }

  lemma NothingClosed(base: seq<Row>)
    requires base == []
    ensures ClosedRows(base) == []
  {
    NoSupport(base);
    NoSupport(ClosedRows(base));
    assert Generalizations(Support(base)) == {};
  }

  lemma NothingChosen(labels: seq<Text>)
    requires IsDict(labels)
    ensures Chosen(labels, Flags([], |labels|), |labels|) == []
  {
    var dict := Chosen(labels, Flags([], |labels|), |labels|);
    ChosenFrom(labels, Flags([], |labels|), |labels|);
    assert Elements(dict) == {};
    NoElements(dict);
  }

  lemma EmptyBuilt(rows: seq<BaseRow>, s: CollapseState)
    requires FitsIds(rows) && BuildRows(rows, s).base == []
    ensures BuiltBase(rows, s) == [] && BlockInRange(BuildRows(rows, s))
    ensures InternedBase(BuildRows(rows, s)) == ([], []) && BuildRows(rows, s).dict == []
  {
    BuiltInRange(rows, s);
    BuiltParts(rows, s);
    var labels, b, block := DictOf(rows), BuiltBase(rows, s), BuildRows(rows, s);
    hide BuildRows, BuiltBase, BuiltState, SameJoint, Recovered, ClosedRows;
    NothingClosed(b);
    NothingRecovered();
    NothingChosen(labels);
    assert Leaves(block) == {};
    NoElements(LeafDict(block));
  }

  /** A built cube holds exactly its joint, read at the collapse state its axes declare. */
  lemma ContentsOfBuilt(rows: seq<BaseRow>, s: CollapseState)
    requires FitsIds(rows)
    ensures BlockInRange(BuildRows(rows, s))
    ensures SameJoint(Contents(BuildRows(rows, s)), CollapsedRows(rows, StateOfAxes(BuildRows(rows, s).axes)))
  {
    BuiltInRange(rows, s);
    BuiltParts(rows, s);
    var labels, b, block := DictOf(rows), BuiltBase(rows, s), BuildRows(rows, s);
    hide BuildRows, BuiltBase, BuiltState, SameJoint, Recovered, ClosedRows, Reduced;
    if block.base != [] {
      RetainedReads(b, labels);
      var retained := RowsOfRetained(block.base);
      ReducedReads(retained, block.dict);
      ContentsIs(block, Reduced(retained), block.dict);
      SameJointTransitive(Contents(block), Read(b, labels), CollapsedRows(rows, BuiltState(rows, s)));
    } else {
      EmptyBuilt(rows, s);
      ContentsIs(block, [], []);
      assert Contents(block) == Read(b, labels);
    }
  }

  // ---------------------------------------------------------------- composing in general

  lemma CollapsedRowsAbsorb(rows: seq<BaseRow>, s: CollapseState, t: CollapseState)
    requires Coarser(t, s)
    ensures CollapsedRows(CollapsedRows(rows, s), t) == CollapsedRows(rows, t)
  {}

  /** Coarsening respects joints. */
  lemma CollapsedJoint(a: seq<BaseRow>, b: seq<BaseRow>, s: CollapseState)
    requires SameJoint(a, b) && FitsIds(a)
    ensures SameJoint(CollapsedRows(a, s), CollapsedRows(b, s))
  {
    SameJointSymmetric(a, b);
    SameLabels(a, b);
    SameLabels(b, a);
    assert LabelsOf(a) == LabelsOf(b);
    var labels := DictOf(a);
    DictIsDict(a);
    ReadInterned(a, labels);
    ReadInterned(b, labels);
    hide SameJoint, CollapsedBase;
    SameJointIff(IdRows(a, labels), IdRows(b, labels), labels);
    EquivalentCollapse(IdRows(a, labels), IdRows(b, labels), s);
    ReadCollapsed(IdRows(a, labels), labels, s);
    ReadCollapsed(IdRows(b, labels), labels, s);
    var r := Read(CollapsedBase(IdRows(a, labels), s), labels);
    SameJointSymmetric(r, CollapsedRows(a, s));
    SameJointTransitive(CollapsedRows(a, s), r, CollapsedRows(b, s));
  }

  /** A composed cube holds the two joints pooled, read at the state its axes declare, which is at
      least as coarse as both members'. */
  lemma ComposedContents(a: CubeBlock, b: CubeBlock)
    requires Composable(a, b)
    ensures var cube := ComposeBlock(a, b);
            && BlockInRange(cube)
            && Coarser(StateOfAxes(cube.axes), StateOfAxes(a.axes))
                && Coarser(StateOfAxes(cube.axes), StateOfAxes(b.axes))
            && SameJoint(Contents(cube), CollapsedRows(Contents(a) + Contents(b), StateOfAxes(cube.axes)))
  {
    ComposeIsPooledCube(a, b);
    var rows, s := Contents(a) + Contents(b), CommonState(a, b);
    ContentsOfBuilt(rows, s);
    BuiltParts(rows, s);
    MinCommonIsJoin(StateOfAxes(a.axes), StateOfAxes(b.axes), BuiltState(rows, s));
  }

  lemma PooledCollapse(a: seq<BaseRow>, b: seq<BaseRow>, x: seq<BaseRow>, y: seq<BaseRow>,
                       s: CollapseState, t: CollapseState, u: CollapseState)
    requires SameJoint(a, CollapsedRows(x, s)) && SameJoint(b, CollapsedRows(y, t)) && FitsIds(a + b)
    requires Coarser(u, s) && Coarser(u, t)
    ensures SameJoint(CollapsedRows(a + b, u), CollapsedRows(x + y, u))
  {
    var cx, cy := CollapsedRows(x, s), CollapsedRows(y, t);
    CollapsedRowsAbsorb(x, s, u);
    CollapsedRowsAbsorb(y, t, u);
    assert CollapsedRows(cx + cy, u) == CollapsedRows(x + y, u);
    hide *;
    PooledJoint(a, cx, b, cy);
    CollapsedJoint(a + b, cx + cy, u);
  }

  /** Composing built cubes coarsens their pooled rows and nothing else: sum-then-coarsen is
      coarsen-then-sum, so no count is lost or invented on the way. */
  lemma ComposedBuilt(x: seq<BaseRow>, y: seq<BaseRow>, s: CollapseState, t: CollapseState)
    requires FitsIds(x) && FitsIds(y) && Composable(BuildRows(x, s), BuildRows(y, t))
    ensures var cube := ComposeBlock(BuildRows(x, s), BuildRows(y, t));
            BlockInRange(cube) && SameJoint(Contents(cube), CollapsedRows(x + y, StateOfAxes(cube.axes)))
  {
    hide *;
    var a, b := BuildRows(x, s), BuildRows(y, t);
    ContentsOfBuilt(x, s);
    ContentsOfBuilt(y, t);
    ComposedContents(a, b);
    ComposeIsPooledCube(a, b);
    var u := StateOfAxes(ComposeBlock(a, b).axes);
    PooledCollapse(Contents(a), Contents(b), x, y, StateOfAxes(a.axes), StateOfAxes(b.axes), u);
    SameJointTransitive(Contents(ComposeBlock(a, b)), CollapsedRows(Contents(a) + Contents(b), u),
                        CollapsedRows(x + y, u));
  }

  // ---------------------------------------------------------------- within the budget

  /** The closed cells of a joint before any collapse. */
  ghost function JointCells(rows: seq<BaseRow>): nat
    requires FitsIds(rows)
  {
    DictIsDict(rows);
    ClosedCount(IdRows(rows, DictOf(rows)), UNCOLLAPSED)
  }

  lemma ClosedOfPart(a: seq<Row>, b: seq<Row>)
    requires Support(a) <= Support(b)
    ensures ClosedCount(a, UNCOLLAPSED) <= ClosedCount(b, UNCOLLAPSED)
  {
    UncollapsedBase(a);
    UncollapsedBase(b);
    ReducedIs(a);
    ReducedIs(b);
    var ra, rb := Reduced(a), Reduced(b);
    hide Reduced, CollapsedBase;
    assert Support(ra) <= Support(rb);
    forall c | c in ClosedCells(ra) ensures c in ClosedCells(rb) {
      ClosedIsGeneralization(ra, c);
      ClosedIsGeneralization(rb, c);
      ClosedSurvivesUnion(Support(ra), Support(rb), c);
      assert Support(ra) + Support(rb) == Support(rb);
    }
    ClosedCountIsCells(ra);
    ClosedCountIsCells(rb);
    GuardrailLimits.SubsetCardinality(ClosedCells(ra), ClosedCells(rb));
  }

  /** Closed cells do not depend on the dictionary. */
  lemma JointCellsOver(rows: seq<BaseRow>, labels: seq<Text>)
    requires FitsIds(rows) && Covers(labels, rows)
    ensures ClosedCount(IdRows(rows, labels), UNCOLLAPSED) == JointCells(rows)
  {
    DictIsDict(rows);
    var dict := DictOf(rows);
    ReadInterned(rows, labels);
    ReadInterned(rows, dict);
    ReadingDecides(IdRows(rows, dict), dict, IdRows(rows, labels), labels);
    SubDictionaryCarries(labels, dict);
    hide ClosedCount;
    RenamedClosedCount(IdRows(rows, dict), IdsIn(dict, labels), UNCOLLAPSED);
  }

  lemma PartFits(part: seq<BaseRow>, whole: seq<BaseRow>)
    requires FitsIds(whole) && LabelsOf(part) <= LabelsOf(whole)
    ensures FitsIds(part) && Covers(DictOf(whole), part) && Covers(DictOf(whole), whole)
  {
    DictIsDict(whole);
    FewerElements(LabelsOf(part), DictOf(whole));
  }

  lemma PartCells(part: seq<BaseRow>, whole: seq<BaseRow>)
    requires FitsIds(whole) && LabelsOf(part) <= LabelsOf(whole) && forall r :: r in part ==> r in whole
    ensures FitsIds(part) && JointCells(part) <= JointCells(whole)
  {
    PartFits(part, whole);
    var labels := DictOf(whole);
    var a, b := IdRows(part, labels), IdRows(whole, labels);
    PartSupport(part, whole, labels);
    hide *;
    JointCellsOver(part, labels);
    JointCellsOver(whole, labels);
    ClosedOfPart(a, b);
  }

  /** Pooling more rows never removes a closed cell. */
  lemma JointCellsGrow(x: seq<BaseRow>, y: seq<BaseRow>)
    requires FitsIds(x + y)
    ensures FitsIds(x) && FitsIds(y)
    ensures JointCells(x) <= JointCells(x + y) && JointCells(y) <= JointCells(x + y)
  {
    PooledLabels(x, y);
    hide *;
    PartCells(x, x + y);
    PartCells(y, x + y);
  }

  lemma PartSupport(part: seq<BaseRow>, whole: seq<BaseRow>, labels: seq<Text>)
    requires |labels| <= STAR && forall r :: r in part ==> r in whole
    ensures Support(IdRows(part, labels)) <= Support(IdRows(whole, labels))
  {
    var a, b := IdRows(part, labels), IdRows(whole, labels);
    forall c | c in Support(a) ensures c in Support(b) {
      var i :| 0 <= i < |a| && a[i].cell == c;
      assert part[i] in whole;
      var j :| 0 <= j < |whole| && whole[j] == part[i];
      assert b[j] in b;
    }
  }

  lemma PooledLabels(x: seq<BaseRow>, y: seq<BaseRow>)
    ensures LabelsOf(x + y) == LabelsOf(x) + LabelsOf(y)
  {
    assert forall r :: r in x + y <==> r in x || r in y;
  }

  lemma UncollapsedState(rows: seq<BaseRow>)
    requires FitsIds(rows) && JointCells(rows) <= CUBE_CELL_BUDGET
    ensures BuiltState(rows, UNCOLLAPSED) == UNCOLLAPSED
  {
    DictIsDict(rows);
    hide ClosedCount;
    assert Counting(IdRows(rows, DictOf(rows)))(UNCOLLAPSED) == JointCells(rows);
  }

  /** Within the budget nothing is collapsed. */
  lemma BuiltUncollapsed(rows: seq<BaseRow>)
    requires FitsIds(rows) && JointCells(rows) <= CUBE_CELL_BUDGET
    ensures StateOfAxes(BuildRows(rows, UNCOLLAPSED).axes) == UNCOLLAPSED
    ensures BlockInRange(BuildRows(rows, UNCOLLAPSED)) && SameJoint(Contents(BuildRows(rows, UNCOLLAPSED)), rows)
  {
    hide *;
    UncollapsedRows(rows);
    UncollapsedState(rows);
    BuiltAxes(rows, UNCOLLAPSED);
    ContentsOfBuilt(rows, UNCOLLAPSED);
  }

  lemma UncollapsedRows(rows: seq<BaseRow>)
    ensures CollapsedRows(rows, UNCOLLAPSED) == rows
  {}

  lemma BuiltAxes(rows: seq<BaseRow>, s: CollapseState)
    requires FitsIds(rows)
    ensures StateOfAxes(BuildRows(rows, s).axes) == BuiltState(rows, s)
  {
    AxesRoundTrip(BuiltState(rows, s));
    DictIsDict(rows);
    hide StateOfAxes, Stamp, FinalState;
    BuildRowsIs(rows, s);
  }

  lemma BuiltLabels(rows: seq<BaseRow>, s: CollapseState)
    requires FitsIds(rows)
    ensures BlockInRange(BuildRows(rows, s)) && Elements(InternedBase(BuildRows(rows, s)).1) <= LabelsOf(rows)
  {
    BuiltInRange(rows, s);
    BuiltParts(rows, s);
    ChosenIsDict(BuiltBase(rows, s), DictOf(rows));
    if BuildRows(rows, s).base == [] { EmptyBuilt(rows, s); }
  }

  lemma BuiltComposable(x: seq<BaseRow>, y: seq<BaseRow>, s: CollapseState, t: CollapseState)
    requires FitsIds(x + y)
    ensures FitsIds(x) && FitsIds(y) && Composable(BuildRows(x, s), BuildRows(y, t))
  {
    PooledLabels(x, y);
    DictIsDict(x + y);
    var labels := DictOf(x + y);
    FewerElements(LabelsOf(x), labels);
    FewerElements(LabelsOf(y), labels);
    hide BuildRows, BlockInRange;
    BuiltLabels(x, s);
    BuiltLabels(y, t);
    FewerElements(Elements(InternedBase(BuildRows(x, s)).1) + Elements(InternedBase(BuildRows(y, t)).1), labels);
  }

  /** Merging is a homomorphism: while the pooled rows fit the budget, composing two cubes is
      building the cube of both windows' rows, as a whole block. */
  lemma ComposeIsHomomorphism(x: seq<BaseRow>, y: seq<BaseRow>)
    requires FitsIds(x + y) && JointCells(x + y) <= CUBE_CELL_BUDGET
    ensures FitsIds(x) && FitsIds(y) && Composable(BuildRows(x, UNCOLLAPSED), BuildRows(y, UNCOLLAPSED))
    ensures ComposeBlock(BuildRows(x, UNCOLLAPSED), BuildRows(y, UNCOLLAPSED)) == BuildRows(x + y, UNCOLLAPSED)
  {
    JointCellsGrow(x, y);
    BuiltComposable(x, y, UNCOLLAPSED, UNCOLLAPSED);
    BuiltUncollapsed(x);
    BuiltUncollapsed(y);
    var a, b := BuildRows(x, UNCOLLAPSED), BuildRows(y, UNCOLLAPSED);
    hide BuildRows, SameJoint, Composable, ComposeBlock, Contents, BlockInRange, StateOfAxes;
    assert CommonState(a, b) == UNCOLLAPSED;
    ComposeIsPooledCube(a, b);
    PooledJoint(Contents(a), x, Contents(b), y);
    SameJointSameCube(Contents(a) + Contents(b), x + y, UNCOLLAPSED);
  }

  lemma ComposeThree(x: seq<BaseRow>, y: seq<BaseRow>, z: seq<BaseRow>)
    requires FitsIds((x + y) + z) && JointCells((x + y) + z) <= CUBE_CELL_BUDGET
    ensures FitsIds(x) && FitsIds(y) && FitsIds(z)
    ensures Composable(BuildRows(x, UNCOLLAPSED), BuildRows(y, UNCOLLAPSED))
    ensures var ab := ComposeBlock(BuildRows(x, UNCOLLAPSED), BuildRows(y, UNCOLLAPSED));
            Composable(ab, BuildRows(z, UNCOLLAPSED))
            && ComposeBlock(ab, BuildRows(z, UNCOLLAPSED)) == BuildRows((x + y) + z, UNCOLLAPSED)
  {
    hide *;
    var xy := x + y;
    JointCellsGrow(xy, z);
    ComposeIsHomomorphism(xy, z);
    ComposeIsHomomorphism(x, y);
  }

  /** Within the budget composition is associative, because both sides are one cube. */
  lemma ComposeAssociates(x: seq<BaseRow>, y: seq<BaseRow>, z: seq<BaseRow>)
    requires FitsIds((x + y) + z) && JointCells((x + y) + z) <= CUBE_CELL_BUDGET
    ensures FitsIds(x) && FitsIds(y) && FitsIds(z)
    ensures var a, b, c := BuildRows(x, UNCOLLAPSED), BuildRows(y, UNCOLLAPSED), BuildRows(z, UNCOLLAPSED);
            && Composable(a, b) && Composable(ComposeBlock(a, b), c)
            && Composable(b, c) && Composable(a, ComposeBlock(b, c))
            && ComposeBlock(ComposeBlock(a, b), c) == ComposeBlock(a, ComposeBlock(b, c))
  {
    hide *;
    ComposeThree(x, y, z);
    var yz := y + z;
    assert (x + y) + z == x + yz;
    JointCellsGrow(x, yz);
    ComposeIsHomomorphism(x, yz);
    ComposeIsHomomorphism(y, z);
  }

  // ---------------------------------------------------------------- a block without its base

  /** The block as the wire carries it: the retained base and its dictionary are not serialized. */
  function Bare(block: CubeBlock): CubeBlock { block.(base := [], dict := []) }

  lemma {:induction false} CellRoundTrip(c: Cell, labels: seq<Text>)
    requires IsDict(labels) && InRange(c, |labels|) && c.shift == STAR
    ensures CellOf(CoordOf(c, labels), labels) == c
  {
    if c.component != STAR {
      assert labels[c.component] in labels;
      DictIndex(labels, c.component, IdOf(labels, labels[c.component]));
    }
  }

  lemma ClosedNoShift(base: seq<Row>)
    requires NoShift(base)
    ensures NoShift(ClosedRows(base))
  {
    forall r | r in ClosedRows(base) ensures r.cell.shift == STAR {
      assert r.cell in Support(ClosedRows(base));
      ClosedIsGeneralization(base, r.cell);
      var t :| t in Covered(Support(base), r.cell);
      var q :| q in base && q.cell == t;
    }
  }

  /** Emitted coordinates read back as the closed rows, through the dictionary their leaves name. */
  lemma CoordsReadBack(block: CubeBlock, rows: seq<Row>, dict: seq<Text>)
    requires IsDict(dict) && RowsInRange(rows, |dict|) && NoShift(rows) && block.cells == CoordRows(rows, dict)
    ensures InternalCells(block, dict) == rows
  {
    forall i | 0 <= i < |rows| ensures InternalCells(block, dict)[i] == rows[i] {
      assert rows[i] in rows;
      CellRoundTrip(rows[i].cell, dict);
    }
  }

  ghost predicate Uses(base: seq<Row>, id: Id) { exists r :: r in base && r.cell.component == id }

  /** Every label a base refers to is the leaf of some closed cell. */
  lemma LeavesAreReferenced(base: seq<Row>, dict: seq<Text>, block: CubeBlock)
    requires IsDict(dict) && RowsInRange(base, |dict|) && RowsInRange(ClosedRows(base), |dict|)
    requires block.cells == CoordRows(ClosedRows(base), dict)
    requires forall i :: 0 <= i < |dict| ==> Uses(base, i)
    ensures LeafDict(block) == dict
  {
    CellLeaves(ClosedRows(base), dict);
    hide BlockInRange;
    forall i | 0 <= i < |dict| ensures dict[i] in LeavesOf(CoordRows(ClosedRows(base), dict))
        { LabelIsLeaf(base, dict, i); }
    TextOrderIsTotal();
    hide ClosedRows, Uses;
    assert Elements(dict) <= Leaves(block);
    AscendingUnique(TextOrder, LeafDict(block), dict);
  }

  lemma LabelIsLeaf(base: seq<Row>, dict: seq<Text>, i: nat)
    requires IsDict(dict) && RowsInRange(ClosedRows(base), |dict|) && i < |dict| && Uses(base, i)
    ensures dict[i] in LeavesOf(CoordRows(ClosedRows(base), dict))
  {
    var r :| r in base && r.cell.component == i;
    assert r.cell in Support(base);
    TupleIsClosed(base, r.cell);
    ClosedIsGeneralization(base, r.cell);
    CellLeaves(ClosedRows(base), dict);
    assert r.cell in Support(ClosedRows(base));
    hide ClosedRows, IsClosedRows;
    var q :| q in ClosedRows(base) && q.cell == r.cell;
  }

  /** The base as retained: canonical, over a dictionary every entry of which it uses. */
  ghost predicate IsRetainedBase(own: seq<Row>, dict: seq<Text>) {
    && IsDict(dict) && RowsInRange(own, |dict|) && NoShift(own) && CanonicalRows(own) && IsJoint(own)
    && (forall i :: 0 <= i < |dict| ==> Uses(own, i))
  }

  lemma {:induction false} EveryChosenUsed(base: seq<Row>, labels: seq<Text>, flags: seq<bool>, n: nat, j: nat)
      returns (w: nat)
    requires n <= |flags| && n <= |labels| && j < Rank(flags, n)
    ensures w < n && flags[w] && Rank(flags, w) == j
  {
    if flags[n - 1] && j == Rank(flags, n - 1) {
      w := n - 1;
    } else {
      w := EveryChosenUsed(base, labels, flags, n - 1, j);
    }
  }

  lemma RetainedIsJoint(base: seq<Row>, labels: seq<Text>)
    requires IsDict(labels) && RowsInRange(base, |labels|) && NoShift(base) && CanonicalRows(base) && IsJoint(base)
    ensures var flags := Flags(base, |labels|);
            IsRetainedBase(RowsOfRetained(RetainedRows(base, flags)), Chosen(labels, flags, |labels|))
  {
    var flags := Flags(base, |labels|);
    var own, dict := RowsOfRetained(RetainedRows(base, flags)), Chosen(labels, flags, |labels|);
    ChosenIsDict(base, labels);
    RetainedReads(base, labels);
    ReadingDecides(own, dict, base, labels);
    SubDictionaryCarries(labels, dict);
    hide Flags, Chosen, Read, IsDict, RowsInRange, NoShift, CanonicalRows;
    OwnCanonical(own, IdsIn(dict, labels));
    OwnTuples(base, flags);
    forall j | 0 <= j < |dict| ensures Uses(own, j) { OwnUses(base, labels, j); }
  }

  lemma OwnTuples(base: seq<Row>, flags: seq<bool>)
    requires |flags| <= STAR && RowsInRange(base, |flags|) && IsJoint(base)
    ensures IsJoint(RowsOfRetained(RetainedRows(base, flags)))
  {
    var own := RowsOfRetained(RetainedRows(base, flags));
    forall r | r in own ensures IsTuple(r.cell) && r.count > 0 {
      var i :| 0 <= i < |own| && own[i] == r;
      assert base[i] in base && IsTuple(base[i].cell);
    }
  }

  lemma OwnUses(base: seq<Row>, labels: seq<Text>, j: nat)
    requires |labels| <= STAR && RowsInRange(base, |labels|) && j < Rank(Flags(base, |labels|), |labels|)
    ensures Uses(RowsOfRetained(RetainedRows(base, Flags(base, |labels|))), j)
  {
    var flags := Flags(base, |labels|);
    var own := RowsOfRetained(RetainedRows(base, flags));
    var w := EveryChosenUsed(base, labels, flags, |labels|, j);
    var r :| r in base && r.cell.component == w;
    var i :| 0 <= i < |base| && base[i] == r;
    assert own[i] in own;
  }

  lemma OwnCanonical(own: seq<Row>, phi: seq<Id>)
    requires IsRenaming(phi) && RowsInRange(own, |phi|) && CanonicalRows(Renamed(own, phi))
    ensures CanonicalRows(own)
  {
    var cells, renamed := CellsOf(own), CellsOf(Renamed(own, phi));
    forall i, j | 0 <= i < j < |cells| ensures CanonicalOrder(cells[i], cells[j]) {
      assert own[i] in own && own[j] in own;
      assert CanonicalOrder(renamed[i], renamed[j]);
      RenameReflects(cells[i], cells[j], phi);
    }
  }

  lemma CoarseTuples(rows: seq<BaseRow>, labels: seq<Text>, s: CollapseState)
    requires |labels| <= STAR && LevelsAndRoles(rows) && forall r :: r in rows ==> r.count > 0
    ensures IsJoint(MapRows(IdRows(rows, labels), Collapsing(s)))
  {
    var coarse := MapRows(IdRows(rows, labels), Collapsing(s));
    forall r | r in coarse ensures IsTuple(r.cell) && r.count > 0 {
      var i :| 0 <= i < |coarse| && coarse[i] == r;
      assert rows[i] in rows;
    }
  }

  lemma ReducedIsJoint(base: seq<Row>)
    requires IsJoint(base)
    ensures CanonicalRows(Reduced(base)) && IsJoint(Reduced(base))
  {
    ReducedIs(base);
    hide Reduced;
    forall r | r in Reduced(base) ensures IsTuple(r.cell) && r.count > 0 {
      assert r.cell in Support(base);
      ReducedRowCount(base, r);
      MassPositive(base, r.cell);
      var q :| q in base && q.cell == r.cell;
    }
  }

  lemma CollapsedIsJoint(rows: seq<BaseRow>, labels: seq<Text>, s: CollapseState)
    requires |labels| <= STAR && LevelsAndRoles(rows) && forall r :: r in rows ==> r.count > 0
    ensures CanonicalRows(CollapsedBase(IdRows(rows, labels), s)) && IsJoint(CollapsedBase(IdRows(rows, labels), s))
  {
    CoarseTuples(rows, labels, s);
    ReducedIsJoint(MapRows(IdRows(rows, labels), Collapsing(s)));
  }

  /** The closed cells of a retained base alone give back that base and its dictionary. */
  lemma BareBlock(block: CubeBlock, own: seq<Row>, dict: seq<Text>)
    requires IsRetainedBase(own, dict) && RowsInRange(ClosedRows(own), |dict|)
        && block.cells == CoordRows(ClosedRows(own), dict)
    ensures BlockInRange(Bare(block)) && InternedBase(Bare(block)) == (own, dict)
  {
    var bare := Bare(block);
    hide Recovered, ClosedRows, IsJoint, CanonicalRows, CellOf;
    LeavesAreReferenced(own, dict, bare);
    ClosedNoShift(own);
    CoordsReadBack(bare, ClosedRows(own), dict);
    RecoverRoundTrip(own);
    CellLeaves(ClosedRows(own), dict);
    FewerElements(Leaves(bare), dict);
    forall c | c in bare.cells && c.coord.path.Some? && c.coord.path.value != []
      ensures c.coord.path.value[|c.coord.path.value| - 1] != []
    {
      assert Leaf(c).Some?;
    }
  }

  /** Round trip of a whole block: without its retained base, the closed cells alone give back the
      same interned base and the same dictionary, so both branches of the reader agree. */
  lemma BareRoundTrip(rows: seq<BaseRow>, s: CollapseState)
    requires FitsIds(rows) && LevelsAndRoles(rows) && forall r :: r in rows ==> r.count > 0
    ensures BlockInRange(BuildRows(rows, s)) && BlockInRange(Bare(BuildRows(rows, s)))
    ensures InternedBase(Bare(BuildRows(rows, s))) == InternedBase(BuildRows(rows, s))
  {
    BuiltInRange(rows, s);
    BuiltParts(rows, s);
    DictIsDict(rows);
    var labels, b, block := DictOf(rows), BuiltBase(rows, s), BuildRows(rows, s);
    CollapsedIsJoint(rows, labels, BuiltState(rows, s));
    var flags := Flags(b, |labels|);
    var own, dict := RowsOfRetained(block.base), block.dict;
    hide BuildRows, BuiltBase, BuiltState, SameJoint, BlockInRange, ClosedRows;
    RetainedIsJoint(b, labels);
    RetainedReads(b, labels);
    ChosenIsDict(b, labels);
    ReadingDecides(own, dict, b, labels);
    SubDictionaryCarries(labels, dict);
    var phi := IdsIn(dict, labels);
    RenamedClosedRows(own, phi);
    RenamedCoords(ClosedRows(own), labels, dict, phi);
    BareBlock(block, own, dict);
    CanonicalIsReduced(own);
    if block.base == [] {
      EmptyBuilt(rows, s);
      assert own == [];
    }
  }
}
