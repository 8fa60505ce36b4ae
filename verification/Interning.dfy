/** Component dictionaries: interning labelled rows, moving a base between dictionaries, and
    getting the interned base back from a block. */
module Interning {
  import opened Options
  import opened Orders
  import opened Bytes
  import opened Cells
  import opened Bases
  import opened ClosedCube
  import opened Collapse
  import opened Blocks
  import opened Emission

  /** One row of a window's joint; an empty component means the events had no WHERE. */
  datatype BaseRow = BaseRow(level: Id, component: Text, role: Id, count: nat)

  ghost predicate LevelsAndRoles(rows: seq<BaseRow>) {
    forall r :: r in rows ==> r.level < LEVELS && r.role < ROLES
  }

  ghost function LabelsOf(rows: seq<BaseRow>): set<Text> { set r | r in rows && r.component != [] :: r.component }

  /** The dictionary of a window: its sorted distinct non-empty components. */
  ghost function DictOf(rows: seq<BaseRow>): (labels: seq<Text>)
    ensures Elements(labels) == LabelsOf(rows) && Ascending(TextOrder, labels)
  {
    TextOrderIsTotal();
    SortedOf(TextOrder, LabelsOf(rows))
  }

  ghost predicate FitsIds(rows: seq<BaseRow>) { |LabelsOf(rows)| <= STAR }

  lemma DictIsDict(rows: seq<BaseRow>)
    requires FitsIds(rows)
    ensures IsDict(DictOf(rows))
    ensures forall t :: t in DictOf(rows) <==> t in LabelsOf(rows)
  {
    TextOrderIsTotal();
    assert |DictOf(rows)| == |LabelsOf(rows)|;
    assert forall t :: t in DictOf(rows) <==> t in Elements(DictOf(rows));
  }

  function CellOfRow(r: BaseRow, labels: seq<Text>): Cell
    requires |labels| <= STAR
  {
    Cell(r.level, IdOf(labels, r.component), r.role, STAR)
  }

  ghost function IdRows(rows: seq<BaseRow>, labels: seq<Text>): (r: seq<Row>)
    requires |labels| <= STAR
    ensures |r| == |rows| && forall i :: 0 <= i < |r| ==> r[i] == Row(CellOfRow(rows[i], labels), rows[i].count)
  {
    seq(|rows|, i requires 0 <= i < |rows| => Row(CellOfRow(rows[i], labels), rows[i].count))
  }

  lemma IdRowsInRange(rows: seq<BaseRow>, labels: seq<Text>)
    requires |labels| <= STAR
    ensures RowsInRange(IdRows(rows, labels), |labels|) && RowsInRange(Reduced(IdRows(rows, labels)), |labels|)
  {
    var b := IdRows(rows, labels);
    forall r | r in b ensures InRange(r.cell, |labels|) {
      var i :| 0 <= i < |b| && b[i] == r;
    }
    ReducedIs(b);
    hide Reduced;
    forall r | r in Reduced(b) ensures InRange(r.cell, |labels|) {
      assert r.cell in Support(b);
    }
  }

  // ---------------------------------------------------------------- between dictionaries

  /** The sorted union of two dictionaries. */
  ghost function Merged(a: seq<Text>, b: seq<Text>): (labels: seq<Text>)
    ensures Ascending(TextOrder, labels) && Elements(labels) == Elements(a) + Elements(b)
  {
    TextOrderIsTotal();
    SortedOf(TextOrder, Elements(a) + Elements(b))
  }

  method MergeDicts(a: seq<Text>, b: seq<Text>) returns (labels: seq<Text>)
    ensures labels == Merged(a, b)
  {
    TextOrderIsTotal();
    assert Elements(a + b) == Elements(a) + Elements(b);
    labels := SortedSet(TextOrder, a + b);
    SortedOfUnique(TextOrder, labels, Elements(a) + Elements(b));
  }

  function Relabel(c: Cell, from: seq<Text>, to: seq<Text>): Cell
    requires |to| <= STAR && InRange(c, |from|)
  {
    if c.component == STAR then c else c.(component := IdOf(to, from[c.component]))
  }

  ghost function Relabelled(base: seq<Row>, from: seq<Text>, to: seq<Text>): (r: seq<Row>)
    requires |to| <= STAR && RowsInRange(base, |from|)
    ensures |r| == |base|
    ensures forall i :: 0 <= i < |r| ==> base[i] in base && r[i] == Row(Relabel(base[i].cell, from, to), base[i].count)
  {
    seq(|base|, i requires 0 <= i < |base| =>
        assert base[i] in base; Row(Relabel(base[i].cell, from, to), base[i].count))
  }

  method RemapBase(base: seq<Row>, oldDict: seq<Text>, newDict: seq<Text>) returns (r: seq<Row>)
    requires IsDict(oldDict) && IsDict(newDict) && RowsInRange(base, |oldDict|)
    requires forall t :: t in oldDict ==> t in newDict
    ensures r == Reduced(Relabelled(base, oldDict, newDict))
  {
    TextOrderIsTotal();
    var events: seq<Row> := [];
    for k := 0 to |base|
      invariant |events| == k
      invariant forall i :: 0 <= i < k ==>
          base[i] in base && events[i] == Row(Relabel(base[i].cell, oldDict, newDict), base[i].count)
    {
      assert base[k] in base;
      var remapped, component := base[k].cell, base[k].cell.component;
      if component != STAR {
        assert oldDict[component] in oldDict;
        var found := LowerBound(TextOrder, newDict, oldDict[component]);
        DictIndex(newDict, found, IdOf(newDict, oldDict[component]));
        remapped := remapped.(component := found);
      }
      events := events + [Row(remapped, base[k].count)];
    }
    assert events == Relabelled(base, oldDict, newDict);
    r := SortReduceBase(events);
  }

  // ---------------------------------------------------------------- back from a block

  ghost predicate BlockInRange(block: CubeBlock) {
    && IsDict(block.dict)
    && (forall r :: r in block.base ==> r.componentId == STAR || r.componentId < |block.dict|)
    && (forall c :: c in block.cells && c.coord.path.Some? && c.coord.path.value != [] ==>
          c.coord.path.value[|c.coord.path.value| - 1] != [])
    && |Leaves(block)| <= STAR
  }

  function RowOfRetained(r: CubeBaseRow): Row { Row(Cell(r.level, r.componentId, r.role, STAR), r.count) }

  function RowsOfRetained(base: seq<CubeBaseRow>): (rows: seq<Row>)
    ensures |rows| == |base| && forall i :: 0 <= i < |rows| ==> rows[i] == RowOfRetained(base[i])
  {
    seq(|base|, i requires 0 <= i < |base| => RowOfRetained(base[i]))
  }

  function Leaf(c: CubeCell): Option<Text> {
    if c.coord.path.Some? && c.coord.path.value != [] then Some(c.coord.path.value[|c.coord.path.value| - 1]) else None
  }

  /** The component leaves a block's closed cells name. */
  ghost function Leaves(block: CubeBlock): set<Text> { LeavesOf(block.cells) }

  ghost function LeavesOf(cells: seq<CubeCell>): set<Text> { set c | c in cells && Leaf(c).Some? :: Leaf(c).value }

  lemma LeavesSnoc(cells: seq<CubeCell>, c: CubeCell)
    ensures LeavesOf(cells + [c]) == LeavesOf(cells) + if Leaf(c).Some? then {Leaf(c).value} else {}
  {
    assert forall x :: x in cells + [c] <==> x in cells || x == c;
    assert Leaf(c).Some? ==> Leaf(c).value in LeavesOf(cells + [c]) by { assert c in cells + [c]; }
  }

  ghost function LeafDict(block: CubeBlock): (labels: seq<Text>)
    ensures Ascending(TextOrder, labels) && Elements(labels) == Leaves(block) && |labels| == |Leaves(block)|
  {
    TextOrderIsTotal();
    SortedOf(TextOrder, Leaves(block))
  }

  ghost function InternalCells(block: CubeBlock, labels: seq<Text>): (rows: seq<Row>)
    requires |labels| <= STAR
    ensures |rows| == |block.cells|
    ensures forall i :: 0 <= i < |rows| ==> rows[i] == Row(CellOf(block.cells[i].coord, labels), block.cells[i].count)
  {
    seq(|block.cells|, i requires 0 <= i < |block.cells| =>
        Row(CellOf(block.cells[i].coord, labels), block.cells[i].count))
  }

  /** The interned base of a block: the retained one, or the one its closed cells give back. */
  ghost function InternedBase(block: CubeBlock): (seq<Row>, seq<Text>)
    requires BlockInRange(block)
  {
    if block.base != [] then (Reduced(RowsOfRetained(block.base)), block.dict)
    else (Recovered(InternalCells(block, LeafDict(block))), LeafDict(block))
  }

  method InternedBaseOf(block: CubeBlock) returns (base: seq<Row>, labels: seq<Text>)
    requires BlockInRange(block)
    ensures (base, labels) == InternedBase(block)
  {
    hide Reduced, Recovered;
    if block.base != [] {
      var events: seq<Row> := [];
      for k := 0 to |block.base|
        invariant events == RowsOfRetained(block.base[..k])
      {
        var row := block.base[k];
        events := events + [Row(Cell(row.level, row.componentId, row.role, STAR), row.count)];
      }
      assert block.base[..|block.base|] == block.base;
      base := SortReduceBase(events);
      labels := block.dict;
    } else {
      labels := LabelsOfBlock(block);
      var closed := InternalCellsOf(block, labels);
      base := RecoverBase(closed);
    }
  }

  method LabelsOfBlock(block: CubeBlock) returns (labels: seq<Text>)
    ensures labels == LeafDict(block)
  {
    var leaves: seq<Text> := [];
    for k := 0 to |block.cells|
      invariant Elements(leaves) == LeavesOf(block.cells[..k])
    {
      var cell := block.cells[k];
      assert block.cells[..k + 1] == block.cells[..k] + [cell];
      LeavesSnoc(block.cells[..k], cell);
      if cell.coord.path.Some? && cell.coord.path.value != [] {
        assert Elements(leaves + [Leaf(cell).value]) == Elements(leaves) + {Leaf(cell).value};
        leaves := leaves + [cell.coord.path.value[|cell.coord.path.value| - 1]];
      }
    }
    assert block.cells[..|block.cells|] == block.cells;
    TextOrderIsTotal();
    labels := SortedSet(TextOrder, leaves);
    SortedOfUnique(TextOrder, labels, Leaves(block));
  }

  method InternalCellsOf(block: CubeBlock, labels: seq<Text>) returns (rows: seq<Row>)
    requires IsDict(labels)
    ensures rows == InternalCells(block, labels)
  {
    rows := [];
    for k := 0 to |block.cells|
      invariant |rows| == k
      invariant forall i :: 0 <= i < k ==> rows[i] == Row(CellOf(block.cells[i].coord, labels), block.cells[i].count)
    {
      rows := rows + [Row(CellOf(block.cells[k].coord, labels), block.cells[k].count)];
    }
  }
}
