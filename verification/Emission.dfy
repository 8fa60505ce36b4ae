/** Closing a base into a block and retaining the interned base on it. */
module Emission {
  import opened Options
  import opened Orders
  import opened Bytes
  import opened Cells
  import opened Bases
  import opened Closure
  import opened Population
  import opened ClosedCube
  import opened Collapse
  import opened Blocks

  ghost predicate Closing(base: seq<Row>, c: Cell) { IsClosed(base, c) }

  ghost function ClosedIn(base: seq<Row>): Cell -> bool { c => Closing(base, c) }

  /** The entries of a populated cube that are their own closure. */
  function Kept(cube: seq<PopulatedCell>): seq<Row> {
    if cube == [] then []
    else
      var front, last := Kept(cube[..|cube| - 1]), cube[|cube| - 1];
      if last.closure == last.cell then front + [Row(last.cell, last.count)] else front
  }

  lemma {:induction false} KeptIsSelect(cube: seq<PopulatedCell>, base: seq<Row>)
    requires forall p :: p in cube ==> IsAggregate(p, base)
    ensures Kept(cube) == Select(CubeRows(cube), ClosedIn(base))
  {
    if cube != [] {
      var front, last := cube[..|cube| - 1], cube[|cube| - 1];
      assert forall p :: p in front ==> p in cube;
      KeptIsSelect(front, base);
      var rows := CubeRows(cube);
      assert rows[..|rows| - 1] == CubeRows(front) && rows[|rows| - 1] == Row(last.cell, last.count);
      assert last in cube && IsAggregate(last, base);
    }
  }

  lemma AggregatesOf(base: seq<Row>)
    ensures forall p :: p in Populated(base) ==> IsAggregate(p, base)
    ensures Support(CubeRows(Populated(base))) == Generalizations(Support(base))
        && CanonicalRows(CubeRows(Populated(base)))
    ensures forall r :: r in CubeRows(Populated(base)) ==> r.count == Count(base, r.cell)
  {
    var cube := Populated(base);
    var rows := CubeRows(cube);
    assert CellsOf(rows) == CubeCells(cube);
    SupportOfCells(rows);
  }

  lemma KeptSupport(base: seq<Row>, c: Cell)
    ensures c in Support(Select(CubeRows(Populated(base)), ClosedIn(base))) <==> c in ClosedCells(base)
  {
    AggregatesOf(base);
    SupportOfSelect(CubeRows(Populated(base)), ClosedIn(base), c);
    ClosedIsGeneralization(base, c);
    GeneralizationsAre(Support(base), c);
  }

  /** Keeping the cells equal to their own closure keeps exactly the closed cells. */
  lemma KeptAreClosed(base: seq<Row>)
    ensures Kept(Populated(base)) == ClosedRows(base)
  {
    hide Populated, ClosedRows, Kept, Select, ClosedCells;
    var rows := CubeRows(Populated(base));
    var kept := Select(rows, ClosedIn(base));
    AggregatesOf(base);
    KeptIsSelect(Populated(base), base);
    SelectCanonical(rows, ClosedIn(base));
    forall c ensures c in Support(kept) <==> c in ClosedCells(base) { KeptSupport(base, c); }
    forall x, y | x in kept && y in ClosedRows(base) && x.cell == y.cell ensures x.count == y.count {
      SelectTotal(rows, ClosedIn(base), ClosedIn(base));
      ClosedRowCount(base, y);
    }
    CanonicalUnique(kept, ClosedRows(base));
  }

  /** Generalizations name no component the base does not. */
  lemma PopulatedInRange(base: seq<Row>, n: nat)
    requires RowsInRange(base, n)
    ensures forall p :: p in Populated(base) ==> InRange(p.cell, n)
    ensures RowsInRange(ClosedRows(base), n)
  {
    forall c | Covered(Support(base), c) != {} ensures InRange(c, n) {
      var t :| t in Covered(Support(base), c);
      var r :| r in base && r.cell == t;
    }
    forall p | p in Populated(base) ensures InRange(p.cell, n) {
      var i :| 0 <= i < |Populated(base)| && Populated(base)[i] == p;
      assert IsAggregate(p, base);
    }
    forall r | r in ClosedRows(base) ensures InRange(r.cell, n) {
      assert r.cell in Support(ClosedRows(base));
      ClosedIsGeneralization(base, r.cell);
    }
  }

  ghost function CoordRows(rows: seq<Row>, labels: seq<Text>): (cells: seq<CubeCell>)
    requires RowsInRange(rows, |labels|)
    ensures |cells| == |rows|
    ensures forall i :: 0 <= i < |rows| ==>
        rows[i] in rows && cells[i] == CubeCell(CoordOf(rows[i].cell, labels), rows[i].count)
  {
    seq(|rows|, i requires 0 <= i < |rows| =>
        assert rows[i] in rows; CubeCell(CoordOf(rows[i].cell, labels), rows[i].count))
  }

  /** The block of a base before anything is retained on it or stamped. */
  ghost function Emitted(base: seq<Row>, labels: seq<Text>): CubeBlock
    requires RowsInRange(base, |labels|)
  {
    PopulatedInRange(base, |labels|);
    CubeBlock(REFERENCE_AXES, CoordRows(ClosedRows(base), labels), |ClosedRows(base)|, |Populated(base)|, None, [], [])
  }

  method CloseAndEmit(base: seq<Row>, labels: seq<Text>) returns (block: CubeBlock)
    requires RowsInRange(base, |labels|)
    ensures block == Emitted(base, labels)
  {
    var cube := Populate(base);
    PopulatedInRange(base, |labels|);
    KeptAreClosed(base);
    var cells := EmitCells(cube, labels);
    var paths := WherePathsOf(cells);
    FlatChainIsTree(paths);
    var tree := WhereChainIsTree(paths);
    if !tree {
      assert false;
    }
    block := CubeBlock(REFERENCE_AXES, cells, |cells|, |cube|, None, [], []);
  }

  /** close_and_emit's loop: the closed cells leave as coordinates in the cube's own order. */
  method EmitCells(cube: seq<PopulatedCell>, labels: seq<Text>) returns (cells: seq<CubeCell>)
    requires forall p :: p in cube ==> InRange(p.cell, |labels|)
    ensures RowsInRange(Kept(cube), |labels|) && cells == CoordRows(Kept(cube), labels)
    ensures forall c :: c in cells && c.coord.path.Some? ==> |c.coord.path.value| == 1
  {
    cells := [];
    for k := 0 to |cube|
      invariant RowsInRange(Kept(cube[..k]), |labels|)
      invariant cells == CoordRows(Kept(cube[..k]), labels)
      invariant forall c :: c in cells && c.coord.path.Some? ==> |c.coord.path.value| == 1
    {
      assert cube[..k + 1][..k] == cube[..k];
      assert cube[k] in cube;
      if cube[k].closure == cube[k].cell {
        cells := cells + [CubeCell(CoordOf(cube[k].cell, labels), cube[k].count)];
      }
    }
    assert cube[..|cube|] == cube;
  }

  method WherePathsOf(cells: seq<CubeCell>) returns (paths: seq<seq<Text>>)
    requires forall c :: c in cells && c.coord.path.Some? ==> |c.coord.path.value| == 1
    ensures forall p :: p in paths ==> |p| == 1
  {
    paths := [];
    for k := 0 to |cells|
      invariant forall p :: p in paths ==> |p| == 1
    {
      if cells[k].coord.path.Some? && cells[k].coord.path.value != [] {
        paths := paths + [cells[k].coord.path.value];
      }
    }
  }

  /** A depth-one chain is always a tree: the check that would refuse a cube cannot fail. */
  lemma FlatChainIsTree(paths: seq<seq<Text>>)
    requires forall p :: p in paths ==> |p| == 1
    ensures IsTree(paths)
  {
    forall i, j, d | 0 <= i < |paths| && 0 <= j < |paths| && 0 <= d < |paths[i]| && d < |paths[j]|
        && paths[i][d] == paths[j][d]
      ensures ParentAt(paths[i], d) == ParentAt(paths[j], d)
    {
      assert paths[i] in paths;
    }
  }

  // ---------------------------------------------------------------- retention

  /** Which dictionary entries a base refers to. */
  ghost function Flags(base: seq<Row>, n: nat): (flags: seq<bool>)
    ensures |flags| == n
    ensures forall i :: 0 <= i < n ==> flags[i] == exists r :: r in base && r.cell.component == i
  {
    seq(n, i requires 0 <= i < n => exists r :: r in base && r.cell.component == i)
  }

  function Rank(flags: seq<bool>, n: nat): (rank: nat)
    requires n <= |flags|
    ensures rank <= n
  {
    if n == 0 then 0 else Rank(flags, n - 1) + if flags[n - 1] then 1 else 0
  }

  function Chosen(labels: seq<Text>, flags: seq<bool>, n: nat): (dict: seq<Text>)
    requires n <= |flags| && n <= |labels|
    ensures |dict| == Rank(flags, n)
  {
    if n == 0 then []
    else if flags[n - 1] then Chosen(labels, flags, n - 1) + [labels[n - 1]]
    else Chosen(labels, flags, n - 1)
  }

  function RetainedId(flags: seq<bool>, id: Id): Id
    requires |flags| <= STAR && (id == STAR || id < |flags|)
  {
    if id == STAR then STAR else Rank(flags, id)
  }

  function RetainedRow(flags: seq<bool>, r: Row): CubeBaseRow
    requires |flags| <= STAR && InRange(r.cell, |flags|)
  {
    CubeBaseRow(r.cell.level, RetainedId(flags, r.cell.component), r.cell.role, r.count)
  }

  ghost function RetainedRows(base: seq<Row>, flags: seq<bool>): (rows: seq<CubeBaseRow>)
    requires |flags| <= STAR && RowsInRange(base, |flags|)
    ensures |rows| == |base|
    ensures forall i :: 0 <= i < |rows| ==> base[i] in base && rows[i] == RetainedRow(flags, base[i])
  {
    seq(|base|, i requires 0 <= i < |base| => assert base[i] in base; RetainedRow(flags, base[i]))
  }

  ghost function Retained(block: CubeBlock, base: seq<Row>, labels: seq<Text>): CubeBlock
    requires |labels| <= STAR && RowsInRange(base, |labels|)
  {
    var flags := Flags(base, |labels|);
    block.(base := RetainedRows(base, flags), dict := Chosen(labels, flags, |labels|))
  }

  method RetainBase(block: CubeBlock, base: seq<Row>, labels: seq<Text>) returns (out: CubeBlock)
    requires |labels| <= STAR && RowsInRange(base, |labels|)
    ensures out == Retained(block, base, labels)
  {
    var referenced := MarkReferenced(base, |labels|);
    var dict, retainedId := AssignIds(labels, referenced);
    ghost var flags := Flags(base, |labels|);
    var rows: seq<CubeBaseRow> := [];
    for k := 0 to |base|
      invariant |rows| == k && forall i :: 0 <= i < k ==> base[i] in base && rows[i] == RetainedRow(flags, base[i])
    {
      assert base[k] in base;
      var c := base[k].cell;
      assert c.component != STAR ==> flags[c.component];
      rows := rows + [CubeBaseRow(c.level, if c.component != STAR then retainedId[c.component] else STAR, c.role,
                                  base[k].count)];
    }
    assert rows == RetainedRows(base, flags);
    out := block.(base := rows, dict := dict);
  }

  /** retain_base's first loop: a flag per dictionary entry. */
  method MarkReferenced(base: seq<Row>, n: nat) returns (referenced: array<bool>)
    requires n <= STAR && RowsInRange(base, n)
    ensures fresh(referenced) && referenced[..] == Flags(base, n)
  {
    referenced := new bool[n](_ => false);
    for k := 0 to |base|
      invariant forall i :: 0 <= i < n ==> referenced[i] == exists r :: r in base[..k] && r.cell.component == i
    {
      assert base[k] in base;
      assert forall r :: r in base[..k + 1] <==> r in base[..k] || r == base[k];
      var component := base[k].cell.component;
      if component != STAR {
        referenced[component] := true;
      }
    }
    assert base[..|base|] == base;
  }

  /** retain_base's second loop: the referenced labels, renumbered in order. */
  method AssignIds(labels: seq<Text>, referenced: array<bool>) returns (dict: seq<Text>, retainedId: array<Id>)
    requires |labels| <= STAR && referenced.Length == |labels|
    ensures fresh(retainedId) && retainedId.Length == |labels|
    ensures dict == Chosen(labels, referenced[..], |labels|)
    ensures forall i :: 0 <= i < |labels| && referenced[i] ==> retainedId[i] == Rank(referenced[..], i)
  {
    retainedId := new Id[|labels|](_ => STAR);
    dict := [];
    ghost var flags := referenced[..];
    for index := 0 to |labels|
      invariant referenced[..] == flags
      invariant dict == Chosen(labels, flags, index)
      invariant forall i :: 0 <= i < index && flags[i] ==> retainedId[i] == Rank(flags, i)
    {
      if referenced[index] {
        retainedId[index] := |dict|;
        dict := dict + [labels[index]];
      }
    }
  }
}
