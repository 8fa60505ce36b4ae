/** The border of an emergent region: the cells absent before and present now, told by their most
    general and most specific members. */
module Border {
  import opened Orders
  import opened Bytes
  import opened Cells
  import opened Bases
  import opened Closure
  import opened Population
  import opened ClosedCube
  import opened Blocks

  const THETA_WAS: nat := 0
  const THETA_NOW: nat := 1

  ghost predicate Emergent(anti: seq<Row>, mono: seq<Row>, c: Cell) {
    Count(anti, c) <= THETA_WAS && Count(mono, c) >= THETA_NOW
  }

  ghost function EmergentCells(anti: seq<Row>, mono: seq<Row>): set<Cell> {
    set c | c in Generalizations(Support(mono)) && Emergent(anti, mono, c)
  }

  lemma EmergentIsPopulated(anti: seq<Row>, mono: seq<Row>, c: Cell)
    ensures c in EmergentCells(anti, mono) <==> Emergent(anti, mono, c)
  {
    GeneralizationsAre(Support(mono), c);
    if Emergent(anti, mono, c) && Covered(Support(mono), c) == {} {
      CountOfUncovered(mono, c);
    }
  }

  /** The emergent region is convex: between two emergent cells every cell is emergent. */
  lemma EmergentIsConvex(anti: seq<Row>, mono: seq<Row>, g: Cell, m: Cell, c: Cell)
    requires Emergent(anti, mono, g) && Emergent(anti, mono, c) && IsAncestor(g, m) && IsAncestor(m, c)
    ensures Emergent(anti, mono, m)
  {
    CountAntitone(anti, g, m);
    CountAntitone(mono, m, c);
  }

  // ---------------------------------------------------------------- the two antichains

  ghost predicate IsUpper(e: set<Cell>, c: Cell) {
    c in e && forall g {:trigger IsAncestor(g, c)} :: g in e && IsAncestor(g, c) ==> g == c
  }

  ghost predicate IsLower(e: set<Cell>, c: Cell) {
    c in e && forall k {:trigger IsAncestor(c, k)} :: k in e && IsAncestor(c, k) ==> k == c
  }

  /** The most general cells of a region, and its most specific ones. */
  ghost function UpperCells(e: set<Cell>): set<Cell> { set c | c in e && IsUpper(e, c) }

  ghost function LowerCells(e: set<Cell>): set<Cell> { set c | c in e && IsLower(e, c) }

  lemma {:induction false} UpperAbove(e: set<Cell>, c: Cell) returns (u: Cell)
    requires c in e
    ensures IsUpper(e, u) && IsAncestor(u, c)
    decreases c.PinnedCount()
  {
    if IsUpper(e, c) {
      u := c;
    } else {
      var g :| g in e && IsAncestor(g, c) && g != c;
      ProperAncestor(g, c);
      u := UpperAbove(e, g);
      AncestorOrder(u, g, c);
    }
  }

  lemma {:induction false} LowerBelow(e: set<Cell>, c: Cell) returns (l: Cell)
    requires c in e
    ensures IsLower(e, l) && IsAncestor(c, l)
    decreases 4 - c.PinnedCount()
  {
    if IsLower(e, c) {
      l := c;
    } else {
      var k :| k in e && IsAncestor(c, k) && k != c;
      ProperAncestor(c, k);
      l := LowerBelow(e, k);
      AncestorOrder(c, k, l);
    }
  }

  /** The border determines the region: a cell is emergent exactly when it lies between some upper
      and some lower member, and neither side holds two comparable cells. */
  lemma BorderDeterminesRegion(anti: seq<Row>, mono: seq<Row>, c: Cell)
    ensures var e := EmergentCells(anti, mono);
            && (Emergent(anti, mono, c) <==>
                  exists u, l :: u in UpperCells(e) && l in LowerCells(e) && IsAncestor(u, c) && IsAncestor(c, l))
            && (forall a, b :: a in UpperCells(e) && b in UpperCells(e) && IsAncestor(a, b) ==> a == b)
            && (forall a, b :: a in LowerCells(e) && b in LowerCells(e) && IsAncestor(a, b) ==> a == b)
  {
    var e := EmergentCells(anti, mono);
    EmergentIsPopulated(anti, mono, c);
    if c in e {
      var u := UpperAbove(e, c);
      var l := LowerBelow(e, c);
      assert u in UpperCells(e) && l in LowerCells(e);
    }
    if u, l :| u in UpperCells(e) && l in LowerCells(e) && IsAncestor(u, c) && IsAncestor(c, l) {
      EmergentIsPopulated(anti, mono, u);
      EmergentIsPopulated(anti, mono, l);
      EmergentIsConvex(anti, mono, u, c, l);
    }
  }

  // ---------------------------------------------------------------- one step is enough

  ghost predicate HasParent(e: set<Cell>, c: Cell) { exists d: Dim :: c.Pinned(d) && c.With(d, STAR) in e }

  ghost predicate IsParentOf(p: Cell, k: Cell) { exists d: Dim :: k.Pinned(d) && k.With(d, STAR) == p }

  ghost predicate HasChild(e: set<Cell>, c: Cell) { exists k :: k in e && IsParentOf(c, k) }

  lemma ParentIsAncestor(c: Cell, d: Dim)
    requires c.Pinned(d)
    ensures IsAncestor(c.With(d, STAR), c) && c.With(d, STAR) != c
  {}

  lemma ParentDecides(anti: seq<Row>, mono: seq<Row>, c: Cell)
    requires c in EmergentCells(anti, mono)
    ensures HasParent(EmergentCells(anti, mono), c) <==> !IsUpper(EmergentCells(anti, mono), c)
  {
    var e := EmergentCells(anti, mono);
    EmergentIsPopulated(anti, mono, c);
    hide EmergentCells, Emergent;
    if HasParent(e, c) {
      var d: Dim :| c.Pinned(d) && c.With(d, STAR) in e;
      ParentIsAncestor(c, d);
    }
    if !IsUpper(e, c) {
      var g :| g in e && IsAncestor(g, c) && g != c;
      var d := StepBetween(g, c);
      EmergentIsPopulated(anti, mono, g);
      EmergentIsConvex(anti, mono, g, c.With(d, STAR), c);
      EmergentIsPopulated(anti, mono, c.With(d, STAR));
    }
  }

  lemma ChildDecides(anti: seq<Row>, mono: seq<Row>, c: Cell)
    requires c in EmergentCells(anti, mono)
    ensures HasChild(EmergentCells(anti, mono), c) <==> !IsLower(EmergentCells(anti, mono), c)
  {
    var e := EmergentCells(anti, mono);
    EmergentIsPopulated(anti, mono, c);
    hide EmergentCells, Emergent;
    if HasChild(e, c) {
      var k :| k in e && IsParentOf(c, k);
      var d: Dim :| k.Pinned(d) && k.With(d, STAR) == c;
      ParentIsAncestor(k, d);
    }
    if !IsLower(e, c) {
      var k :| k in e && IsAncestor(c, k) && k != c;
      var d := StepBetween(c, k);
      var child := c.With(d, k.At(d));
      EmergentIsPopulated(anti, mono, k);
      EmergentIsConvex(anti, mono, c, child, k);
      EmergentIsPopulated(anti, mono, child);
      ChildStep(c, k, d);
    }
  }

  lemma ChildStep(c: Cell, k: Cell, d: Dim)
    requires k.Pinned(d) && c.With(d, k.At(d)).With(d, STAR) == c
    ensures IsParentOf(c, c.With(d, k.At(d)))
  {
    assert c.With(d, k.At(d)).Pinned(d);
  }

  /** Because the region is convex, an emergent cell has a more general emergent cell exactly when
      one of its one-step parents is emergent, and dually for children. */
  lemma OneStepDecides(anti: seq<Row>, mono: seq<Row>, c: Cell)
    requires c in EmergentCells(anti, mono)
    ensures var e := EmergentCells(anti, mono);
            (HasParent(e, c) <==> !IsUpper(e, c)) && (HasChild(e, c) <==> !IsLower(e, c))
  {
    ParentDecides(anti, mono, c);
    ChildDecides(anti, mono, c);
  }

  // ---------------------------------------------------------------- the border as emitted

  datatype CubeBorderCell = CubeBorderCell(coord: CubeCoord, previousCount: nat, currentCount: nat)

  datatype CubeBorder = CubeBorder(lower: seq<CubeBorderCell>, upper: seq<CubeBorderCell>)

  ghost predicate CellsInRange(cells: seq<Cell>, n: nat) { forall c :: c in cells ==> InRange(c, n) }

  function BorderCell(c: Cell, previous: seq<Row>, current: seq<Row>, labels: seq<Text>): CubeBorderCell
    requires InRange(c, |labels|)
  {
    CubeBorderCell(CoordOf(c, labels), Count(previous, c), Count(current, c))
  }

  ghost function BorderCells(cells: seq<Cell>, previous: seq<Row>, current: seq<Row>,
                             labels: seq<Text>): (r: seq<CubeBorderCell>)
    requires CellsInRange(cells, |labels|)
    ensures |r| == |cells|
    ensures forall i :: 0 <= i < |r| ==> cells[i] in cells && r[i] == BorderCell(cells[i], previous, current, labels)
  {
    seq(|cells|, i requires 0 <= i < |cells| =>
        assert cells[i] in cells; BorderCell(cells[i], previous, current, labels))
  }

  ghost function InOrder(s: set<Cell>): (cells: seq<Cell>)
    ensures Ascending(CanonicalOrder, cells) && Elements(cells) == s
  {
    CanonicalOrderIsTotal();
    SortedOf(CanonicalOrder, s)
  }

  lemma EmergentInRange(anti: seq<Row>, mono: seq<Row>, n: nat, s: set<Cell>)
    requires RowsInRange(mono, n) && s <= EmergentCells(anti, mono)
    ensures CellsInRange(InOrder(s), n)
  {
    forall c | c in InOrder(s) ensures InRange(c, n) {
      assert c in Elements(InOrder(s));
      GeneralizationsAre(Support(mono), c);
      var t :| t in Covered(Support(mono), c);
      var r :| r in mono && r.cell == t;
    }
  }

  ghost function BorderOf(anti: seq<Row>, mono: seq<Row>, previous: seq<Row>, current: seq<Row>,
                          labels: seq<Text>): CubeBorder
    requires RowsInRange(mono, |labels|)
  {
    var e := EmergentCells(anti, mono);
    EmergentInRange(anti, mono, |labels|, LowerCells(e));
    EmergentInRange(anti, mono, |labels|, UpperCells(e));
    CubeBorder(BorderCells(InOrder(LowerCells(e)), previous, current, labels),
               BorderCells(InOrder(UpperCells(e)), previous, current, labels))
  }

  // ---------------------------------------------------------------- the algorithm

  method CountIn(cube: seq<PopulatedCell>, cell: Cell, ghost base: seq<Row>) returns (n: nat)
    requires IsPopulated(cube, base)
    ensures n == Count(base, cell)
  {
    CanonicalOrderIsTotal();
    var found := LowerBound(CanonicalOrder, CubeCells(cube), cell);
    GeneralizationsAre(Support(base), cell);
    assert cell in CubeCells(cube) <==> cell in Elements(CubeCells(cube));
    if found != |cube| && cube[found].cell == cell {
      assert IsAggregate(cube[found], base);
      return cube[found].count;
    }
    CountOfUncovered(base, cell);
    return 0;
  }

  /** The emergent members of the current cube, in its order. */
  method CollectEmergent(anti: seq<PopulatedCell>, mono: seq<PopulatedCell>, ghost antiBase: seq<Row>,
                         ghost monoBase: seq<Row>)
    returns (cells: seq<Cell>)
    requires IsPopulated(anti, antiBase) && IsPopulated(mono, monoBase)
    ensures cells == InOrder(EmergentCells(antiBase, monoBase))
  {
    ghost var e := EmergentCells(antiBase, monoBase);
    ghost var all := CubeCells(mono);
    cells := [];
    for k := 0 to |mono|
      invariant Ascending(CanonicalOrder, cells)
      invariant Elements(cells) == Elements(all[..k]) * e
      invariant k < |mono| ==> forall i :: 0 <= i < |cells| ==> Precedes(cells[i], all[k])
    {
      var c := mono[k].cell;
      var was := CountIn(anti, c, antiBase);
      var now := CountIn(mono, c, monoBase);
      EmergentIsPopulated(antiBase, monoBase, c);
      assert all[..k + 1] == all[..k] + [c];
      assert Elements(all[..k + 1]) == Elements(all[..k]) + {c};
      ghost var before := cells;
      if was <= THETA_WAS && now >= THETA_NOW {
        cells := cells + [c];
        assert Elements(cells) == Elements(before) + {c};
      }
      if k + 1 < |mono| {
        assert CanonicalOrder(all[k], all[k + 1]);
        forall i | 0 <= i < |cells| ensures Precedes(cells[i], all[k + 1]) {
          if i < |before| { PrecedesTransitive(before[i], all[k], all[k + 1]); }
        }
      }
    }
    assert all[..|mono|] == all;
    assert Elements(cells) == e by {
      assert e <= Elements(all);
    }
    CanonicalOrderIsTotal();
    AscendingUnique(CanonicalOrder, cells, InOrder(e));
  }

  /** A step looked at: cell `k`'s parent along the `j`th dimension is the `t`th cell. */
  ghost predicate StepTo(cells: seq<Cell>, k: nat, j: nat, t: nat) {
    k < |cells| && t < |cells| && j < |DIMS| && cells[k].Pinned(DIMS[j]) && cells[k].With(DIMS[j], STAR) == cells[t]
  }

  ghost predicate Before(k: nat, j: nat, i: nat, dim: nat) { k < i || (k == i && j < dim) }

  ghost predicate Flagged(hasParent: seq<bool>, hasChild: seq<bool>, cells: seq<Cell>, i: nat, dim: nat) {
    && |hasParent| == |cells| == |hasChild|
    && (forall k: nat :: k < |cells| ==> hasParent[k] == ParentSeen(cells, k, i, dim))
    && (forall t: nat :: t < |cells| ==> hasChild[t] == ChildSeen(cells, t, i, dim))
  }

  ghost predicate ParentSeen(cells: seq<Cell>, k: nat, i: nat, dim: nat) {
    exists j: nat, t: nat :: StepTo(cells, k, j, t) && Before(k, j, i, dim)
  }

  ghost predicate ChildSeen(cells: seq<Cell>, t: nat, i: nat, dim: nat) {
    exists k: nat, j: nat :: StepTo(cells, k, j, t) && Before(k, j, i, dim)
  }

  /** Each emergent cell looks up its one-step parents among the emergent cells. */
  method LinkParents(cells: seq<Cell>) returns (hasParent: array<bool>, hasChild: array<bool>)
    requires Ascending(CanonicalOrder, cells)
    ensures fresh(hasParent) && fresh(hasChild)
    ensures Flagged(hasParent[..], hasChild[..], cells, |cells|, 0)
  {
    hasParent := new bool[|cells|](_ => false);
    hasChild := new bool[|cells|](_ => false);
    NoneSeen(hasParent[..], hasChild[..], cells);
    hide Flagged, ParentSeen, ChildSeen, Ascending;
    for i := 0 to |cells|
      invariant hasParent.Length == |cells| == hasChild.Length
      invariant Flagged(hasParent[..], hasChild[..], cells, i, 0)
    {
      for dim := 0 to |DIMS|
        invariant hasParent.Length == |cells| == hasChild.Length
        invariant Flagged(hasParent[..], hasChild[..], cells, i, dim)
      {
        LookUpParent(cells, i, dim, hasParent, hasChild);
      }
      NextCell(hasParent[..], hasChild[..], cells, i);
    }
  }

  /** Cell `i`'s parent along one dimension, flagged on both sides when it is emergent too. */
  method LookUpParent(cells: seq<Cell>, i: nat, dim: nat, hasParent: array<bool>, hasChild: array<bool>)
    requires Ascending(CanonicalOrder, cells) && i < |cells| && dim < |DIMS|
    requires hasParent != hasChild && hasParent.Length == |cells| == hasChild.Length
    requires Flagged(hasParent[..], hasChild[..], cells, i, dim)
    modifies hasParent, hasChild
    ensures Flagged(hasParent[..], hasChild[..], cells, i, dim + 1)
  {
    CanonicalOrderIsTotal();
    AscendingIsSorted(CanonicalOrder, cells);
    hide Flagged;
    ghost var parents, children := hasParent[..], hasChild[..];
    var d := DIMS[dim];
    if cells[i].Pinned(d) {
      var parent := cells[i].With(d, STAR);
      var found := LowerBound(CanonicalOrder, cells, parent);
      if found != |cells| && cells[found] == parent {
        hasParent[i] := true;
        hasChild[found] := true;
        LinkStep(parents, children, cells, i, dim, found);
        assert hasParent[..] == parents[i := true] && hasChild[..] == children[found := true];
        return;
      }
    }
    NoLinkStep(parents, children, cells, i, dim);
  }

  lemma NoneSeen(parents: seq<bool>, children: seq<bool>, cells: seq<Cell>)
    requires |parents| == |cells| == |children| && forall k :: 0 <= k < |cells| ==> !parents[k] && !children[k]
    ensures Flagged(parents, children, cells, 0, 0)
  {}

  lemma LinkStep(parents: seq<bool>, children: seq<bool>, cells: seq<Cell>, i: nat, dim: nat, found: nat)
    requires Flagged(parents, children, cells, i, dim) && StepTo(cells, i, dim, found) && NoDuplicates(cells)
    ensures Flagged(parents[i := true], children[found := true], cells, i, dim + 1)
  {
    var parents', children' := parents[i := true], children[found := true];
    forall k: nat | k < |cells| ensures parents'[k] == ParentSeen(cells, k, i, dim + 1) {
      if k == i { assert Before(i, dim, i, dim + 1); }
    }
    forall t: nat | t < |cells| ensures children'[t] == ChildSeen(cells, t, i, dim + 1) {
      if t == found { assert Before(i, dim, i, dim + 1); }
    }
  }

  lemma NoLinkStep(parents: seq<bool>, children: seq<bool>, cells: seq<Cell>, i: nat, dim: nat)
    requires Flagged(parents, children, cells, i, dim) && forall t: nat :: !StepTo(cells, i, dim, t)
    ensures Flagged(parents, children, cells, i, dim + 1)
  {
    forall k: nat | k < |cells| ensures parents[k] == ParentSeen(cells, k, i, dim + 1) {}
    forall t: nat | t < |cells| ensures children[t] == ChildSeen(cells, t, i, dim + 1) {}
  }

  lemma NextCell(parents: seq<bool>, children: seq<bool>, cells: seq<Cell>, i: nat)
    requires Flagged(parents, children, cells, i, |DIMS|)
    ensures Flagged(parents, children, cells, i + 1, 0)
  {
    forall k: nat | k < |cells| ensures parents[k] == ParentSeen(cells, k, i + 1, 0) {}
    forall t: nat | t < |cells| ensures children[t] == ChildSeen(cells, t, i + 1, 0) {}
  }

  /** The flags are exactly the one-step relations among the collected cells. */
  lemma FlagsAreLinks(parents: seq<bool>, children: seq<bool>, cells: seq<Cell>, i: nat)
    requires Flagged(parents, children, cells, |cells|, 0) && i < |cells|
    ensures parents[i] == HasParent(Elements(cells), cells[i]) && children[i] == HasChild(Elements(cells), cells[i])
  {
    assert parents[i] == ParentSeen(cells, i, |cells|, 0);
    assert children[i] == ChildSeen(cells, i, |cells|, 0);
    if HasParent(Elements(cells), cells[i]) {
      var d: Dim :| cells[i].Pinned(d) && cells[i].With(d, STAR) in Elements(cells);
      var t: nat :| t < |cells| && cells[t] == cells[i].With(d, STAR);
      var j := Position(d);
      assert StepTo(cells, i, j, t) && Before(i, j, |cells|, 0);
    }
    if HasChild(Elements(cells), cells[i]) {
      var k :| k in Elements(cells) && IsParentOf(cells[i], k);
      var d: Dim :| k.Pinned(d) && k.With(d, STAR) == cells[i];
      var n: nat :| n < |cells| && cells[n] == k;
      var j := Position(d);
      assert StepTo(cells, n, j, i) && Before(n, j, |cells|, 0);
    }
    if n: nat, j: nat :| StepTo(cells, n, j, i) && Before(n, j, |cells|, 0) {
      assert cells[n] in Elements(cells) && IsParentOf(cells[i], cells[n]);
    }
  }

  function Position(d: Dim): (j: nat)
    ensures j < |DIMS| && DIMS[j] == d
  {
    match d
    case Level => 0
    case Where => 1
    case Role => 2
    case LatencyShift => 3
  }

  /** The cells whose flag is clear. */
  function Clear(cells: seq<Cell>, flags: seq<bool>, n: nat): seq<Cell>
    requires n <= |cells| && n <= |flags|
  {
    if n == 0 then []
    else if flags[n - 1] then Clear(cells, flags, n - 1) else Clear(cells, flags, n - 1) + [cells[n - 1]]
  }

  lemma {:induction false} ClearIs(cells: seq<Cell>, flags: seq<bool>, n: nat)
    requires n <= |cells| && n <= |flags| && Ascending(CanonicalOrder, cells)
    ensures Ascending(CanonicalOrder, Clear(cells, flags, n))
    ensures forall c :: c in Clear(cells, flags, n) <==> exists i :: 0 <= i < n && cells[i] == c && !flags[i]
  {
    if n > 0 {
      ClearIs(cells, flags, n - 1);
      var front := Clear(cells, flags, n - 1);
      forall j | 0 <= j < |front| ensures CanonicalOrder(front[j], cells[n - 1]) {
        assert front[j] in front;
        var i :| 0 <= i < n - 1 && cells[i] == front[j];
        assert CanonicalOrder(cells[i], cells[n - 1]);
      }
    }
  }

  lemma ClearIsSide(cells: seq<Cell>, flags: seq<bool>, side: set<Cell>)
    requires |flags| == |cells| && Ascending(CanonicalOrder, cells) && side <= Elements(cells)
    requires forall i :: 0 <= i < |cells| ==> (flags[i] <==> cells[i] !in side)
    ensures Clear(cells, flags, |cells|) == InOrder(side)
  {
    ClearIs(cells, flags, |cells|);
    var kept := Clear(cells, flags, |cells|);
    forall c ensures c in Elements(kept) <==> c in side {
      if c in side { var i :| 0 <= i < |cells| && cells[i] == c; }
    }
    CanonicalOrderIsTotal();
    AscendingUnique(CanonicalOrder, kept, InOrder(side));
  }

  /** Clear flags mark exactly the two sides of the border. */
  lemma ClearSides(anti: seq<Row>, mono: seq<Row>, cells: seq<Cell>, parents: seq<bool>, children: seq<bool>)
    requires cells == InOrder(EmergentCells(anti, mono)) && Flagged(parents, children, cells, |cells|, 0)
    ensures Clear(cells, parents, |cells|) == InOrder(UpperCells(EmergentCells(anti, mono)))
    ensures Clear(cells, children, |cells|) == InOrder(LowerCells(EmergentCells(anti, mono)))
  {
    var e := EmergentCells(anti, mono);
    forall i | 0 <= i < |cells|
      ensures parents[i] <==> cells[i] !in UpperCells(e)
      ensures children[i] <==> cells[i] !in LowerCells(e)
    {
      assert cells[i] in Elements(cells);
      FlagsAreLinks(parents, children, cells, i);
      OneStepDecides(anti, mono, cells[i]);
    }
    ClearIsSide(cells, parents, UpperCells(e));
    ClearIsSide(cells, children, LowerCells(e));
  }

  /** One side of the border, in order, with the cells' counts in both cubes. */
  method EmitSide(cells: seq<Cell>, flags: array<bool>, previous: seq<PopulatedCell>, current: seq<PopulatedCell>,
                  labels: seq<Text>, ghost previousBase: seq<Row>, ghost currentBase: seq<Row>)
    returns (side: seq<CubeBorderCell>)
    requires flags.Length == |cells| && CellsInRange(cells, |labels|)
    requires IsPopulated(previous, previousBase) && IsPopulated(current, currentBase)
    ensures CellsInRange(Clear(cells, flags[..], |cells|), |labels|)
    ensures side == BorderCells(Clear(cells, flags[..], |cells|), previousBase, currentBase, labels)
  {
    hide IsPopulated;
    side := [];
    for i := 0 to |cells|
      invariant CellsInRange(Clear(cells, flags[..], i), |labels|)
      invariant side == BorderCells(Clear(cells, flags[..], i), previousBase, currentBase, labels)
    {
      assert cells[i] in cells;
      if !flags[i] {
        var was := CountIn(previous, cells[i], previousBase);
        var now := CountIn(current, cells[i], currentBase);
        side := side + [CubeBorderCell(CoordOf(cells[i], labels), was, now)];
      }
    }
  }

  method FindBorder(anti: seq<PopulatedCell>, mono: seq<PopulatedCell>, previous: seq<PopulatedCell>,
                    current: seq<PopulatedCell>,
                    labels: seq<Text>, ghost antiBase: seq<Row>, ghost monoBase: seq<Row>,
                    ghost previousBase: seq<Row>, ghost currentBase: seq<Row>) returns (border: CubeBorder)
    requires IsPopulated(anti, antiBase) && IsPopulated(mono, monoBase)
    requires IsPopulated(previous, previousBase) && IsPopulated(current, currentBase) && RowsInRange(monoBase, |labels|)
    ensures border == BorderOf(antiBase, monoBase, previousBase, currentBase, labels)
  {
    var cells := CollectEmergent(anti, mono, antiBase, monoBase);
    EmergentInRange(antiBase, monoBase, |labels|, EmergentCells(antiBase, monoBase));
    var hasParent, hasChild := LinkParents(cells);
    hide IsPopulated, EmergentCells, UpperCells, LowerCells, Flagged;
    ClearSides(antiBase, monoBase, cells, hasParent[..], hasChild[..]);
    var upper := EmitSide(cells, hasParent, previous, current, labels, previousBase, currentBase);
    var lower := EmitSide(cells, hasChild, previous, current, labels, previousBase, currentBase);
    border := CubeBorder(lower, upper);
  }
}
