/** The closed cells of a base, the counts read back from them, and the base rebuilt from them. */
module ClosedCube {
  import opened Orders
  import opened Cells
  import opened Bases
  import opened Closure
  import opened Population

  /** A cell that covers something and is its own closure. */
  ghost predicate IsClosed(base: seq<Row>, c: Cell) {
    Covered(Support(base), c) != {} && ClosureOf(Support(base), c) == c
  }

  ghost function ClosedCells(base: seq<Row>): set<Cell> {
    set c | c in Generalizations(Support(base)) && IsClosed(base, c)
  }

  ghost predicate IsClosedRows(rows: seq<Row>, base: seq<Row>) {
    && CanonicalRows(rows)
    && Support(rows) == ClosedCells(base)
    && (forall i :: 0 <= i < |rows| ==> rows[i].count == Count(base, rows[i].cell))
  }

  /** The closed cells in canonical order with their counts. */
  ghost function ClosedRows(base: seq<Row>): (rows: seq<Row>)
    ensures IsClosedRows(rows, base)
  {
    CanonicalOrderIsTotal();
    var cells := SortedOf(CanonicalOrder, ClosedCells(base));
    var rows := seq(|cells|, i requires 0 <= i < |cells| => Row(cells[i], Count(base, cells[i])));
    assert CellsOf(rows) == cells;
    SupportOfCells(rows);
    rows
  }

  /** Canonical rows are determined by their support and their counts. */
  lemma CanonicalUnique(a: seq<Row>, b: seq<Row>)
    requires CanonicalRows(a) && CanonicalRows(b) && Support(a) == Support(b)
    requires forall x, y {:trigger x in a, y in b} :: x in a && y in b && x.cell == y.cell ==> x.count == y.count
    ensures a == b
  {
    SupportOfCells(a);
    SupportOfCells(b);
    CanonicalOrderIsTotal();
    AscendingUnique(CanonicalOrder, CellsOf(a), CellsOf(b));
    assert |a| == |CellsOf(a)| == |b|;
    forall i | 0 <= i < |a| ensures a[i] == b[i] {
      assert CellsOf(a)[i] == CellsOf(b)[i] && a[i] in a && b[i] in b;
    }
  }

  lemma ClosedRowsUnique(rows: seq<Row>, base: seq<Row>, rows': seq<Row>, base': seq<Row>)
    requires IsClosedRows(rows, base) && IsClosedRows(rows', base') && Equivalent(base, base')
    ensures rows == rows'
  {
    forall x, y | x in rows && y in rows' && x.cell == y.cell ensures x.count == y.count {
      assert Total(base, Under(x.cell)) == Total(base', Under(x.cell));
    }
    assert ClosedCells(base) == ClosedCells(base');
    CanonicalUnique(rows, rows');
  }

  lemma ClosedIsGeneralization(base: seq<Row>, c: Cell)
    ensures c in ClosedCells(base) <==> IsClosed(base, c)
  {
    GeneralizationsAre(Support(base), c);
  }

  // ---------------------------------------------------------------- lossless counts

  /** The greatest count among the rows `c` generalizes, 0 when there is none. */
  function BestUnder(closed: seq<Row>, c: Cell): nat {
    if closed == [] then 0
    else
      var best, last := BestUnder(closed[..|closed| - 1], c), closed[|closed| - 1];
      if IsAncestor(c, last.cell) && last.count > best then last.count else best
  }

  method CountInClosed(closed: seq<Row>, cell: Cell) returns (best: nat)
    ensures best == BestUnder(closed, cell)
  {
    best := 0;
    for k := 0 to |closed|
      invariant best == BestUnder(closed[..k], cell)
    {
      assert closed[..k + 1][..k] == closed[..k];
      if IsAncestor(cell, closed[k].cell) && closed[k].count > best {
        best := closed[k].count;
      }
    }
    assert closed[..|closed|] == closed;
  }

  lemma {:induction false} BestUnderIsMax(closed: seq<Row>, c: Cell)
    ensures forall r :: r in closed && IsAncestor(c, r.cell) ==> r.count <= BestUnder(closed, c)
    ensures BestUnder(closed, c) == 0
         || exists r :: r in closed && IsAncestor(c, r.cell) && r.count == BestUnder(closed, c)
  {
    if closed != [] {
      var front, last := closed[..|closed| - 1], closed[|closed| - 1];
      BestUnderIsMax(front, c);
      assert forall r :: r in closed <==> r in front || r == last;
    }
  }

  /** Specializing a cell never raises its count. */
  lemma CountAntitone(base: seq<Row>, g: Cell, c: Cell)
    requires IsAncestor(g, c)
    ensures Count(base, c) <= Count(base, g)
  {
    forall r | r in base && IsAncestor(c, r.cell) ensures IsAncestor(g, r.cell) { AncestorOrder(g, c, r.cell); }
    TotalMonotone(base, Under(c), Under(g));
  }

  lemma CountOfUncovered(base: seq<Row>, c: Cell)
    requires Covered(Support(base), c) == {}
    ensures Count(base, c) == 0
  {
    forall r | r in base ensures !IsAncestor(c, r.cell) {
      assert r.cell in Support(base);
      assert IsAncestor(c, r.cell) ==> r.cell in Covered(Support(base), c);
    }
    TotalNone(base, Under(c));
  }

  lemma CountOfClosure(base: seq<Row>, c: Cell)
    requires Covered(Support(base), c) != {}
    ensures IsClosed(base, ClosureOf(Support(base), c))
    ensures Count(base, ClosureOf(Support(base), c)) == Count(base, c)
  {
    var s, k := Support(base), ClosureOf(Support(base), c);
    ClosureLaws(s, c);
    forall r | r in base ensures IsAncestor(c, r.cell) == IsAncestor(k, r.cell) {
      assert r.cell in s;
      assert r.cell in Covered(s, c) <==> r.cell in Covered(s, k);
    }
    TotalSame(base, Under(c), Under(k));
  }

  /** Lossless condensation: every cell's count, closed or not, is the greatest count among the
      closed cells it generalizes. */
  lemma LosslessCounts(base: seq<Row>, c: Cell)
    ensures BestUnder(ClosedRows(base), c) == Count(base, c)
  {
    var closed := ClosedRows(base);
    BestUnderIsMax(closed, c);
    forall r | r in closed && IsAncestor(c, r.cell) ensures r.count <= Count(base, c) {
      CountAntitone(base, c, r.cell);
    }
    if Covered(Support(base), c) == {} {
      CountOfUncovered(base, c);
    } else {
      var k := ClosureOf(Support(base), c);
      CountOfClosure(base, c);
      ClosureLaws(Support(base), c);
      ClosedIsGeneralization(base, k);
      var r :| r in closed && r.cell == k;
      assert r.count == Count(base, k);
    }
  }

  // ---------------------------------------------------------------- recovery

  /** A base joint as the window accumulates it: Level and Role pinned, never the shift. */
  predicate IsTuple(c: Cell) { c.Pinned(Level) && c.Pinned(Role) && !c.Pinned(LatencyShift) }

  ghost predicate IsJoint(base: seq<Row>) { forall r :: r in base ==> IsTuple(r.cell) && r.count > 0 }

  predicate FullyPinned(c: Cell) { c.PinnedCount() == 3 }

  function Select(rows: seq<Row>, q: Cell -> bool): seq<Row> {
    if rows == [] then []
    else
      var front, last := Select(rows[..|rows| - 1], q), rows[|rows| - 1];
      if q(last.cell) then front + [last] else front
  }

  const Pinned3: Cell -> bool := c => FullyPinned(c)

  function StarWhere(c: Cell): Cell { Cell(c.level, STAR, c.role, STAR) }

  function Sibling(s: Cell): Cell -> bool { c => FullyPinned(c) && c.level == s.level && c.role == s.role }

  ghost function StarWheres(closed: seq<Row>): set<Cell> {
    set r | r in closed && r.cell.Pinned(Level) && r.cell.Pinned(Role) :: StarWhere(r.cell)
  }

  /** The empty-WHERE residual of one (level, role): its total beyond the pinned components. */
  function Residual(closed: seq<Row>, s: Cell): int { BestUnder(closed, s) - Total(closed, Sibling(s)) }

  function Residuals(closed: seq<Row>, stars: seq<Cell>): seq<Row> {
    if stars == [] then []
    else
      var front, s := Residuals(closed, stars[..|stars| - 1]), stars[|stars| - 1];
      if Residual(closed, s) > 0 then front + [Row(s, Residual(closed, s))] else front
  }

  ghost function StarOrder(closed: seq<Row>): (stars: seq<Cell>)
    ensures NoDuplicates(stars) && forall c :: c in stars <==> c in StarWheres(closed)
  {
    CanonicalOrderIsTotal();
    var stars := SortedOf(CanonicalOrder, StarWheres(closed));
    AscendingIsSorted(CanonicalOrder, stars);
    assert forall c :: c in stars <==> c in Elements(stars);
    stars
  }

  ghost function RecoveryEvents(closed: seq<Row>): seq<Row> {
    Select(closed, Pinned3) + Residuals(closed, StarOrder(closed))
  }

  ghost function Recovered(closed: seq<Row>): seq<Row> { Reduced(RecoveryEvents(closed)) }

  method RecoverBase(closed: seq<Row>) returns (base: seq<Row>)
    ensures base == Recovered(closed)
  {
    var events := FullyPinnedRows(closed);
    var levelRole := LevelRolePairs(closed);
    var residuals := ResidualRows(closed, levelRole);
    base := SortReduceBase(events + residuals);
  }

  method ResidualRows(closed: seq<Row>, levelRole: seq<Cell>) returns (events: seq<Row>)
    ensures events == Residuals(closed, levelRole)
  {
    events := [];
    for k := 0 to |levelRole|
      invariant events == Residuals(closed, levelRole[..k])
    {
      var starWhere := levelRole[k];
      ResidualsSnoc(closed, levelRole, k);
      var total := CountInClosed(closed, starWhere);
      var pinnedSum := PinnedSum(closed, starWhere);
      if total > pinnedSum {
        events := events + [Row(starWhere, total - pinnedSum)];
      }
    }
    assert levelRole[..|levelRole|] == levelRole;
  }

  method FullyPinnedRows(closed: seq<Row>) returns (events: seq<Row>)
    ensures events == Select(closed, Pinned3)
  {
    events := [];
    for k := 0 to |closed|
      invariant events == Select(closed[..k], Pinned3)
    {
      assert closed[..k + 1][..k] == closed[..k];
      if closed[k].cell.PinnedCount() == 3 {
        events := events + [closed[k]];
      }
    }
    assert closed[..|closed|] == closed;
  }

  /** The std::set of (level, role) pairs among the closed cells, in order. */
  method LevelRolePairs(closed: seq<Row>) returns (pairs: seq<Cell>)
    ensures pairs == StarOrder(closed)
  {
    var collected: seq<Cell> := [];
    for k := 0 to |closed|
      invariant Elements(collected) == StarWheres(closed[..k])
    {
      assert closed[..k + 1] == closed[..k] + [closed[k]];
      StarWheresSnoc(closed[..k], closed[k]);
      if closed[k].cell.Pinned(Level) && closed[k].cell.Pinned(Role) {
        assert Elements(collected + [StarWhere(closed[k].cell)]) == Elements(collected) + {StarWhere(closed[k].cell)};
        collected := collected + [StarWhere(closed[k].cell)];
      }
    }
    assert closed[..|closed|] == closed;
    CanonicalOrderIsTotal();
    pairs := SortedSet(CanonicalOrder, collected);
    SortedOfUnique(CanonicalOrder, pairs, StarWheres(closed));
  }

  method PinnedSum(closed: seq<Row>, starWhere: Cell) returns (sum: nat)
    ensures sum == Total(closed, Sibling(starWhere))
  {
    sum := 0;
    for i := 0 to |closed|
      invariant sum == Total(closed[..i], Sibling(starWhere))
    {
      assert closed[..i + 1][..i] == closed[..i];
      var c := closed[i].cell;
      if c.PinnedCount() == 3 && c.level == starWhere.level && c.role == starWhere.role {
        sum := sum + closed[i].count;
      }
    }
    assert closed[..|closed|] == closed;
  }

  lemma ResidualsSnoc(closed: seq<Row>, stars: seq<Cell>, k: nat)
    requires k < |stars|
    ensures var s := stars[k];
            Residuals(closed, stars[..k + 1]) == Residuals(closed, stars[..k])
              + if Residual(closed, s) > 0 then [Row(s, Residual(closed, s))] else []
  {
    assert stars[..k + 1][..k] == stars[..k];
  }

  lemma StarWheresSnoc(closed: seq<Row>, r: Row)
    ensures StarWheres(closed + [r]) == StarWheres(closed)
              + if r.cell.Pinned(Level) && r.cell.Pinned(Role) then {StarWhere(r.cell)} else {}
  {
    assert forall x :: x in closed + [r] <==> x in closed || x == r;
    if r.cell.Pinned(Level) && r.cell.Pinned(Role) {
      assert r in closed + [r];
    }
  }

  lemma {:induction false} SelectTotal(rows: seq<Row>, q: Cell -> bool, p: Cell -> bool)
    ensures Total(Select(rows, q), p) == Total(rows, Both(p, q))
    ensures forall r :: r in Select(rows, q) <==> r in rows && q(r.cell)
  {
    if rows != [] {
      var front, last := rows[..|rows| - 1], rows[|rows| - 1];
      SelectTotal(front, q, p);
      TotalSnoc(Select(front, q), last, p);
      assert forall r :: r in rows <==> r in front || r == last;
    }
  }

  lemma {:induction false} SelectCanonical(rows: seq<Row>, q: Cell -> bool)
    requires CanonicalRows(rows)
    ensures CanonicalRows(Select(rows, q))
  {
    if rows != [] {
      var front, last := rows[..|rows| - 1], rows[|rows| - 1];
      var cells := CellsOf(rows);
      assert CellsOf(front) == cells[..|front|];
      SelectCanonical(front, q);
      var kept := Select(front, q);
      SelectTotal(front, q, q);
      forall i | 0 <= i < |kept| ensures CanonicalOrder(kept[i].cell, last.cell) {
        assert kept[i] in front;
        var j :| 0 <= j < |front| && front[j] == kept[i];
        assert CanonicalOrder(cells[j], cells[|front|]);
      }
      assert CellsOf(kept + [last]) == CellsOf(kept) + [last.cell];
    }
  }

  lemma {:induction false} ResidualsMass(closed: seq<Row>, stars: seq<Cell>, c: Cell)
    requires NoDuplicates(stars)
    ensures Mass(Residuals(closed, stars), c) == if c in stars && Residual(closed, c) > 0 then Residual(closed, c)
        else 0
    ensures c in Support(Residuals(closed, stars)) <==> c in stars && Residual(closed, c) > 0
  {
    if stars != [] {
      var front, s := stars[..|stars| - 1], stars[|stars| - 1];
      ResidualsMass(closed, front, c);
      assert stars == front + [s];
      assert s !in front;
      TotalSnoc(Residuals(closed, front), Row(s, if Residual(closed, s) > 0 then Residual(closed, s) else 0),
                Exactly(c));
    }
  }

  /** A tuple of the base is closed, and its own row is all it covers unless it stars WHERE. */
  lemma TupleIsClosed(base: seq<Row>, t: Cell)
    requires t in Support(base)
    ensures IsClosed(base, t)
  {
    var s := Support(base);
    AncestorOrder(t, t, t);
    assert t in Covered(s, t);
    ClosureLaws(s, t);
    var k := ClosureOf(s, t);
    MeetAllIsGreatest(Covered(s, t), k);
    AncestorOrder(k, k, k);
    AncestorOrder(k, t, k);
  }

  lemma PinnedCountIsMass(base: seq<Row>, c: Cell)
    requires IsJoint(base) && c.Pinned(Level) && c.Pinned(Where) && c.Pinned(Role) && !c.Pinned(LatencyShift)
    ensures Count(base, c) == Mass(base, c)
  {
    TotalSame(base, Under(c), Exactly(c));
  }

  lemma SupportOfSelect(rows: seq<Row>, q: Cell -> bool, c: Cell)
    ensures c in Support(Select(rows, q)) <==> c in Support(rows) && q(c)
  {
    SelectTotal(rows, q, q);
    if c in Support(rows) && q(c) {
      var r :| r in rows && r.cell == c;
      assert r in Select(rows, q);
    }
  }

  lemma PinnedClosedCell(base: seq<Row>, c: Cell)
    requires IsJoint(base) && FullyPinned(c)
    ensures IsClosed(base, c) <==> c in Support(base)
  {
    if c in Support(base) {
      TupleIsClosed(base, c);
    }
    if IsClosed(base, c) {
      var t :| t in Covered(Support(base), c);
      var r :| r in base && r.cell == t;
      assert IsTuple(t) && IsAncestor(c, t);
    }
  }

  /** The fully pinned closed cells are exactly the base rows that have a component. */
  lemma PinnedClosedAreRows(base: seq<Row>)
    requires CanonicalRows(base) && IsJoint(base)
    ensures Select(ClosedRows(base), Pinned3) == Select(base, Pinned3)
  {
    var closed := ClosedRows(base);
    var a, b := Select(closed, Pinned3), Select(base, Pinned3);
    SelectCanonical(closed, Pinned3);
    SelectCanonical(base, Pinned3);
    forall c ensures c in Support(a) <==> c in Support(b) {
      SupportOfSelect(closed, Pinned3, c);
      SupportOfSelect(base, Pinned3, c);
      ClosedIsGeneralization(base, c);
      if FullyPinned(c) { PinnedClosedCell(base, c); }
    }
    forall x, y | x in a && y in b && x.cell == y.cell ensures x.count == y.count {
      SelectTotal(closed, Pinned3, Pinned3);
      SelectTotal(base, Pinned3, Pinned3);
      PinnedRowCounts(base, x, y);
    }
    CanonicalUnique(a, b);
  }

  lemma PinnedRowCounts(base: seq<Row>, x: Row, y: Row)
    requires CanonicalRows(base) && IsJoint(base) && x.cell == y.cell
    requires x in ClosedRows(base) && y in base && FullyPinned(y.cell)
    ensures x.count == y.count
  {
    ClosedRowCount(base, x);
    assert IsTuple(y.cell);
    PinnedCountIsMass(base, x.cell);
    RowMass(base, y);
  }

  lemma ClosedRowCount(base: seq<Row>, x: Row)
    requires x in ClosedRows(base)
    ensures x.count == Count(base, x.cell)
  {}

  lemma RowMass(base: seq<Row>, y: Row)
    requires CanonicalRows(base) && y in base
    ensures Mass(base, y.cell) == y.count
  {
    var i :| 0 <= i < |base| && base[i] == y;
    MassOfRow(base, i);
  }

  lemma SiblingSums(base: seq<Row>, s: Cell)
    requires CanonicalRows(base) && IsJoint(base)
    ensures Total(ClosedRows(base), Sibling(s)) == Total(base, Sibling(s))
  {
    var closed := ClosedRows(base);
    PinnedClosedAreRows(base);
    SelectTotal(closed, Pinned3, Sibling(s));
    SelectTotal(base, Pinned3, Sibling(s));
    TotalSame(closed, Both(Sibling(s), Pinned3), Sibling(s));
    TotalSame(base, Both(Sibling(s), Pinned3), Sibling(s));
  }

  /** What a star-where cell counts beyond the pinned components is its own row. */
  lemma ResidualIsMass(base: seq<Row>, s: Cell)
    requires CanonicalRows(base) && IsJoint(base) && s.Pinned(Level) && s.Pinned(Role) && s == StarWhere(s)
    ensures Residual(ClosedRows(base), s) == Mass(base, s)
  {
    LosslessCounts(base, s);
    SiblingSums(base, s);
    TotalSplit(base, Under(s), Exactly(s), Sibling(s));
  }

  lemma {:induction false} MassPositive(base: seq<Row>, c: Cell)
    requires IsJoint(base)
    ensures Mass(base, c) > 0 <==> c in Support(base)
  {
    if r :| r in base && r.cell == c {
      TotalAtLeast(base, Exactly(c), r);
    } else {
      TotalNone(base, Exactly(c));
    }
  }

  lemma StarWheresOfClosed(base: seq<Row>, s: Cell)
    requires IsJoint(base) && s in Support(base) && !s.Pinned(Where)
    ensures s in StarWheres(ClosedRows(base))
  {
    TupleIsClosed(base, s);
    ClosedIsGeneralization(base, s);
    var r :| r in ClosedRows(base) && r.cell == s;
    assert r.cell.Pinned(Level) && r.cell.Pinned(Role) && s == StarWhere(r.cell);
  }

  lemma PinnedPart(base: seq<Row>, c: Cell)
    requires CanonicalRows(base) && IsJoint(base)
    ensures Mass(Select(ClosedRows(base), Pinned3), c) == if FullyPinned(c) then Mass(base, c) else 0
    ensures c in Support(Select(ClosedRows(base), Pinned3)) <==> c in Support(base) && FullyPinned(c)
  {
    PinnedClosedAreRows(base);
    SelectTotal(base, Pinned3, Exactly(c));
    SupportOfSelect(base, Pinned3, c);
    if FullyPinned(c) {
      TotalSame(base, Both(Exactly(c), Pinned3), Exactly(c));
    } else {
      TotalNone(base, Both(Exactly(c), Pinned3));
    }
  }

  lemma StarShape(closed: seq<Row>, c: Cell)
    requires c in StarWheres(closed)
    ensures c.Pinned(Level) && c.Pinned(Role) && c == StarWhere(c) && !FullyPinned(c)
  {}

  /** Every star-where row of the base shows up among the closed cells' (level, role) pairs. */
  lemma StarRowsAreListed(base: seq<Row>, c: Cell)
    requires IsJoint(base) && c !in StarWheres(ClosedRows(base))
    ensures c in Support(base) ==> FullyPinned(c)
  {
    if c in Support(base) && !c.Pinned(Where) {
      StarWheresOfClosed(base, c);
    }
    assert c in Support(base) ==> IsTuple(c);
  }

  lemma ResidualPart(base: seq<Row>, c: Cell)
    requires CanonicalRows(base) && IsJoint(base)
    ensures var rest := Residuals(ClosedRows(base), StarOrder(ClosedRows(base)));
            Mass(rest, c) == (if FullyPinned(c) then 0 else Mass(base, c))
            && (c in Support(rest) <==> c in Support(base) && !FullyPinned(c))
  {
    var closed := ClosedRows(base);
    var stars := StarOrder(closed);
    MassPositive(base, c);
    if c in StarWheres(closed) {
      StarShape(closed, c);
      ResidualIsMass(base, c);
    } else {
      StarRowsAreListed(base, c);
    }
    ResidualsMass(closed, stars, c);
  }

  lemma PartsMakeWhole(a: seq<Row>, b: seq<Row>, base: seq<Row>, c: Cell, inA: bool)
    requires Mass(a, c) == (if inA then Mass(base, c) else 0) && Mass(b, c) == (if inA then 0 else Mass(base, c))
    requires (c in Support(a) <==> c in Support(base) && inA) && (c in Support(b) <==> c in Support(base) && !inA)
    ensures Mass(a + b, c) == Mass(base, c) && (c in Support(a + b) <==> c in Support(base))
  {
    TotalConcat(a, b, Exactly(c));
    SupportConcat(a, b);
  }

  /** What recovery collects weighs each cell exactly as the base does. */
  lemma RecoveryMass(base: seq<Row>, c: Cell)
    requires CanonicalRows(base) && IsJoint(base)
    ensures Mass(RecoveryEvents(ClosedRows(base)), c) == Mass(base, c)
    ensures c in Support(RecoveryEvents(ClosedRows(base))) <==> c in Support(base)
  {
    var closed := ClosedRows(base);
    PinnedPart(base, c);
    ResidualPart(base, c);
    PartsMakeWhole(Select(closed, Pinned3), Residuals(closed, StarOrder(closed)), base, c, FullyPinned(c));
  }

  /** Round trip: the closed cells alone give back the whole base. */
  lemma RecoverRoundTrip(base: seq<Row>)
    requires CanonicalRows(base) && IsJoint(base)
    ensures Recovered(ClosedRows(base)) == base
  {
    hide Reduced, RecoveryEvents, ClosedRows;
    var events := RecoveryEvents(ClosedRows(base));
    forall c ensures c in Support(events) <==> c in Support(base) { RecoveryMass(base, c); }
    forall i | 0 <= i < |base| ensures base[i].count == Mass(events, base[i].cell) {
      RecoveryMass(base, base[i].cell);
      MassOfRow(base, i);
    }
    ReductionUnique(base, events);
  }
}
