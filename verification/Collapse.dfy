/** The collapse surjection: banding the bottom levels and dropping WHERE. */
module Collapse {
  import opened Cells
  import opened Bases
  import opened Closure
  import opened ClosedCube

  const ERROR: Id := 4
  const LEVELS: nat := 7
  const ROLES: nat := 256

  const MAX_LEVEL_BAND_FLOOR: Id := ERROR
  const FULL_WHERE_DEPTH: nat := 1
  const WHERE_DROP_COST: nat := 100
  const CUBE_CELL_BUDGET: nat := 4096

  /** `floor` 0 bands nothing, f folds levels [0..f-1] into level f-1; `depth` is the WHERE depth kept. */
  datatype CollapseState = CollapseState(floor: Id, depth: nat)

  const UNCOLLAPSED := CollapseState(0, FULL_WHERE_DEPTH)

  function CollapseCell(c: Cell, s: CollapseState): Cell {
    var banded := if c.level < s.floor then c.(level := s.floor - 1) else c;
    if s.depth < FULL_WHERE_DEPTH then banded.(component := STAR) else banded
  }

  function Collapsing(s: CollapseState): Cell -> Cell { c => CollapseCell(c, s) }

  ghost function CollapsedBase(base: seq<Row>, s: CollapseState): seq<Row> {
    Reduced(MapRows(base, Collapsing(s)))
  }

  method CollapseBase(base: seq<Row>, s: CollapseState) returns (r: seq<Row>)
    ensures r == CollapsedBase(base, s)
  {
    var events: seq<Row> := [];
    for k := 0 to |base|
      invariant events == MapRows(base[..k], Collapsing(s))
    {
      events := events + [Row(CollapseCell(base[k].cell, s), base[k].count)];
    }
    assert base[..|base|] == base;
    r := SortReduceBase(events);
  }

  // ---------------------------------------------------------------- the lattice of states

  /** The coarser state on each axis. */
  function MinCommon(a: CollapseState, b: CollapseState): CollapseState {
    CollapseState(if a.floor < b.floor then b.floor else a.floor, if a.depth < b.depth then a.depth else b.depth)
  }

  predicate Coarser(t: CollapseState, s: CollapseState) { t.floor >= s.floor && t.depth <= s.depth }

  /** The minimal common collapse is the least state coarser than both. */
  lemma MinCommonIsJoin(a: CollapseState, b: CollapseState, t: CollapseState)
    ensures Coarser(t, MinCommon(a, b)) <==> Coarser(t, a) && Coarser(t, b)
    ensures MinCommon(a, b) == MinCommon(b, a) && MinCommon(a, a) == a
  {}

  /** Reading a collapsed cell at a coarser state is reading the original there. */
  lemma CollapseAbsorbs(c: Cell, s: CollapseState, t: CollapseState)
    requires Coarser(t, s)
    ensures CollapseCell(CollapseCell(c, s), t) == CollapseCell(c, t)
  {}

  /** A projection: collapsing at s and then at any coarser t is collapsing at t. */
  lemma CollapseProjects(base: seq<Row>, s: CollapseState, t: CollapseState)
    requires Coarser(t, s)
    ensures CollapsedBase(CollapsedBase(base, s), t) == CollapsedBase(base, t)
  {
    var once := MapRows(base, Collapsing(s));
    ReducedEquivalent(once);
    MapEquivalent(Reduced(once), once, Collapsing(t));
    forall i | 0 <= i < |base| ensures MapRows(once, Collapsing(t))[i] == MapRows(base, Collapsing(t))[i] {
      CollapseAbsorbs(base[i].cell, s, t);
    }
    assert MapRows(once, Collapsing(t)) == MapRows(base, Collapsing(t));
    EquivalentReduced(MapRows(Reduced(once), Collapsing(t)), MapRows(base, Collapsing(t)));
  }

  /** Coarsening distributes over pooling. */
  lemma CollapseOfSum(a: seq<Row>, b: seq<Row>, s: CollapseState)
    ensures CollapsedBase(a + b, s) == Reduced(CollapsedBase(a, s) + CollapsedBase(b, s))
  {
    hide Reduced, Equivalent;
    var ma, mb := MapRows(a, Collapsing(s)), MapRows(b, Collapsing(s));
    assert MapRows(a + b, Collapsing(s)) == ma + mb;
    ReducedEquivalent(ma);
    ReducedEquivalent(mb);
    ConcatEquivalent(Reduced(ma), ma, Reduced(mb), mb);
    EquivalentReduced(Reduced(ma) + Reduced(mb), ma + mb);
  }

  lemma UncollapsedBase(base: seq<Row>)
    ensures CollapsedBase(base, UNCOLLAPSED) == Reduced(base)
  {
    assert MapRows(base, Collapsing(UNCOLLAPSED)) == base;
  }

  lemma EquivalentCollapse(a: seq<Row>, b: seq<Row>, s: CollapseState)
    requires Equivalent(a, b)
    ensures CollapsedBase(a, s) == CollapsedBase(b, s)
  {
    MapEquivalent(a, b, Collapsing(s));
    EquivalentReduced(MapRows(a, Collapsing(s)), MapRows(b, Collapsing(s)));
  }

  lemma CollapsedSupport(base: seq<Row>, s: CollapseState)
    ensures Support(CollapsedBase(base, s)) == set c | c in Support(base) :: CollapseCell(c, s)
  {
    SupportOfImage(base, Collapsing(s));
    ReducedIs(MapRows(base, Collapsing(s)));
    assert (set c | c in Support(base) :: Collapsing(s)(c)) == set c | c in Support(base) :: CollapseCell(c, s);
  }

  // ---------------------------------------------------------------- steps

  function NextSteps(s: CollapseState): (steps: seq<CollapseState>)
    ensures |steps| <= 2
    ensures forall t :: t in steps ==> Coarser(t, s) && Measure(t) < Measure(s)
  {
    (if s.floor < MAX_LEVEL_BAND_FLOOR then [s.(floor := if s.floor == 0 then 2 else s.floor + 1)] else [])
    + (if s.depth > 0 then [s.(depth := s.depth - 1)] else [])
  }

  /** What every step brings down: band floors still below the frontier plus WHERE depth kept. */
  function Measure(s: CollapseState): nat {
    (if s.floor < MAX_LEVEL_BAND_FLOOR then MAX_LEVEL_BAND_FLOOR - s.floor else 0) + s.depth
  }

  function StepCost(source: CollapseState, target: CollapseState): nat {
    if target.floor != source.floor then target.floor else WHERE_DROP_COST
  }

}
