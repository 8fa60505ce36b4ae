/** Cube coordinates: one value id or a star per dimension, their generalization
    order, their meet, and the canonical total order on them. */
module Cells {
  import opened Orders

  /** The numeric maximum of a 32-bit id, so an unpinned dimension sorts last. */
  const STAR: nat := 0xFFFF_FFFF

  type Id = n: nat | n <= STAR

  datatype Dim = Level | Where | Role | LatencyShift

  const DIMS: seq<Dim> := [Level, Where, Role, LatencyShift]

  datatype Cell = Cell(level: Id, component: Id, role: Id, shift: Id) {

    function At(d: Dim): Id {
      match d
      case Level => level
      case Where => component
      case Role => role
      case LatencyShift => shift
    }

    function With(d: Dim, v: Id): Cell {
      match d
      case Level => this.(level := v)
      case Where => this.(component := v)
      case Role => this.(role := v)
      case LatencyShift => this.(shift := v)
    }

    predicate Pinned(d: Dim) { At(d) != STAR }

    function PinnedMask(): nat {
      (if level != STAR then 1 else 0) + (if component != STAR then 2 else 0)
      + (if role != STAR then 4 else 0) + (if shift != STAR then 8 else 0)
    }

    function PinnedCount(): nat {
      (if level != STAR then 1 else 0) + (if component != STAR then 1 else 0)
      + (if role != STAR then 1 else 0) + (if shift != STAR then 1 else 0)
    }
  }

  /** The cell that pins nothing. */
  const TOP := Cell(STAR, STAR, STAR, STAR)

  /** Whether every dimension `g` pins has `c`'s value; a cell is its own ancestor. */
  predicate IsAncestor(g: Cell, c: Cell) {
    && (g.level == STAR || g.level == c.level)
    && (g.component == STAR || g.component == c.component)
    && (g.role == STAR || g.role == c.role)
    && (g.shift == STAR || g.shift == c.shift)
  }

  function MeetId(a: Id, b: Id): Id { if a == b then a else STAR }

  function Meet(a: Cell, b: Cell): Cell {
    Cell(MeetId(a.level, b.level), MeetId(a.component, b.component), MeetId(a.role, b.role), MeetId(a.shift, b.shift))
  }

  /** The canonical order: pinned mask first, then the values in dimension order. */
  predicate Precedes(a: Cell, b: Cell) {
    if a.PinnedMask() != b.PinnedMask() then a.PinnedMask() < b.PinnedMask()
    else if a.level != b.level then a.level < b.level
    else if a.component != b.component then a.component < b.component
    else if a.role != b.role then a.role < b.role
    else a.shift < b.shift
  }

  const CanonicalOrder: (Cell, Cell) -> bool := (a, b) => Precedes(a, b)

  lemma CanonicalOrderIsTotal()
    ensures StrictTotal(CanonicalOrder)
  {
    forall x, y, z | CanonicalOrder(x, y) && CanonicalOrder(y, z)
      ensures CanonicalOrder(x, z)
    {
      PrecedesTransitive(x, y, z);
    }
  }

  lemma PrecedesTransitive(x: Cell, y: Cell, z: Cell)
    requires Precedes(x, y) && Precedes(y, z)
    ensures Precedes(x, z)
  {}

  /** The ancestors of a cell order generalization: a partial order that meets respect. */
  lemma AncestorOrder(a: Cell, b: Cell, c: Cell)
    ensures IsAncestor(a, a)
    ensures IsAncestor(a, b) && IsAncestor(b, a) ==> a == b
    ensures IsAncestor(a, b) && IsAncestor(b, c) ==> IsAncestor(a, c)
  {}

  /** The meet is the most specific common generalization. */
  lemma MeetIsGreatest(a: Cell, b: Cell, g: Cell)
    ensures IsAncestor(g, Meet(a, b)) <==> IsAncestor(g, a) && IsAncestor(g, b)
  {}

  /** A proper generalization pins strictly less, and comes first in the canonical order. */
  lemma ProperAncestor(g: Cell, c: Cell)
    requires IsAncestor(g, c) && g != c
    ensures g.PinnedCount() < c.PinnedCount() && Precedes(g, c)
  {}

  /** Every proper generalization of `c` generalizes one of `c`'s one-step parents, and
      one of its own one-step children generalizes `c`. */
  lemma StepBetween(g: Cell, c: Cell) returns (d: Dim)
    requires IsAncestor(g, c) && g != c
    ensures c.Pinned(d) && !g.Pinned(d)
    ensures IsAncestor(g, c.With(d, STAR)) && IsAncestor(c.With(d, STAR), c)
    ensures IsAncestor(g, g.With(d, c.At(d))) && IsAncestor(g.With(d, c.At(d)), c)
    ensures g.With(d, c.At(d)).With(d, STAR) == g
  {
    if c.level != g.level { d := Level; }
    else if c.component != g.component { d := Where; }
    else if c.role != g.role { d := Role; }
    else { d := LatencyShift; }
  }
}
