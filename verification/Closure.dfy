/** The closure operator of a base: the most specific cell that generalizes exactly the
    tuples a given cell generalizes. */
module Closure {
  import opened Cells

  ghost predicate AgreeOn(s: set<Cell>, d: Dim, v: Id) { forall t :: t in s ==> t.At(d) == v }

  /** The value every cell of `s` has at `d`, or the star when they differ. */
  ghost function Common(s: set<Cell>, d: Dim): Id
    requires s != {}
  {
    if exists v: Id :: AgreeOn(s, d, v) then var v: Id :| AgreeOn(s, d, v); v else STAR
  }

  /** The meet of a non-empty set of cells, dimension by dimension. */
  ghost function MeetAll(s: set<Cell>): Cell
    requires s != {}
  {
    Cell(Common(s, Level), Common(s, Where), Common(s, Role), Common(s, LatencyShift))
  }

  ghost function Covered(s: set<Cell>, c: Cell): set<Cell> { set t | t in s && IsAncestor(c, t) }

  ghost function ClosureOf(s: set<Cell>, c: Cell): Cell
    requires Covered(s, c) != {}
  {
    MeetAll(Covered(s, c))
  }

  lemma CommonIs(s: set<Cell>, d: Dim, v: Id)
    requires s != {} && AgreeOn(s, d, v)
    ensures Common(s, d) == v
  {
    var t :| t in s;
    assert t.At(d) == v;
  }

  lemma CommonStep(s: set<Cell>, d: Dim, u: Cell)
    requires s != {}
    ensures Common(s + {u}, d) == MeetId(Common(s, d), u.At(d))
  {
    var t :| t in s;
    if AgreeOn(s, d, t.At(d)) {
      CommonIs(s, d, t.At(d));
      if u.At(d) == t.At(d) {
        CommonIs(s + {u}, d, t.At(d));
      } else {
        assert forall v: Id :: AgreeOn(s + {u}, d, v) ==> v == u.At(d) && v == t.At(d) by {
          assert t in s + {u} && u in s + {u};
        }
      }
    } else {
      assert forall v: Id :: AgreeOn(s, d, v) ==> v == t.At(d);
      assert forall v: Id :: AgreeOn(s + {u}, d, v) ==> AgreeOn(s, d, v);
    }
  }

  lemma MeetAllOne(t: Cell)
    ensures MeetAll({t}) == t
  {
    CommonIs({t}, Level, t.level);
    CommonIs({t}, Where, t.component);
    CommonIs({t}, Role, t.role);
    CommonIs({t}, LatencyShift, t.shift);
  }

  lemma MeetAllStep(s: set<Cell>, u: Cell)
    requires s != {}
    ensures MeetAll(s + {u}) == Meet(MeetAll(s), u)
  {
    CommonStep(s, Level, u);
    CommonStep(s, Where, u);
    CommonStep(s, Role, u);
    CommonStep(s, LatencyShift, u);
  }

  lemma CommonPinned(s: set<Cell>, d: Dim, v: Id)
    requires s != {} && v != STAR
    ensures Common(s, d) == v <==> AgreeOn(s, d, v)
  {
    if AgreeOn(s, d, v) { CommonIs(s, d, v); }
  }

  /** The meet of a set is its greatest common generalization. */
  lemma MeetAllIsGreatest(s: set<Cell>, g: Cell)
    requires s != {}
    ensures IsAncestor(g, MeetAll(s)) <==> forall t :: t in s ==> IsAncestor(g, t)
  {
    if g.level != STAR { CommonPinned(s, Level, g.level); }
    if g.component != STAR { CommonPinned(s, Where, g.component); }
    if g.role != STAR { CommonPinned(s, Role, g.role); }
    if g.shift != STAR { CommonPinned(s, LatencyShift, g.shift); }
    if forall t :: t in s ==> IsAncestor(g, t) {
      assert g.level != STAR ==> AgreeOn(s, Level, g.level);
      assert g.component != STAR ==> AgreeOn(s, Where, g.component);
      assert g.role != STAR ==> AgreeOn(s, Role, g.role);
      assert g.shift != STAR ==> AgreeOn(s, LatencyShift, g.shift);
    }
    if IsAncestor(g, MeetAll(s)) {
      forall t | t in s ensures IsAncestor(g, t) {}
    }
  }

  /** Closing a cell keeps what it covers, so closing again changes nothing. */
  lemma ClosureLaws(s: set<Cell>, c: Cell)
    requires Covered(s, c) != {}
    ensures IsAncestor(c, ClosureOf(s, c))
    ensures Covered(s, ClosureOf(s, c)) == Covered(s, c)
    ensures ClosureOf(s, ClosureOf(s, c)) == ClosureOf(s, c)
  {
    var k := ClosureOf(s, c);
    MeetAllIsGreatest(Covered(s, c), c);
    AncestorOrder(k, k, k);
    MeetAllIsGreatest(Covered(s, c), k);
    forall t | t in s && IsAncestor(k, t) ensures IsAncestor(c, t) { AncestorOrder(c, k, t); }
  }

  /** Closure is the greatest cell with the same cover: anything covering all of it is above it. */
  lemma ClosureIsGreatest(s: set<Cell>, c: Cell, g: Cell)
    requires Covered(s, c) != {}
    ensures IsAncestor(g, ClosureOf(s, c)) <==> Covered(s, c) <= Covered(s, g)
  {
    MeetAllIsGreatest(Covered(s, c), g);
  }

  /** Closure respects generalization. */
  lemma ClosureMonotone(s: set<Cell>, g: Cell, c: Cell)
    requires IsAncestor(g, c) && Covered(s, c) != {}
    ensures Covered(s, c) <= Covered(s, g) && IsAncestor(ClosureOf(s, g), ClosureOf(s, c))
  {
    forall t | t in Covered(s, c) ensures t in Covered(s, g) { AncestorOrder(g, c, t); }
    ClosureLaws(s, g);
    ClosureIsGreatest(s, c, ClosureOf(s, g));
  }

  /** A closed cell of part of a base stays closed in the whole base. */
  lemma ClosedSurvivesUnion(s: set<Cell>, more: set<Cell>, c: Cell)
    requires Covered(s, c) != {} && ClosureOf(s, c) == c
    ensures Covered(s + more, c) != {} && ClosureOf(s + more, c) == c
  {
    var whole := s + more;
    assert Covered(s, c) <= Covered(whole, c);
    ClosureLaws(whole, c);
    var k := ClosureOf(whole, c);
    MeetAllIsGreatest(Covered(whole, c), k);
    AncestorOrder(k, k, k);
    MeetAllIsGreatest(Covered(s, c), k);
    AncestorOrder(c, k, c);
  }

  /** Every generalization of some cell of `s`, by the dimensions it keeps. */
  ghost function Generalizations(s: set<Cell>): set<Cell> {
    set t, l: bool, w: bool, r: bool, x: bool | t in s :: Keep(t, l, w, r, x)
  }

  function Keep(t: Cell, l: bool, w: bool, r: bool, x: bool): Cell {
    Cell(if l then t.level else STAR, if w then t.component else STAR,
         if r then t.role else STAR, if x then t.shift else STAR)
  }

  lemma GeneralizationsAre(s: set<Cell>, c: Cell)
    ensures c in Generalizations(s) <==> Covered(s, c) != {}
  {
    if t :| t in s && IsAncestor(c, t) {
      assert t in Covered(s, c);
      assert c == Keep(t, c.level != STAR, c.component != STAR, c.role != STAR, c.shift != STAR);
    }
    if c in Generalizations(s) {
      var t, l, w, r, x :| t in s && c == Keep(t, l, w, r, x);
      assert t in Covered(s, c);
    }
  }
}
