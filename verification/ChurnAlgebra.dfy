/** Presence churn over window ranges: the time-ordered product and the spatial join. */
module ChurnAlgebra {

  datatype Symbol = EmptyRange | Unretained | Absent | Present

  datatype Churn = Churn(span: nat, transitions: nat, indeterminate: nat, first: Symbol, last: Symbol)

  const NO_CHURN := Churn(0, 0, 0, EmptyRange, EmptyRange)

  function UnretainedRange(span: nat, exhaustive: bool): Churn {
    if span == 0 then NO_CHURN
    else if exhaustive then Churn(span, 0, 0, Absent, Absent)
    else Churn(span, 0, span - 1, Unretained, Unretained)
  }

  /** The product over disjoint ranges in window order. */
  function ComposeChurn(earlier: Churn, later: Churn): Churn {
    if earlier.span == 0 then later
    else if later.span == 0 then earlier
    else
      var readable := earlier.last != Unretained && later.first != Unretained;
      Churn(earlier.span + later.span,
            earlier.transitions + later.transitions + (if readable && earlier.last != later.first then 1 else 0),
            earlier.indeterminate + later.indeterminate + (if readable then 0 else 1),
            earlier.first, later.last)
  }

  function JoinSymbol(a: Symbol, b: Symbol): Symbol {
    if a == Present || b == Present then Present
    else if a == EmptyRange then b
    else if b == EmptyRange then a
    else if a == Absent && b == Absent then Absent
    else Unretained
  }

  /** The join of two views of one interval. */
  function JoinChurn(a: Churn, b: Churn): Churn {
    Churn(if a.span < b.span then b.span else a.span, a.transitions + b.transitions, a.indeterminate + b.indeterminate,
          JoinSymbol(a.first, b.first), JoinSymbol(a.last, b.last))
  }

  /** The product folds in any grouping; the empty range is its left identity always, and its right
      identity exactly for an operand that covers a window or is itself the empty range. */
  lemma ProductIsMonoid(a: Churn, b: Churn, c: Churn)
    ensures ComposeChurn(ComposeChurn(a, b), c) == ComposeChurn(a, ComposeChurn(b, c))
    ensures ComposeChurn(NO_CHURN, a) == a
    ensures ComposeChurn(a, NO_CHURN) == a <==> a.span > 0 || a == NO_CHURN
  {}

  /** The join has no orientation at all: a commutative monoid. */
  lemma JoinIsCommutativeMonoid(a: Churn, b: Churn, c: Churn)
    ensures JoinChurn(a, b) == JoinChurn(b, a)
    ensures JoinChurn(JoinChurn(a, b), c) == JoinChurn(a, JoinChurn(b, c))
    ensures JoinChurn(NO_CHURN, a) == a
  {}

  // ---------------------------------------------------------------- what a churn says of the windows it covers

  /** Window by window: whether the element was there. */
  function ChurnOf(windows: seq<Symbol>): Churn {
    if windows == [] then NO_CHURN
    else Churn(|windows|, Turns(windows), Unknowns(windows), windows[0], windows[|windows| - 1])
  }

  /** Neighbouring windows both of which say whether it was there, and differ. */
  function Turns(windows: seq<Symbol>): nat {
    if |windows| < 2 then 0
    else Turns(windows[..|windows| - 1]) + if IsTurn(windows[|windows| - 2], windows[|windows| - 1]) then 1 else 0
  }

  predicate IsTurn(a: Symbol, b: Symbol) { (a == Present && b == Absent) || (a == Absent && b == Present) }

  /** Neighbouring windows of which one at least does not say. */
  function Unknowns(windows: seq<Symbol>): nat {
    if |windows| < 2 then 0
    else Unknowns(windows[..|windows| - 1])
         + if windows[|windows| - 2] == Unretained || windows[|windows| - 1] == Unretained then 1 else 0
  }

  predicate IsWindow(s: Symbol) { s != EmptyRange }

  lemma {:induction false} PairsConcat(x: seq<Symbol>, y: seq<Symbol>)
    requires x != [] && y != [] && (forall s :: s in x ==> IsWindow(s)) && (forall s :: s in y ==> IsWindow(s))
    ensures var a, b := x[|x| - 1], y[0];
            && Turns(x + y) == Turns(x) + Turns(y) + (if IsTurn(a, b) then 1 else 0)
            && Unknowns(x + y) == Unknowns(x) + Unknowns(y) + (if a == Unretained || b == Unretained then 1 else 0)
  {
    var whole, front := x + y, y[..|y| - 1];
    if |y| == 1 {
      assert whole[..|whole| - 1] == x;
    } else {
      assert whole[..|whole| - 1] == x + front;
      assert forall s :: s in front ==> s in y;
      PairsConcat(x, front);
    }
  }

  /** Ranges compose as the windows they cover follow each other: the product of two ranges' churns is the churn of
      all their windows, the earlier ones first. */
  lemma ProductCoversBoth(x: seq<Symbol>, y: seq<Symbol>)
    requires (forall s :: s in x ==> IsWindow(s)) && (forall s :: s in y ==> IsWindow(s))
    ensures ComposeChurn(ChurnOf(x), ChurnOf(y)) == ChurnOf(x + y)
  {
    if x == [] {
      assert x + y == y;
    } else if y == [] {
      assert x + y == x;
    } else {
      PairsConcat(x, y);
      assert x[|x| - 1] in x && y[0] in y;
    }
  }

  /** A range whose element no document lists is absent throughout where the documents list everything, and unknown
      throughout where they do not. */
  lemma {:induction false} UnlistedRange(span: nat, exhaustive: bool)
    ensures UnretainedRange(span, exhaustive) == ChurnOf(seq(span, _ => if exhaustive then Absent else Unretained))
  {
    var s := if exhaustive then Absent else Unretained;
    if span > 1 {
      UnlistedRange(span - 1, exhaustive);
      assert seq(span, _ => s)[..span - 1] == seq(span - 1, _ => s);
    }
  }

  function Certainty(s: Symbol): nat {
    match s case EmptyRange => 0 case Absent => 1 case Unretained => 2 case Present => 3
  }

  /** Two views of one window: it was there if either saw it, and it was not there only if neither leaves it open. */
  lemma JoinIsStronger(a: Symbol, b: Symbol)
    ensures Certainty(JoinSymbol(a, b)) == if Certainty(a) <= Certainty(b) then Certainty(b) else Certainty(a)
    ensures JoinSymbol(a, b) == Present <==> a == Present || b == Present
  {}
}
