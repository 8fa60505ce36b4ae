/** Sums over finite sets, and their agreement with sums along a sequence. */
module Sums {
  import opened Orders

  ghost function SetSum<T>(s: set<T>, f: T -> nat): nat
    decreases |s|
  {
    if s == {} then 0 else var x :| x in s; f(x) + SetSum(s - {x}, f)
  }

  /** Any element may be taken out first. */
  lemma {:induction false} SetSumRemove<T>(s: set<T>, x: T, f: T -> nat)
    requires x in s
    ensures SetSum(s, f) == f(x) + SetSum(s - {x}, f)
    decreases |s|
  {
    var y :| y in s && SetSum(s, f) == f(y) + SetSum(s - {y}, f);
    if y != x {
      SetSumRemove(s - {y}, x, f);
      SetSumRemove(s - {x}, y, f);
      assert s - {y} - {x} == s - {x} - {y};
    }
  }

  lemma SetSumAdd<T>(s: set<T>, x: T, f: T -> nat)
    requires x !in s
    ensures SetSum(s + {x}, f) == SetSum(s, f) + f(x)
  {
    SetSumRemove(s + {x}, x, f);
    assert s + {x} - {x} == s;
  }

  lemma {:induction false} SetSumUnion<T>(a: set<T>, b: set<T>, f: T -> nat)
    requires a !! b
    ensures SetSum(a + b, f) == SetSum(a, f) + SetSum(b, f)
    decreases |b|
  {
    if b == {} {
      assert a + b == a;
    } else {
      var x :| x in b;
      SetSumUnion(a, b - {x}, f);
      SetSumAdd(a + (b - {x}), x, f);
      SetSumRemove(b, x, f);
      assert a + (b - {x}) + {x} == a + b;
    }
  }

  lemma {:induction false} SetSumSame<T>(s: set<T>, f: T -> nat, g: T -> nat)
    requires forall x :: x in s ==> f(x) == g(x)
    ensures SetSum(s, f) == SetSum(s, g)
    decreases |s|
  {
    if s != {} {
      var x :| x in s;
      SetSumRemove(s, x, f);
      SetSumRemove(s, x, g);
      SetSumSame(s - {x}, f, g);
    }
  }

  lemma {:induction false} SetSumPlus<T>(s: set<T>, f: T -> nat, g: T -> nat, h: T -> nat)
    requires forall x :: x in s ==> h(x) == f(x) + g(x)
    ensures SetSum(s, h) == SetSum(s, f) + SetSum(s, g)
    decreases |s|
  {
    if s != {} {
      var x :| x in s;
      SetSumRemove(s, x, f);
      SetSumRemove(s, x, g);
      SetSumRemove(s, x, h);
      SetSumPlus(s - {x}, f, g, h);
    }
  }

  lemma {:induction false} SetSumZero<T>(s: set<T>, f: T -> nat)
    requires forall x :: x in s ==> f(x) == 0
    ensures SetSum(s, f) == 0
    decreases |s|
  {
    if s != {} {
      var x :| x in s;
      SetSumRemove(s, x, f);
      SetSumZero(s - {x}, f);
    }
  }

  /** A sum along distinct elements is the sum over their set. */
  lemma {:induction false} SequenceSum<T>(s: seq<T>, f: T -> nat)
    requires NoDuplicates(s)
    ensures Sum(s, f) == SetSum(Elements(s), f) && |Elements(s)| == |s|
  {
    if s == [] {
      assert Elements(s) == {};
    } else {
      var front, last := s[..|s| - 1], s[|s| - 1];
      assert s == front + [last] && last !in front;
      SequenceSum(front, f);
      SetSumAdd(Elements(front), last, f);
      assert Elements(s) == Elements(front) + {last};
    }
  }

  // ---------------------------------------------------------------- fibers

  ghost function Image<T, U>(s: set<T>, g: T -> U): set<U> { set x | x in s :: g(x) }

  ghost function Fiber<T, U>(s: set<T>, g: T -> U, y: U): set<T> { set x | x in s && g(x) == y }

  ghost function FiberTotal<T, U>(s: set<T>, g: T -> U, f: T -> nat): U -> nat { y => SetSum(Fiber(s, g, y), f) }

  lemma FiberRest<T, U>(s: set<T>, g: T -> U, y: U)
    requires y in Image(s, g)
    ensures var rest := s - Fiber(s, g, y);
            && Image(rest, g) == Image(s, g) - {y} && |rest| < |s|
            && forall z :: z != y ==> Fiber(rest, g, z) == Fiber(s, g, z)
  {
    var same := Fiber(s, g, y);
    var x :| x in s && g(x) == y;
    assert x in same;
    assert |s - same| < |s| by { assert same + (s - same) == s && |s| == |same| + |s - same|; }
  }

  lemma FibersElsewhere<T, U>(s: set<T>, g: T -> U, y: U, f: T -> nat)
    requires y in Image(s, g)
    ensures SetSum(Image(s, g), FiberTotal(s, g, f)) == SetSum(Fiber(s, g, y), f)
        + SetSum(Image(s - Fiber(s, g, y), g), FiberTotal(s - Fiber(s, g, y), g, f))
  {
    var rest := s - Fiber(s, g, y);
    FiberRest(s, g, y);
    hide Image, Fiber;
    SetSumRemove(Image(s, g), y, FiberTotal(s, g, f));
    SetSumSame(Image(rest, g), FiberTotal(rest, g, f), FiberTotal(s, g, f));
  }

  /** Grouping the terms of a sum by an image changes nothing. */
  lemma {:induction false} FiberSum<T, U>(s: set<T>, g: T -> U, f: T -> nat)
    ensures SetSum(s, f) == SetSum(Image(s, g), FiberTotal(s, g, f))
    decreases |s|
  {
    if s == {} {
      assert Image(s, g) == {};
    } else {
      var x :| x in s;
      var y := g(x);
      assert y in Image(s, g);
      var same := Fiber(s, g, y);
      FiberRest(s, g, y);
      FibersElsewhere(s, g, y, f);
      FiberSum(s - same, g, f);
      SetSumUnion(same, s - same, f);
      assert same + (s - same) == s;
    }
  }
}
