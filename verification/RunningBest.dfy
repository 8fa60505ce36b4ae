/** Running maxima over collections read in no promised order. */
module RunningBest {
  import opened Orders

  /** A strict order in which being tied is transitive. */
  ghost predicate StrictWeak<T(!new)>(beats: (T, T) -> bool) {
    && (forall x :: !beats(x, x))
    && (forall x, y, z {:trigger beats(x, y), beats(y, z)} :: beats(x, y) && beats(y, z) ==> beats(x, z))
    && (forall x, y, z {:trigger beats(x, y), beats(x, z)} :: beats(x, z) ==> beats(x, y) || beats(y, z))
  }

  /** Nothing offered beats it, and it was offered. */
  ghost predicate IsStrongest<T>(beats: (T, T) -> bool, offered: set<T>, best: T) {
    best in offered && forall x :: x in offered ==> !beats(x, best)
  }

  lemma TotalIsWeak<T(!new)>(beats: (T, T) -> bool)
    requires StrictTotal(beats)
    ensures StrictWeak(beats)
  {
    forall x, y, z | beats(x, z) ensures beats(x, y) || beats(y, z) {
      assert x == y || beats(x, y) || beats(y, x);
      if beats(y, x) { assert beats(y, z); }
    }
  }

  /** One more offer to a running maximum. */
  lemma OfferStep<T(!new)>(beats: (T, T) -> bool, offered: set<T>, best: T, x: T)
    requires StrictWeak(beats) && IsStrongest(beats, offered, best)
    ensures IsStrongest(beats, offered + {x}, if beats(x, best) then x else best)
  {
    if beats(x, best) {
      forall y | y in offered ensures !beats(y, x) {
        assert !beats(y, best);
        assert beats(y, x) ==> beats(y, best);
      }
    }
  }

  /** Where no two offers tie, the strongest is one value, whatever the order it was found in. */
  lemma StrongestUnique<T(!new)>(beats: (T, T) -> bool, offered: set<T>, a: T, b: T)
    requires IsStrongest(beats, offered, a) && IsStrongest(beats, offered, b)
    requires forall x, y :: x in offered && y in offered && x != y ==> beats(x, y) || beats(y, x)
    ensures a == b
  {}

  lemma StrongestTotal<T(!new)>(beats: (T, T) -> bool, offered: set<T>, a: T, b: T)
    requires StrictTotal(beats) && IsStrongest(beats, offered, a) && IsStrongest(beats, offered, b)
    ensures a == b
  {
    assert a == b || beats(a, b) || beats(b, a);
  }

  /** One pass with a running best, in whatever order the collection yields its items. */
  method PickStrongest<T(==,!new)>(beats: (T, T) -> bool, start: T, items: set<T>) returns (best: T)
    requires StrictWeak(beats)
    ensures IsStrongest(beats, items + {start}, best)
  {
    best := start;
    var left := items;
    assert {start} + (items - left) == {start};
    while left != {}
      invariant left <= items && IsStrongest(beats, {start} + (items - left), best)
      decreases left
    {
      var x :| x in left;
      OfferStep(beats, {start} + (items - left), best, x);
      assert {start} + (items - (left - {x})) == {start} + (items - left) + {x};
      if beats(x, best) {
        best := x;
      }
      left := left - {x};
    }
    assert {start} + (items - left) == items + {start};
  }
}
