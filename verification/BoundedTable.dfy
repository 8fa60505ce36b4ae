/** A counting table that refuses new keys past its cap, and what it keeps of everything offered. */
module BoundedTable {
  import opened Orders
  import opened Sums

  ghost function Occurrences<K>(offered: seq<K>, key: K): nat { multiset(offered)[key] }

  /** The keys a table of this cap has taken, in the order it took them. */
  ghost function Retained<K>(offered: seq<K>, cap: nat): seq<K> {
    if offered == [] then []
    else
      var taken, key := Retained(offered[..|offered| - 1], cap), offered[|offered| - 1];
      if key in taken || |taken| >= cap then taken else taken + [key]
  }

  /** The distinct keys in order of first appearance. */
  ghost function Distinct<K>(offered: seq<K>): seq<K> {
    if offered == [] then []
    else
      var before, key := Distinct(offered[..|offered| - 1]), offered[|offered| - 1];
      if key in before then before else before + [key]
  }

  /** How many offers fall outside a set of keys. */
  ghost function Outside<K>(offered: seq<K>, keys: set<K>): nat {
    if offered == [] then 0
    else Outside(offered[..|offered| - 1], keys) + if offered[|offered| - 1] in keys then 0 else 1
  }

  ghost predicate Counts<K>(counts: map<K, nat>, offered: seq<K>, keys: set<K>) {
    counts.Keys == keys && forall k :: k in counts ==> counts[k] == Occurrences(offered, k)
  }

  /** The table holds exactly its retained keys with their exact counts; its two counters split all offers. */
  ghost predicate Refines<K>(counts: map<K, nat>, total: nat, dropped: nat, offered: seq<K>, cap: nat) {
    var keys := Elements(Retained(offered, cap));
    && Counts(counts, offered, keys) && |counts| <= cap
    && dropped == Outside(offered, keys) && total + dropped == |offered|
  }

  lemma {:induction false} DistinctIs<K>(offered: seq<K>)
    ensures NoDuplicates(Distinct(offered)) && Elements(Distinct(offered)) == Elements(offered)
  {
    if offered != [] {
      var front, key := offered[..|offered| - 1], offered[|offered| - 1];
      DistinctIs(front);
      assert offered == front + [key];
      assert Elements(offered) == Elements(front) + {key};
      if key !in Distinct(front) { assert Elements(Distinct(front) + [key]) == Elements(Distinct(front)) + {key}; }
    }
  }

  /** The retained keys are exactly the first `cap` distinct keys offered. */
  lemma {:induction false} RetainedAreFirst<K>(offered: seq<K>, cap: nat)
    ensures Retained(offered, cap) == Distinct(offered)[..Min(cap, |Distinct(offered)|)]
  {
    if offered != [] {
      var front, key := offered[..|offered| - 1], offered[|offered| - 1];
      RetainedAreFirst(front, cap);
      var taken, before := Retained(front, cap), Distinct(front);
      assert forall k :: k in taken ==> k in before;
      if key !in before {
        assert (before + [key])[..Min(cap, |before|)] == before[..Min(cap, |before|)];
      }
    }
  }

  lemma RetainedDistinct<K>(offered: seq<K>, cap: nat)
    ensures NoDuplicates(Retained(offered, cap)) && |Retained(offered, cap)| <= cap
        && |Elements(Retained(offered, cap))| == |Retained(offered, cap)|
  {
    RetainedAreFirst(offered, cap);
    DistinctIs(offered);
    SequenceSum(Retained(offered, cap), (k: K) => 0);
  }

  lemma OccurrencesSnoc<K>(offered: seq<K>, key: K, k: K)
    ensures Occurrences(offered + [key], k) == Occurrences(offered, k) + if k == key then 1 else 0
  {}

  lemma OutsideSnoc<K>(offered: seq<K>, key: K, keys: set<K>)
    ensures Outside(offered + [key], keys) == Outside(offered, keys) + if key in keys then 0 else 1
  {
    assert (offered + [key])[..|offered|] == offered;
  }

  lemma RetainedSnoc<K>(offered: seq<K>, key: K, cap: nat)
    ensures Retained(offered + [key], cap)
         == if key in Retained(offered, cap) || |Retained(offered, cap)| >= cap then Retained(offered, cap)
             else Retained(offered, cap) + [key]
  {
    assert (offered + [key])[..|offered|] == offered;
  }

  /** A key not yet taken by a table with room was never offered before. */
  lemma {:induction false} UnseenWhileRoom<K>(offered: seq<K>, key: K, cap: nat)
    requires |Retained(offered, cap)| < cap
    ensures key in Retained(offered, cap) <==> key in offered
  {
    if offered != [] {
      var front, last := offered[..|offered| - 1], offered[|offered| - 1];
      assert offered == front + [last];
      UnseenWhileRoom(front, key, cap);
    }
  }

  /** Widening the kept keys by one new key moves no earlier offer. */
  lemma {:induction false} OutsideUnseen<K>(offered: seq<K>, key: K, keys: set<K>)
    requires key !in offered
    ensures Outside(offered, keys + {key}) == Outside(offered, keys)
  {
    if offered != [] {
      assert forall k :: k in offered[..|offered| - 1] ==> k in offered;
      OutsideUnseen(offered[..|offered| - 1], key, keys);
      assert offered[|offered| - 1] in offered;
    }
  }

  /** One offer to a table: count it, take its key, or refuse it and say so. */
  lemma CountKnown<K>(counts: map<K, nat>, total: nat, dropped: nat, offered: seq<K>, cap: nat, key: K)
    requires Refines(counts, total, dropped, offered, cap) && key in counts
    ensures Refines(counts[key := counts[key] + 1], total + 1, dropped, offered + [key], cap)
  {
    RetainedSnoc(offered, key, cap);
    OutsideSnoc(offered, key, Elements(Retained(offered, cap)));
    forall k ensures Occurrences(offered + [key], k) == Occurrences(offered, k) + if k == key then 1 else 0
        { OccurrencesSnoc(offered, key, k); }
    hide Retained, Outside, Occurrences;
    var after := counts[key := counts[key] + 1];
    assert after.Keys == counts.Keys;
    assert |after| == |after.Keys| == |counts.Keys| == |counts|;
  }

  lemma NewKeyCounts<K>(counts: map<K, nat>, offered: seq<K>, keys: set<K>, key: K)
    requires Counts(counts, offered, keys) && key !in keys && key !in offered
    ensures Counts(counts[key := 1], offered + [key], keys + {key})
  {
    assert Occurrences(offered, key) == 0;
    forall k ensures Occurrences(offered + [key], k) == Occurrences(offered, k) + if k == key then 1 else 0
        { OccurrencesSnoc(offered, key, k); }
    hide Occurrences;
  }

  lemma NewKeySize<K>(counts: map<K, nat>, key: K)
    requires key !in counts
    ensures |counts[key := 1]| == |counts| + 1
  {
    assert counts[key := 1].Keys == counts.Keys + {key};
    assert |counts[key := 1]| == |counts[key := 1].Keys| && |counts| == |counts.Keys|;
  }

  lemma TakeNew<K>(counts: map<K, nat>, total: nat, dropped: nat, offered: seq<K>, cap: nat, key: K)
    requires Refines(counts, total, dropped, offered, cap) && key !in counts && |counts| < cap
    ensures Refines(counts[key := 1], total + 1, dropped, offered + [key], cap)
  {
    RetainedDistinct(offered, cap);
    var taken, keys := Retained(offered, cap), Elements(Retained(offered, cap));
    assert |counts| == |counts.Keys|;
    UnseenWhileRoom(offered, key, cap);
    RetainedSnoc(offered, key, cap);
    assert key !in taken && key !in keys;
    assert Elements(taken + [key]) == keys + {key};
    hide Retained, Outside, Counts, Elements;
    NewKeyCounts(counts, offered, keys, key);
    NewKeySize(counts, key);
    OutsideUnseen(offered, key, keys);
    OutsideSnoc(offered, key, keys + {key});
  }

  lemma RefuseNew<K>(counts: map<K, nat>, total: nat, dropped: nat, offered: seq<K>, cap: nat, key: K)
    requires Refines(counts, total, dropped, offered, cap) && key !in counts && |counts| >= cap
    ensures Refines(counts, total, dropped + 1, offered + [key], cap)
  {
    RetainedDistinct(offered, cap);
    assert |counts| == |counts.Keys|;
    RetainedSnoc(offered, key, cap);
    OutsideSnoc(offered, key, Elements(Retained(offered, cap)));
    forall k ensures Occurrences(offered + [key], k) == Occurrences(offered, k) + if k == key then 1 else 0
        { OccurrencesSnoc(offered, key, k); }
    hide Retained, Outside, Occurrences;
  }

  lemma NothingOffered<K>(cap: nat)
    ensures Refines<K>(map[], 0, 0, [], cap)
  {}

  /** The kept counts add up to the total, so nothing is counted and nothing refused without a trace. */
  lemma TotalIsKept<K>(counts: map<K, nat>, total: nat, dropped: nat, offered: seq<K>, cap: nat)
    requires Refines(counts, total, dropped, offered, cap)
    ensures SetSum(counts.Keys, CountOf(counts)) == total
  {
    KeptSum(offered, counts.Keys);
    SetSumSame(counts.Keys, CountOf(counts), OccurrenceOf(offered));
  }

  ghost function CountOf<K>(counts: map<K, nat>): K -> nat { (k: K) => if k in counts then counts[k] else 0 }

  ghost function OccurrenceOf<K>(offered: seq<K>): K -> nat { (k: K) => Occurrences(offered, k) }

  ghost function One<K>(key: K): K -> nat { (k: K) => if k == key then 1 else 0 }

  lemma {:induction false} KeptSum<K>(offered: seq<K>, keys: set<K>)
    ensures SetSum(keys, OccurrenceOf(offered)) + Outside(offered, keys) == |offered|
  {
    if offered == [] {
      SetSumZero(keys, OccurrenceOf(offered));
    } else {
      var front, key := offered[..|offered| - 1], offered[|offered| - 1];
      assert offered == front + [key];
      KeptSum(front, keys);
      forall k ensures OccurrenceOf(offered)(k) == OccurrenceOf(front)(k) + One(key)(k)
          { OccurrencesSnoc(front, key, k); }
      SetSumPlus(keys, OccurrenceOf(front), One(key), OccurrenceOf(offered));
      if key in keys {
        SetSumRemove(keys, key, One(key));
        SetSumZero(keys - {key}, One(key));
      } else {
        SetSumZero(keys, One(key));
      }
    }
  }
}
