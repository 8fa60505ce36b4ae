/** Field histograms under composition: value counts summed, then re-admitted under a cap. */
module Histograms {
  import opened Options
  import opened Orders
  import opened Bytes

  /** A Shannon entropy, told by what it is computed over: the multiset of counts and their total. */
  datatype Entropy = Entropy(counts: multiset<nat>, total: nat)

  datatype FieldHistogram = FieldHistogram(index: nat, values: map<Text, nat>, total: nat, entropy: Entropy,
                                           cardinality: nat)

  datatype ValueCount = ValueCount(value: Text, count: nat)

  /** The highest counts first, the smaller value at equal counts. */
  const ValueOrder: (ValueCount, ValueCount) -> bool :=
    (a: ValueCount, b: ValueCount) => a.count > b.count || (a.count == b.count && LexLess(a.value, b.value))

  lemma ValueOrderIsTotal()
    ensures StrictTotal(ValueOrder)
  {
    TextOrderIsTotal();
    forall x: Text, y: Text ensures x == y || LexLess(x, y) || LexLess(y, x) { LexTrichotomy(x, y); }
    hide LexLess;
    forall x ensures !ValueOrder(x, x) { LexIrreflexive(x.value); }
    forall x, y, z | ValueOrder(x, y) && ValueOrder(y, z) ensures ValueOrder(x, z) {
      if x.count == y.count == z.count { LexTransitive(x.value, y.value, z.value); }
    }
  }

  ghost function ItemsOf(values: map<Text, nat>): set<ValueCount> { set v | v in values :: ValueCount(v, values[v]) }

  /** A slot's values in admission order. */
  ghost function Ranked(values: map<Text, nat>): (r: seq<ValueCount>)
    ensures Ascending(ValueOrder, r) && Elements(r) == ItemsOf(values) && |r| == |values|
  {
    ValueOrderIsTotal();
    ItemCount(values);
    SortedOf(ValueOrder, ItemsOf(values))
  }

  lemma {:induction false} ItemCount(values: map<Text, nat>)
    ensures |ItemsOf(values)| == |values|
    decreases |values|
  {
    if values == map[] {
      assert ItemsOf(values) == {};
    } else {
      var v: Text :| v in values;
      var rest := map x | x in values && x != v :: values[x];
      assert values.Keys == rest.Keys + {v};
      assert |values| == |values.Keys| && |rest| == |rest.Keys|;
      ItemCount(rest);
      assert ItemsOf(values) == ItemsOf(rest) + {ValueCount(v, values[v])};
      assert ValueCount(v, values[v]) !in ItemsOf(rest);
    }
  }

  function MapOf(items: seq<ValueCount>): map<Text, nat> {
    if items == [] then map[] else MapOf(items[..|items| - 1])[items[|items| - 1].value := items[|items| - 1].count]
  }

  function CountsOf(items: seq<ValueCount>): (r: seq<nat>)
    ensures |r| == |items| && forall i :: 0 <= i < |r| ==> r[i] == items[i].count
  {
    seq(|items|, i requires 0 <= i < |items| => items[i].count)
  }

  /** A slot cut to its `cap` highest-ranked values; a slot within the cap is left as it is. */
  ghost function Readmitted(slot: FieldHistogram, cap: nat): FieldHistogram {
    if |slot.values| <= cap then slot
    else
      var kept := Ranked(slot.values)[..cap];
      slot.(values := MapOf(kept), entropy := Entropy(multiset(CountsOf(kept)), slot.total))
  }

  /** A map's items in whatever order iteration yields them. */
  method Enumerate(values: map<Text, nat>) returns (items: seq<ValueCount>)
    ensures Elements(items) == ItemsOf(values) && NoDuplicates(items)
  {
    items := [];
    var rest := values.Keys;
    while rest != {}
      invariant rest <= values.Keys && NoDuplicates(items)
      invariant forall x :: x in Elements(items) <==> x in ItemsOf(values) && x.value !in rest
      decreases |rest|
    {
      var v: Text :| v in rest;
      var x := ValueCount(v, values[v]);
      assert x in ItemsOf(values) && x !in Elements(items);
      NewItem(items, x);
      hide NoDuplicates, Elements;
      items := items + [x];
      rest := rest - {v};
    }
  }

  method RankValues(values: map<Text, nat>) returns (sorted: seq<ValueCount>)
    ensures sorted == Ranked(values)
  {
    var items := Enumerate(values);
    ValueOrderIsTotal();
    sorted := Sort(ValueOrder, items);
    SortedIsRanked(ValueOrder, sorted, items);
    AscendingUnique(ValueOrder, sorted, Ranked(values));
  }

  method ReadmitSlot(slot: FieldHistogram, cap: nat) returns (r: FieldHistogram)
    ensures r == Readmitted(slot, cap)
  {
    if |slot.values| <= cap {
      return slot;
    }
    var sorted := RankValues(slot.values);
    var values, counts := Keep(sorted[..cap]);
    r := slot.(values := values, entropy := Entropy(multiset(counts), slot.total));
  }

  method Keep(kept: seq<ValueCount>) returns (values: map<Text, nat>, counts: seq<nat>)
    ensures values == MapOf(kept) && counts == CountsOf(kept)
  {
    values, counts := map[], [];
    for i := 0 to |kept|
      invariant values == MapOf(kept[..i]) && counts == CountsOf(kept[..i])
    {
      assert kept[..i + 1][..i] == kept[..i];
      counts := counts + [kept[i].count];
      values := values[kept[i].value := kept[i].count];
    }
    assert kept[..|kept|] == kept;
  }

  // ---------------------------------------------------------------- what re-admission keeps

  lemma {:induction false} MapOfItems(items: seq<ValueCount>)
    requires forall i, j {:trigger items[i], items[j]} :: 0 <= i < j < |items| ==> items[i].value != items[j].value
    ensures forall v :: v in MapOf(items) <==> exists x :: x in items && x.value == v
    ensures forall x :: x in items ==> x.value in MapOf(items) && MapOf(items)[x.value] == x.count
    ensures |MapOf(items)| == |items|
  {
    if items != [] {
      var front, last := items[..|items| - 1], items[|items| - 1];
      assert forall x :: x in items <==> x in front || x == last;
      MapOfItems(front);
      assert last.value !in MapOf(front);
    }
  }

  lemma RankedDistinct(values: map<Text, nat>)
    ensures var r := Ranked(values);
            forall i, j {:trigger r[i], r[j]} :: 0 <= i < j < |r| ==> r[i].value != r[j].value
    ensures forall x :: x in Ranked(values) ==> x.value in values && values[x.value] == x.count
  {
    var r := Ranked(values);
    ValueOrderIsTotal();
    AscendingIsSorted(ValueOrder, r);
    forall x | x in r ensures x.value in values && values[x.value] == x.count { assert x in Elements(r); }
    forall i, j | 0 <= i < j < |r| ensures r[i].value != r[j].value {
      assert r[i] in r && r[j] in r && r[i] != r[j];
    }
  }

  lemma ReadmissionRanks(slot: FieldHistogram, cap: nat)
    ensures var r := Readmitted(slot, cap);
            && |r.values| == (if |slot.values| <= cap then |slot.values| else cap)
            && r.total == slot.total && r.index == slot.index && r.cardinality == slot.cardinality
            && (forall v :: v in r.values ==> v in slot.values && r.values[v] == slot.values[v])
            && (forall v, w :: v in r.values && w in slot.values && w !in r.values ==>
                  ValueOrder(ValueCount(v, slot.values[v]), ValueCount(w, slot.values[w])))
  {
    if |slot.values| > cap {
      var ranked := Ranked(slot.values);
      RankedDistinct(slot.values);
      var kept := ranked[..cap];
      assert forall x :: x in kept ==> x in ranked;
      MapOfItems(kept);
      hide ValueOrder, Ranked;
      forall v, w | v in MapOf(kept) && w in slot.values && w !in MapOf(kept)
        ensures ValueOrder(ValueCount(v, slot.values[v]), ValueCount(w, slot.values[w]))
      {
        KeptOutranks(slot.values, cap, v, w);
      }
    }
  }

  /** Re-admission keeps exactly the best `cap` values: it never invents a count, keeps as many as it
      may, and every kept value outranks every dropped one. */
  lemma ReadmissionKeepsBest(slot: FieldHistogram, cap: nat)
    ensures var r := Readmitted(slot, cap);
            && |r.values| == (if |slot.values| <= cap then |slot.values| else cap)
            && r.total == slot.total && r.index == slot.index && r.cardinality == slot.cardinality
            && (forall v :: v in r.values ==> v in slot.values && r.values[v] == slot.values[v])
            && (forall v, w :: v in r.values && w in slot.values && w !in r.values ==>
                  slot.values[w] < slot.values[v] || (slot.values[w] == slot.values[v] && LexLess(v, w)))
  {
    ReadmissionRanks(slot, cap);
    hide Readmitted, ValueOrder;
    var r := Readmitted(slot, cap);
    forall v, w | v in r.values && w in slot.values && w !in r.values
      ensures slot.values[w] < slot.values[v] || (slot.values[w] == slot.values[v] && LexLess(v, w))
    {
      RanksByCount(ValueCount(v, slot.values[v]), ValueCount(w, slot.values[w]));
    }
  }

  lemma RanksByCount(a: ValueCount, b: ValueCount)
    requires ValueOrder(a, b)
    ensures b.count < a.count || (b.count == a.count && LexLess(a.value, b.value))
  {}

  lemma KeptOutranks(values: map<Text, nat>, cap: nat, v: Text, w: Text)
    requires cap <= |values| && v in MapOf(Ranked(values)[..cap]) && w in values && w !in MapOf(Ranked(values)[..cap])
    ensures v in values && ValueOrder(ValueCount(v, values[v]), ValueCount(w, values[w]))
  {
    var i := KeptAt(values, cap, v);
    var j := DroppedAt(values, cap, w);
    hide MapOf;
    assert ValueOrder(Ranked(values)[i], Ranked(values)[j]);
  }

  lemma KeptMap(values: map<Text, nat>, cap: nat)
    requires cap <= |values|
    ensures forall u :: u in MapOf(Ranked(values)[..cap]) <==> exists x :: x in Ranked(values)[..cap] && x.value == u
  {
    RankedDistinct(values);
    hide Ranked;
    MapOfItems(Ranked(values)[..cap]);
  }

  lemma KeptAt(values: map<Text, nat>, cap: nat, v: Text) returns (i: nat)
    requires cap <= |values| && v in MapOf(Ranked(values)[..cap])
    ensures v in values && i < cap && Ranked(values)[i] == ValueCount(v, values[v])
  {
    KeptMap(values, cap);
    RankedDistinct(values);
    hide MapOf, ValueOrder;
    var ranked := Ranked(values);
    var x :| x in ranked[..cap] && x.value == v;
    i :| 0 <= i < cap && ranked[i] == x;
    assert ranked[i] in ranked;
  }

  lemma DroppedAt(values: map<Text, nat>, cap: nat, w: Text) returns (j: nat)
    requires cap <= |values| && w in values && w !in MapOf(Ranked(values)[..cap])
    ensures cap <= j < |values| && Ranked(values)[j] == ValueCount(w, values[w])
  {
    KeptMap(values, cap);
    hide MapOf, ValueOrder;
    var ranked := Ranked(values);
    assert ValueCount(w, values[w]) in Elements(ranked);
    j :| 0 <= j < |ranked| && ranked[j] == ValueCount(w, values[w]);
    assert forall k {:trigger ranked[k]} :: 0 <= k < cap ==>
        ranked[..cap][k] == ranked[k] && ranked[k] in ranked[..cap];
  }

  // ---------------------------------------------------------------- merging

  /** No two slots share a parameter index. */
  ghost predicate DistinctSlots(hists: seq<FieldHistogram>) {
    forall i, j {:trigger hists[i], hists[j]} :: 0 <= i < j < |hists| ==> hists[i].index != hists[j].index
  }

  ghost function Indices(hists: seq<FieldHistogram>): set<nat> { set h | h in hists :: h.index }

  ghost function SlotAt(hists: seq<FieldHistogram>, index: nat): FieldHistogram
    requires index in Indices(hists)
  {
    var h :| h in hists && h.index == index; h
  }

  lemma SlotAtIs(hists: seq<FieldHistogram>, h: FieldHistogram)
    requires DistinctSlots(hists) && h in hists
    ensures h.index in Indices(hists) && SlotAt(hists, h.index) == h
  {
    var g := SlotAt(hists, h.index);
    var i :| 0 <= i < |hists| && hists[i] == h;
    var j :| 0 <= j < |hists| && hists[j] == g;
  }

  function SumValues(a: map<Text, nat>, b: map<Text, nat>): (m: map<Text, nat>)
    ensures m.Keys == a.Keys + b.Keys
    ensures forall v :: v in m ==> m[v] == (if v in a then a[v] else 0) + if v in b then b[v] else 0
  {
    map v | v in a.Keys + b.Keys :: (if v in a then a[v] else 0) + if v in b then b[v] else 0
  }

  ghost function AllCounts(values: map<Text, nat>): multiset<nat> { multiset(CountsOf(Ranked(values))) }

  ghost function SummedSlot(a: FieldHistogram, b: FieldHistogram): FieldHistogram {
    var values := SumValues(a.values, b.values);
    FieldHistogram(b.index, values, a.total + b.total, Entropy(AllCounts(values), a.total + b.total),
                   if a.cardinality < b.cardinality then b.cardinality else a.cardinality)
  }

  ghost predicate InCap(index: nat, slotCap: Option<nat>) { slotCap.None? || index < slotCap.value }

  ghost function MergedSlot(lhs: seq<FieldHistogram>, rhs: seq<FieldHistogram>, index: nat,
                            valueCap: nat): FieldHistogram
    requires index in Indices(lhs) + Indices(rhs)
  {
    Readmitted(if index !in Indices(rhs) then SlotAt(lhs, index)
               else if index !in Indices(lhs) then SlotAt(rhs, index)
               else SummedSlot(SlotAt(lhs, index), SlotAt(rhs, index)), valueCap)
  }

  const Smaller: (nat, nat) -> bool := (a: nat, b: nat) => a < b

  ghost function KeptIndices(lhs: seq<FieldHistogram>, rhs: seq<FieldHistogram>, slotCap: Option<nat>): (r: seq<nat>)
    ensures Ascending(Smaller, r) && Elements(r) == set i | i in Indices(lhs) + Indices(rhs) && InCap(i, slotCap)
  {
    SortedOf(Smaller, set i | i in Indices(lhs) + Indices(rhs) && InCap(i, slotCap))
  }

  /** One slot per admitted index either side has, in index order. */
  ghost function MergedHistograms(lhs: seq<FieldHistogram>, rhs: seq<FieldHistogram>, slotCap: Option<nat>,
                                  valueCap: nat): (r: seq<FieldHistogram>)
    ensures |r| == |KeptIndices(lhs, rhs, slotCap)|
    ensures forall i :: 0 <= i < |r| ==>
              KeptIndices(lhs, rhs, slotCap)[i] in Indices(lhs) + Indices(rhs)
              && r[i] == MergedSlot(lhs, rhs, KeptIndices(lhs, rhs, slotCap)[i], valueCap)
  {
    var indices := KeptIndices(lhs, rhs, slotCap);
    assert forall i :: 0 <= i < |indices| ==> indices[i] in Elements(indices);
    seq(|indices|, i requires 0 <= i < |indices| => MergedSlot(lhs, rhs, indices[i], valueCap))
  }

  lemma SummedSlotCommutes(a: FieldHistogram, b: FieldHistogram)
    requires a.index == b.index
    ensures SummedSlot(a, b) == SummedSlot(b, a)
  {
    assert SumValues(a.values, b.values) == SumValues(b.values, a.values);
  }

  lemma SlotAtIndex(hists: seq<FieldHistogram>, index: nat)
    requires index in Indices(hists)
    ensures SlotAt(hists, index) in hists && SlotAt(hists, index).index == index
  {}

  /** Merging histograms does not depend on which side is which. */
  lemma MergedHistogramsCommute(lhs: seq<FieldHistogram>, rhs: seq<FieldHistogram>, slotCap: Option<nat>, valueCap: nat)
    ensures MergedHistograms(lhs, rhs, slotCap, valueCap) == MergedHistograms(rhs, lhs, slotCap, valueCap)
  {
    assert Indices(lhs) + Indices(rhs) == Indices(rhs) + Indices(lhs);
    var indices := KeptIndices(lhs, rhs, slotCap);
    AscendingUnique(Smaller, indices, KeptIndices(rhs, lhs, slotCap));
    hide Readmitted, SummedSlot;
    forall i | 0 <= i < |indices|
      ensures MergedHistograms(lhs, rhs, slotCap, valueCap)[i] == MergedHistograms(rhs, lhs, slotCap, valueCap)[i]
    {
      var index := indices[i];
      assert index in Elements(indices);
      if index in Indices(lhs) && index in Indices(rhs) {
        SlotAtIndex(lhs, index);
        SlotAtIndex(rhs, index);
        SummedSlotCommutes(SlotAt(lhs, index), SlotAt(rhs, index));
      }
    }
  }

  // ---------------------------------------------------------------- the merge loop

  method AddCounts(a: map<Text, nat>, b: map<Text, nat>) returns (m: map<Text, nat>)
    ensures m == SumValues(a, b)
  {
    m := a;
    var items := Enumerate(b);
    ghost var added: map<Text, nat> := map[];
    assert SumValues(a, map[]) == a;
    for i := 0 to |items|
      invariant m == SumValues(a, added)
      invariant added.Keys == (set x | x in items[..i] :: x.value)
          && forall v :: v in added ==> v in b && added[v] == b[v]
    {
      var x := items[i];
      ItemsAreDistinct(items, b, i);
      assert items[..i + 1] == items[..i] + [x];
      AddOne(a, added, x);
      hide SumValues, NoDuplicates, ItemsOf, Elements;
      m := m[x.value := (if x.value in m then m[x.value] else 0) + x.count];
      added := added[x.value := x.count];
    }
    assert items[..|items|] == items;
    forall v | v in b ensures v in added { assert ValueCount(v, b[v]) in Elements(items); }
    assert added == b;
  }

  lemma AddOne(a: map<Text, nat>, added: map<Text, nat>, x: ValueCount)
    requires x.value !in added
    ensures var m := SumValues(a, added);
            SumValues(a, added[x.value := x.count]) == m[x.value := (if x.value in m then m[x.value] else 0) + x.count]
  {}

  lemma ItemsAreDistinct(items: seq<ValueCount>, values: map<Text, nat>, i: nat)
    requires NoDuplicates(items) && Elements(items) == ItemsOf(values) && i < |items|
    ensures forall x :: x in items[..i] ==> x.value in values && x.value != items[i].value
    ensures items[i].value in values && items[i].count == values[items[i].value]
  {
    assert items[i] in Elements(items);
    forall x | x in items[..i] ensures x.value in values && x.value != items[i].value {
      var j :| 0 <= j < i && items[j] == x;
      assert items[j] in Elements(items) && items[j] != items[i];
    }
  }

  /** Slots already merged: each is the merged slot of its index, and no index comes twice. */
  ghost predicate MergedSoFar(out: seq<FieldHistogram>, lhs: seq<FieldHistogram>, rhs: seq<FieldHistogram>,
                              done: set<nat>, valueCap: nat) {
    && DistinctSlots(out) && Indices(out) == done && done <= Indices(lhs) + Indices(rhs)
    && (forall h :: h in out ==> h.index in done && h == MergedSlot(lhs, rhs, h.index, valueCap))
  }

  lemma MergeOne(out: seq<FieldHistogram>, lhs: seq<FieldHistogram>, rhs: seq<FieldHistogram>, done: set<nat>,
                 valueCap: nat, h: FieldHistogram)
    requires MergedSoFar(out, lhs, rhs, done, valueCap) && h.index in Indices(lhs) + Indices(rhs) && h.index !in done
    requires h == MergedSlot(lhs, rhs, h.index, valueCap)
    ensures MergedSoFar(out + [h], lhs, rhs, done + {h.index}, valueCap)
  {
    hide MergedSlot;
    forall g | g in out ensures g.index != h.index { assert g.index in Indices(out); }
    assert forall g :: g in out + [h] <==> g in out || g == h;
  }

  ghost function AdmittedIndices(hists: seq<FieldHistogram>, slotCap: Option<nat>): set<nat> {
    set i | i in Indices(hists) && InCap(i, slotCap)
  }

  lemma AdmittedSnoc(hists: seq<FieldHistogram>, k: nat, slotCap: Option<nat>)
    requires k < |hists| && DistinctSlots(hists)
    ensures AdmittedIndices(hists[..k + 1], slotCap)
         == if InCap(hists[k].index, slotCap) then AdmittedIndices(hists[..k], slotCap) + {hists[k].index}
             else AdmittedIndices(hists[..k], slotCap)
    ensures hists[k].index !in AdmittedIndices(hists[..k], slotCap) && hists[k].index in Indices(hists)
  {
    assert hists[..k + 1] == hists[..k] + [hists[k]];
    assert forall h :: h in hists[..k + 1] <==> h in hists[..k] || h == hists[k];
    assert hists[k] in hists;
    forall h | h in hists[..k] ensures h.index != hists[k].index { var j :| 0 <= j < k && hists[j] == h; }
  }

  method FindSlot(hists: seq<FieldHistogram>, index: nat) returns (found: Option<FieldHistogram>)
    requires DistinctSlots(hists)
    ensures index !in Indices(hists) ==> found == None
    ensures index in Indices(hists) ==> found == Some(SlotAt(hists, index))
  {
    for k := 0 to |hists|
      invariant forall j :: 0 <= j < k ==> hists[j].index != index
    {
      if hists[k].index == index {
        SlotAtIs(hists, hists[k]);
        return Some(hists[k]);
      }
    }
    return None;
  }

  method MergeSlots(lhs: FieldHistogram, rhs: FieldHistogram) returns (merged: FieldHistogram)
    ensures merged == SummedSlot(lhs, rhs)
  {
    hide Ranked, SumValues;
    var values := AddCounts(lhs.values, rhs.values);
    var ranked := RankValues(values);
    merged := FieldHistogram(rhs.index, values, lhs.total + rhs.total,
                             Entropy(multiset(CountsOf(ranked)), lhs.total + rhs.total),
                             if lhs.cardinality < rhs.cardinality then rhs.cardinality else lhs.cardinality);
  }

  lemma ReadmittedIndex(slot: FieldHistogram, cap: nat)
    ensures Readmitted(slot, cap).index == slot.index
  {}

  method MergeRight(lhs: seq<FieldHistogram>, rhs: seq<FieldHistogram>, slotCap: Option<nat>, valueCap: nat)
    returns (out: seq<FieldHistogram>, seen: set<nat>)
    requires DistinctSlots(lhs) && DistinctSlots(rhs)
    ensures seen == AdmittedIndices(rhs, slotCap) && MergedSoFar(out, lhs, rhs, seen, valueCap)
  {
    out, seen := [], {};
    for k := 0 to |rhs|
      invariant seen == AdmittedIndices(rhs[..k], slotCap) && MergedSoFar(out, lhs, rhs, seen, valueCap)
    {
      AdmittedSnoc(rhs, k, slotCap);
      var hist := rhs[k];
      hide MergedSoFar, AdmittedIndices, DistinctSlots, Readmitted, SummedSlot;
      if slotCap.Some? && hist.index >= slotCap.value {
        continue;
      }
      SlotAtIs(rhs, hist);
      var found := FindSlot(lhs, hist.index);
      if found.None? {
        var slot := ReadmitSlot(hist, valueCap);
        ReadmittedIndex(hist, valueCap);
        MergeOne(out, lhs, rhs, seen, valueCap, slot);
        out := out + [slot];
      } else {
        SlotAtIndex(lhs, hist.index);
        var merged := MergeSlots(found.value, hist);
        SummedIndex(found.value, hist);
        var slot := ReadmitSlot(merged, valueCap);
        ReadmittedIndex(merged, valueCap);
        MergeOne(out, lhs, rhs, seen, valueCap, slot);
        out := out + [slot];
      }
      seen := seen + {hist.index};
    }
    assert rhs[..|rhs|] == rhs;
  }

  lemma SummedIndex(a: FieldHistogram, b: FieldHistogram)
    ensures SummedSlot(a, b).index == b.index
  {}

  /** A merged slot: where both sides track the parameter, a value is counted as often as both count it together, the
      totals add up and the greater cardinality stays; where one side does, it is that side's. Of the values as many
      stay as the cap allows, with their counts. */
  lemma MergedSlotReads(lhs: seq<FieldHistogram>, rhs: seq<FieldHistogram>, index: nat, valueCap: nat,
                        a: FieldHistogram, b: FieldHistogram)
    requires DistinctSlots(lhs) && DistinctSlots(rhs) && index in Indices(lhs) + Indices(rhs)
    requires index in Indices(lhs) ==> a in lhs && a.index == index
    requires index in Indices(rhs) ==> b in rhs && b.index == index
    ensures var m, both := MergedSlot(lhs, rhs, index, valueCap), index in Indices(lhs) && index in Indices(rhs);
            && m.index == index && |m.values| <= valueCap
            && (both ==> m.total == a.total + b.total && m.cardinality == Max(a.cardinality, b.cardinality))
            && (index !in Indices(rhs) ==> m.total == a.total && m.cardinality == a.cardinality)
            && (index !in Indices(lhs) ==> m.total == b.total && m.cardinality == b.cardinality)
            && (forall v :: v in m.values ==>
                  m.values[v] == (if index in Indices(lhs) && v in a.values then a.values[v] else 0)
                                 + (if index in Indices(rhs) && v in b.values then b.values[v] else 0))
  {
    if index in Indices(lhs) { SlotAtIs(lhs, a); }
    if index in Indices(rhs) { SlotAtIs(rhs, b); }
    var whole := if index !in Indices(rhs) then a else if index !in Indices(lhs) then b else SummedSlot(a, b);
    assert MergedSlot(lhs, rhs, index, valueCap) == Readmitted(whole, valueCap);
    hide Readmitted, Indices, SlotAt, MergedSlot, AllCounts, DistinctSlots;
    ReadmissionKeepsBest(whole, valueCap);
  }

  const SlotOrder: (FieldHistogram, FieldHistogram) -> bool := (a: FieldHistogram, b: FieldHistogram) =>
      a.index < b.index

  method MergeFieldHistograms(lhs: seq<FieldHistogram>, rhs: seq<FieldHistogram>, slotCap: Option<nat>, valueCap: nat)
    returns (out: seq<FieldHistogram>)
    requires DistinctSlots(lhs) && DistinctSlots(rhs)
    ensures out == MergedHistograms(lhs, rhs, slotCap, valueCap)
  {
    var seen: set<nat>;
    out, seen := MergeRight(lhs, rhs, slotCap, valueCap);
    ghost var done := seen;
    for k := 0 to |lhs|
      invariant done == seen + AdmittedIndices(lhs[..k], slotCap) && MergedSoFar(out, lhs, rhs, done, valueCap)
    {
      AdmittedSnoc(lhs, k, slotCap);
      var hist := lhs[k];
      LeftSlot(lhs, rhs, k, slotCap, valueCap);
      hide MergedSoFar, AdmittedIndices, DistinctSlots, Readmitted, SummedSlot, MergedSlot;
      if (slotCap.None? || hist.index < slotCap.value) && hist.index !in seen {
        var slot := ReadmitSlot(hist, valueCap);
        ReadmittedIndex(hist, valueCap);
        MergeOne(out, lhs, rhs, done, valueCap, slot);
        out := out + [slot];
        done := done + {hist.index};
      }
    }
    assert lhs[..|lhs|] == lhs;
    AllAdmitted(lhs, rhs, slotCap);
    var merged := out;
    out := Sort(SlotOrder, merged);
    SortedSlots(out, merged, lhs, rhs, done, slotCap, valueCap);
  }

  lemma LeftSlot(lhs: seq<FieldHistogram>, rhs: seq<FieldHistogram>, k: nat, slotCap: Option<nat>, valueCap: nat)
    requires DistinctSlots(lhs) && k < |lhs|
    ensures lhs[k].index in Indices(lhs)
    ensures InCap(lhs[k].index, slotCap) && lhs[k].index !in AdmittedIndices(rhs, slotCap) ==>
              MergedSlot(lhs, rhs, lhs[k].index, valueCap) == Readmitted(lhs[k], valueCap)
  {
    SlotAtIs(lhs, lhs[k]);
  }

  lemma AllAdmitted(lhs: seq<FieldHistogram>, rhs: seq<FieldHistogram>, slotCap: Option<nat>)
    ensures AdmittedIndices(rhs, slotCap) + AdmittedIndices(lhs, slotCap) == Elements(KeptIndices(lhs, rhs, slotCap))
  {}

  function IndexList(hists: seq<FieldHistogram>): (r: seq<nat>)
    ensures |r| == |hists| && forall i :: 0 <= i < |r| ==> r[i] == hists[i].index
  {
    seq(|hists|, i requires 0 <= i < |hists| => hists[i].index)
  }

  lemma SameIndices(sorted: seq<FieldHistogram>, merged: seq<FieldHistogram>)
    requires multiset(sorted) == multiset(merged)
    ensures Elements(IndexList(sorted)) == Indices(merged)
    ensures forall h :: h in sorted <==> h in merged
  {
    assert forall h :: h in sorted <==> h in multiset(sorted);
    assert forall h :: h in merged <==> h in multiset(merged);
    forall x | x in Indices(merged) ensures x in IndexList(sorted) {
      var h :| h in merged && h.index == x;
      var i :| 0 <= i < |sorted| && sorted[i] == h;
      assert IndexList(sorted)[i] == x;
    }
    forall x | x in IndexList(sorted) ensures x in Indices(merged) {
      var i :| 0 <= i < |sorted| && IndexList(sorted)[i] == x;
      assert sorted[i] in sorted;
    }
  }

  lemma SlotsNoDuplicates(merged: seq<FieldHistogram>)
    requires DistinctSlots(merged)
    ensures NoDuplicates(merged)
  {}

  lemma SortedSlots(sorted: seq<FieldHistogram>, merged: seq<FieldHistogram>, lhs: seq<FieldHistogram>,
                    rhs: seq<FieldHistogram>,
                    done: set<nat>, slotCap: Option<nat>, valueCap: nat)
    requires Sorted(SlotOrder, sorted) && multiset(sorted) == multiset(merged)
        && MergedSoFar(merged, lhs, rhs, done, valueCap)
    requires done == Elements(KeptIndices(lhs, rhs, slotCap))
    ensures sorted == MergedHistograms(lhs, rhs, slotCap, valueCap)
  {
    SameIndices(sorted, merged);
    SlotsNoDuplicates(merged);
    hide MergedSlot;
    var indices := IndexList(sorted);
    forall i, j | 0 <= i < j < |indices| ensures Smaller(indices[i], indices[j]) {
      assert !SlotOrder(sorted[j], sorted[i]);
      DistinctAfterSort(sorted, merged, i, j);
    }
    AscendingUnique(Smaller, indices, KeptIndices(lhs, rhs, slotCap));
    assert |sorted| == |indices|;
    forall i | 0 <= i < |sorted| ensures sorted[i] == MergedHistograms(lhs, rhs, slotCap, valueCap)[i] {
      assert sorted[i] in merged && indices[i] == sorted[i].index;
    }
  }

  lemma DistinctAfterSort(sorted: seq<FieldHistogram>, merged: seq<FieldHistogram>, i: nat, j: nat)
    requires multiset(sorted) == multiset(merged) && DistinctSlots(merged) && i < j < |sorted|
    ensures sorted[i].index != sorted[j].index
  {
    assert sorted[i] in multiset(merged) && sorted[j] in multiset(merged);
    var a :| 0 <= a < |merged| && merged[a] == sorted[i];
    var b :| 0 <= b < |merged| && merged[b] == sorted[j];
    if a == b {
      TwiceInMultiset(sorted, i, j);
      SlotsNoDuplicates(merged);
      OnceInMultiset(merged, sorted[i]);
    }
  }
}
