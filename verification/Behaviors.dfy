/** Merging n-gram tables: counts summed on identical sequences, ranked and cut. */
module Behaviors {
  import opened Options
  import opened Identifiers
  import opened Orders
  import opened Bytes
  import opened ComposeStats
  import opened Histograms
  import opened StatsBuilders

  datatype NGram = NGram(sequence: seq<TemplateId>, count: nat, probability: real)

  type NGramId = nat

  /** The scalar id one sequence is accumulated under. */
  type IdOf = seq<TemplateId> -> NGramId

  datatype Behavior = Behavior(ngramSize: nat, topNgrams: seq<NGram>, topNgramsSize: nat, dropped: Option<nat>)

  predicate SequenceLess(a: seq<nat>, b: seq<nat>) {
    if b == [] then false else if a == [] then true else if a[0] != b[0] then a[0] < b[0]
        else SequenceLess(a[1..], b[1..])
  }

  /** The order of sequences is the order of texts. */
  lemma {:induction false} SequenceIsText(a: seq<nat>, b: seq<nat>)
    ensures SequenceLess(a, b) == LexLess(a, b)
  {
    if a != [] && b != [] { SequenceIsText(a[1..], b[1..]); }
  }

  lemma {:induction false} SequenceIrreflexive(a: seq<nat>)
    ensures !SequenceLess(a, a)
  {
    if a != [] { SequenceIrreflexive(a[1..]); }
  }

  lemma {:induction false} SequenceTransitive(a: seq<nat>, b: seq<nat>, c: seq<nat>)
    requires SequenceLess(a, b) && SequenceLess(b, c)
    ensures SequenceLess(a, c)
  {
    if a != [] && a[0] == b[0] && b[0] == c[0] { SequenceTransitive(a[1..], b[1..], c[1..]); }
  }

  lemma {:induction false} SequenceTrichotomy(a: seq<nat>, b: seq<nat>)
    ensures a == b || SequenceLess(a, b) || SequenceLess(b, a)
  {
    if a != [] && b != [] && a[0] == b[0] {
      SequenceTrichotomy(a[1..], b[1..]);
      assert a == [a[0]] + a[1..] && b == [b[0]] + b[1..];
    }
  }

  /** The more frequent first, then the smaller sequence. */
  const NGramOrder: (NGram, NGram) -> bool :=
    (a: NGram, b: NGram) => a.count > b.count || (a.count == b.count && SequenceLess(a.sequence, b.sequence))

  /** The same made total: entries that tie differ in their probability alone. */
  const TableOrder: (NGram, NGram) -> bool :=
    (a: NGram, b: NGram) => NGramOrder(a, b)
        || (a.count == b.count && a.sequence == b.sequence && a.probability < b.probability)

  lemma TableOrderIsTotal()
    ensures StrictTotal(TableOrder)
  {
    hide SequenceLess;
    forall x ensures !TableOrder(x, x) { SequenceIrreflexive(x.sequence); }
    forall x, y, z | TableOrder(x, y) && TableOrder(y, z) ensures TableOrder(x, z) {
      if x.count == y.count == z.count && SequenceLess(x.sequence, y.sequence)
          && SequenceLess(y.sequence, z.sequence) {
        SequenceTransitive(x.sequence, y.sequence, z.sequence);
      }
    }
    forall x, y ensures x == y || TableOrder(x, y) || TableOrder(y, x) { SequenceTrichotomy(x.sequence, y.sequence); }
  }

  // ---------------------------------------------------------------- accumulation

  ghost function Keys(entries: seq<NGram>, idOf: IdOf): set<NGramId> { set e | e in entries :: idOf(e.sequence) }

  /** The sequence a key keeps: that of the first entry absorbed under it. */
  function FirstUnder(entries: seq<NGram>, idOf: IdOf, key: NGramId): seq<TemplateId> {
    if entries == [] then [] else if idOf(entries[0].sequence) == key then entries[0].sequence
        else FirstUnder(entries[1..], idOf, key)
  }

  function CountIfKeyed(idOf: IdOf, key: NGramId, e: NGram): nat { if idOf(e.sequence) == key then e.count else 0 }

  function KeyedCount(idOf: IdOf, key: NGramId): NGram -> nat { (e: NGram) => CountIfKeyed(idOf, key, e) }

  function CountUnder(entries: seq<NGram>, idOf: IdOf, key: NGramId): nat { Sum(entries, KeyedCount(idOf, key)) }

  /** The probabilities kept under a key, each weighed by its count. */
  function WeightUnder(entries: seq<NGram>, idOf: IdOf, key: NGramId): real {
    if entries == [] then 0.0
    else
      var last := entries[|entries| - 1];
      WeightUnder(entries[..|entries| - 1], idOf, key)
      + if idOf(last.sequence) == key then last.probability * last.count as real else 0.0
  }

  /** The mean of the pooled probabilities; nothing counted has none. */
  function MeanOf(weight: real, count: nat): real { if count > 0 then weight / count as real else 0.0 }

  function EntryUnder(entries: seq<NGram>, idOf: IdOf, key: NGramId): NGram {
    NGram(FirstUnder(entries, idOf, key), CountUnder(entries, idOf, key),
          MeanOf(WeightUnder(entries, idOf, key), CountUnder(entries, idOf, key)))
  }

  ghost function Accumulated(entries: seq<NGram>, idOf: IdOf): set<NGram> {
    set key | key in Keys(entries, idOf) :: EntryUnder(entries, idOf, key)
  }

  /** Every accumulated n-gram, the most frequent first. */
  ghost function RankedNgrams(entries: seq<NGram>, idOf: IdOf): (r: seq<NGram>)
    ensures Ascending(TableOrder, r) && Elements(r) == Accumulated(entries, idOf)
  {
    TableOrderIsTotal();
    SortedOf(TableOrder, Accumulated(entries, idOf))
  }

  function Entries(b: Option<Behavior>): seq<NGram> { match b case None => [] case Some(block) => block.topNgrams }

  function DroppedSum(a: Option<Behavior>, b: Option<Behavior>): nat {
    (if a.Some? && a.value.dropped.Some? then a.value.dropped.value else 0) + if b.Some?
        && b.value.dropped.Some? then b.value.dropped.value else 0
  }

  function Truncated(s: seq<NGram>, n: nat): seq<NGram> { if |s| > n then s[..n] else s }

  ghost function MergedBehavior(a: Option<Behavior>, b: Option<Behavior>, idOf: IdOf): Option<Behavior> {
    if a.None? && b.None? then None
    else if a.Some? && b.Some? && a.value.ngramSize != b.value.ngramSize then None
    else
      var any := if a.Some? then a.value else b.value;
      var size := if a.Some? && b.Some? then Min(a.value.topNgramsSize, b.value.topNgramsSize) else any.topNgramsSize;
      Some(Behavior(any.ngramSize, Truncated(RankedNgrams(Entries(a) + Entries(b), idOf), size), size,
                    if DroppedSum(a, b) > 0 then Some(DroppedSum(a, b)) else None))
  }

  // ---------------------------------------------------------------- when merging commutes

  function Single(s: seq<TemplateId>): Option<Behavior> { Some(Behavior(|s|, [NGram(s, 1, 1.0)], 1, None)) }

  lemma SinglesEntry(s: seq<TemplateId>, t: seq<TemplateId>, idOf: IdOf)
    requires idOf(s) == idOf(t)
    ensures EntryUnder([NGram(s, 1, 1.0), NGram(t, 1, 1.0)], idOf, idOf(s)) == NGram(s, 2, 1.0)
  {
    var x, y, weight := NGram(s, 1, 1.0), NGram(t, 1, 1.0), KeyedCount(idOf, idOf(s));
    SumSnoc([x], y, weight);
    SumSnoc([], x, weight);
    assert [] + [x] == [x] && [x] + [y] == [x, y];
    WeightSnoc([x], y, idOf, idOf(s));
    WeightSnoc([], x, idOf, idOf(s));
    hide Sum, WeightUnder;
  }

  lemma SinglesMerge(s: seq<TemplateId>, t: seq<TemplateId>, idOf: IdOf)
    requires idOf(s) == idOf(t)
    ensures RankedNgrams([NGram(s, 1, 1.0), NGram(t, 1, 1.0)], idOf) == [NGram(s, 2, 1.0)]
  {
    hide EntryUnder;
    var x, y := NGram(s, 1, 1.0), NGram(t, 1, 1.0);
    var entries, key, merged := [x, y], idOf(s), NGram(s, 2, 1.0);
    assert Keys(entries, idOf) == {key} by {
      assert entries[0] in entries;
      assert forall e :: e in entries ==> e == x || e == y;
    }
    SinglesEntry(s, t, idOf);
    hide Keys;
    assert Accumulated(entries, idOf) == {merged};
    TableOrderIsTotal();
    assert Elements([merged]) == {merged};
    AscendingUnique(TableOrder, RankedNgrams(entries, idOf), [merged]);
  }

  /** A collision between two sequences of one length makes the merge name its left operand's. */
  lemma CollisionsDoNotCommute(s: seq<TemplateId>, t: seq<TemplateId>, idOf: IdOf)
    requires s != t && |s| == |t| && idOf(s) == idOf(t)
    ensures MergedBehavior(Single(s), Single(t), idOf) != MergedBehavior(Single(t), Single(s), idOf)
  {
    SinglesMerge(s, t, idOf);
    SinglesMerge(t, s, idOf);
    var x, y := NGram(s, 1, 1.0), NGram(t, 1, 1.0);
    assert [x] + [y] == [x, y] && [y] + [x] == [y, x];
    hide RankedNgrams;
    var l, r := MergedBehavior(Single(s), Single(t), idOf).value, MergedBehavior(Single(t), Single(s), idOf).value;
    assert l.topNgrams == [NGram(s, 2, 1.0)] && r.topNgrams == [NGram(t, 2, 1.0)];
    assert l.topNgrams[0] != r.topNgrams[0];
  }

  lemma {:induction false} FirstIsListed(entries: seq<NGram>, idOf: IdOf, key: NGramId) returns (e: NGram)
    requires key in Keys(entries, idOf)
    ensures e in entries && e.sequence == FirstUnder(entries, idOf, key) && idOf(e.sequence) == key
  {
    if idOf(entries[0].sequence) == key {
      e := entries[0];
    } else {
      var d :| d in entries && idOf(d.sequence) == key;
      assert d in entries[1..];
      e := FirstIsListed(entries[1..], idOf, key);
    }
  }

  /** The two tables name one id by one sequence, or only one of them has it. */
  ghost predicate AgreesAt(x: seq<NGram>, y: seq<NGram>, idOf: IdOf, key: NGramId) {
    key in Keys(x, idOf) && key in Keys(y, idOf) ==> FirstUnder(x, idOf, key) == FirstUnder(y, idOf, key)
  }

  /** No id collided between the two tables: what a caller may check of the pair before merging it. */
  ghost predicate NoCollision(x: seq<NGram>, y: seq<NGram>, idOf: IdOf)
      { forall key :: key in Keys(x, idOf) ==> AgreesAt(x, y, idOf, key) }

  lemma {:induction false} FirstConcat(x: seq<NGram>, y: seq<NGram>, idOf: IdOf, key: NGramId)
    ensures FirstUnder(x + y, idOf, key) == if key in Keys(x, idOf) then FirstUnder(x, idOf, key)
        else FirstUnder(y, idOf, key)
  {
    if x == [] {
      assert x + y == y;
    } else {
      assert (x + y)[1..] == x[1..] + y;
      FirstConcat(x[1..], y, idOf, key);
      assert forall e :: e in x <==> e == x[0] || e in x[1..];
    }
  }

  lemma PooledKeys(x: seq<NGram>, y: seq<NGram>, idOf: IdOf)
    ensures Keys(x + y, idOf) == Keys(x, idOf) + Keys(y, idOf)
  {
    assert forall e :: e in x + y <==> e in x || e in y;
  }

  lemma WeightSnoc(entries: seq<NGram>, e: NGram, idOf: IdOf, key: NGramId)
    ensures WeightUnder(entries + [e], idOf, key)
        == WeightUnder(entries, idOf, key)
           + if idOf(e.sequence) == key then e.probability * e.count as real else 0.0
  {
    assert (entries + [e])[..|entries|] == entries;
  }

  lemma {:induction false} WeightConcat(x: seq<NGram>, y: seq<NGram>, idOf: IdOf, key: NGramId)
    ensures WeightUnder(x + y, idOf, key) == WeightUnder(x, idOf, key) + WeightUnder(y, idOf, key)
  {
    if y == [] {
      assert x + y == x;
    } else {
      var front, last := y[..|y| - 1], y[|y| - 1];
      assert x + y == (x + front) + [last] && y == front + [last];
      WeightConcat(x, front, idOf, key);
      WeightSnoc(x + front, last, idOf, key);
      WeightSnoc(front, last, idOf, key);
    }
  }

  /** One id's entry in the pooled table: the sequence of the first side that has it, the counts and weights of
      both. */
  lemma PooledEntry(x: seq<NGram>, y: seq<NGram>, idOf: IdOf, key: NGramId)
    requires AgreesAt(x, y, idOf, key) && key in Keys(x, idOf) + Keys(y, idOf)
    ensures EntryUnder(x + y, idOf, key) == EntryUnder(y + x, idOf, key)
  {
    SumConcat(x, y, KeyedCount(idOf, key));
    SumConcat(y, x, KeyedCount(idOf, key));
    WeightConcat(x, y, idOf, key);
    WeightConcat(y, x, idOf, key);
    FirstConcat(x, y, idOf, key);
    FirstConcat(y, x, idOf, key);
    hide Keys, FirstUnder, WeightUnder;
  }

  /** An entry kept under an id on which the tables agree is in the table pooled the other way round. */
  lemma AgreedEntry(x: seq<NGram>, y: seq<NGram>, idOf: IdOf, e: NGram)
    requires e in Accumulated(x + y, idOf) && AgreesAt(x, y, idOf, idOf(e.sequence))
    ensures e in Accumulated(y + x, idOf)
  {
    var key :| key in Keys(x + y, idOf) && e == EntryUnder(x + y, idOf, key);
    var d := FirstIsListed(x + y, idOf, key);
    assert idOf(e.sequence) == key;
    PooledKeys(x, y, idOf);
    PooledKeys(y, x, idOf);
    PooledEntry(x, y, idOf, key);
    hide Keys, FirstUnder, CountUnder, AgreesAt;
  }

  /** An entry in both pooled tables is under an id on which the tables agree. */
  lemma SharedEntry(x: seq<NGram>, y: seq<NGram>, idOf: IdOf, e: NGram)
    requires e in Accumulated(x + y, idOf) && e in Accumulated(y + x, idOf)
    ensures AgreesAt(x, y, idOf, idOf(e.sequence))
  {
    var key :| key in Keys(x + y, idOf) && e == EntryUnder(x + y, idOf, key);
    var back :| back in Keys(y + x, idOf) && e == EntryUnder(y + x, idOf, back);
    var d := FirstIsListed(x + y, idOf, key);
    var f := FirstIsListed(y + x, idOf, back);
    assert key == idOf(e.sequence) == back;
    FirstConcat(x, y, idOf, key);
    FirstConcat(y, x, idOf, key);
    hide Keys, FirstUnder, CountUnder;
  }

  /** Two ascending lists whose first `n` are all in the other have the same first `n`. */
  lemma {:induction false} TopsAgree(l: seq<NGram>, r: seq<NGram>, n: nat)
    requires Ascending(TableOrder, l) && Ascending(TableOrder, r)
    requires (forall e :: e in Truncated(l, n) ==> e in r) && forall e :: e in Truncated(r, n) ==> e in l
    ensures Truncated(l, n) == Truncated(r, n)
    decreases n
  {
    hide TableOrder, Ascending, StrictPartial, NoDuplicates;
    TableOrderIsTotal();
    AscendingIsSorted(TableOrder, l);
    AscendingIsSorted(TableOrder, r);
    if n > 0 {
      var m := n - 1;
      TopGrows(l, m);
      TopGrows(r, m);
      TopsAgree(l, r, m);
      if |l| > m { NextIn(l, r, m); }
      if |r| > m { NextIn(r, l, m); }
    }
  }

  lemma TopGrows(s: seq<NGram>, m: nat)
    ensures Truncated(s, m + 1) == if |s| > m then Truncated(s, m) + [s[m]] else Truncated(s, m)
  {}

  /** After a common start, the next element of one list lies at or beyond that place in the other. */
  lemma NextIn(l: seq<NGram>, r: seq<NGram>, m: nat)
    requires StrictTotal(TableOrder) && Ascending(TableOrder, r) && NoDuplicates(l) && |l| > m && l[m] in r
    requires Truncated(l, m) == Truncated(r, m)
    ensures |r| > m && (r[m] == l[m] || TableOrder(r[m], l[m])) && !TableOrder(l[m], r[m])
  {
    hide TableOrder;
    forall i | 0 <= i < m && i < |r|
        ensures r[i] != l[m] { assert Truncated(r, m)[i] == r[i] && Truncated(l, m)[i] == l[i]; }
    var j :| 0 <= j < |r| && r[j] == l[m];
    assert j == m || TableOrder(r[m], r[j]);
    var u, v := r[m], l[m];
    assert TableOrder(u, v) && TableOrder(v, u) ==> TableOrder(u, u);
  }

  /** Every entry the cut keeps, whichever side comes first, is under an id that did not collide. */
  ghost predicate KeptAgree(x: seq<NGram>, y: seq<NGram>, size: nat, idOf: IdOf) {
    && (forall e :: e in Truncated(RankedNgrams(x + y, idOf), size) ==> AgreesAt(x, y, idOf, idOf(e.sequence)))
    && (forall e :: e in Truncated(RankedNgrams(y + x, idOf), size) ==> AgreesAt(x, y, idOf, idOf(e.sequence)))
  }

  lemma InTable(entries: seq<NGram>, idOf: IdOf, e: NGram)
    ensures e in RankedNgrams(entries, idOf) <==> e in Accumulated(entries, idOf)
  {
    assert e in RankedNgrams(entries, idOf) <==> e in Elements(RankedNgrams(entries, idOf));
    hide Accumulated;
  }

  lemma AgreementTurns(x: seq<NGram>, y: seq<NGram>, idOf: IdOf, key: NGramId)
    ensures AgreesAt(x, y, idOf, key) <==> AgreesAt(y, x, idOf, key)
  {
    hide Keys, FirstUnder;
  }

  /** Pooled and cut either way round, the tables are the same exactly when no kept id collided. */
  lemma KeptExactly(x: seq<NGram>, y: seq<NGram>, size: nat, idOf: IdOf)
    ensures Truncated(RankedNgrams(x + y, idOf), size) == Truncated(RankedNgrams(y + x, idOf), size) <==>
        KeptAgree(x, y, size, idOf)
  {
    hide RankedNgrams, Accumulated, AgreesAt;
    var l, r := RankedNgrams(x + y, idOf), RankedNgrams(y + x, idOf);
    if KeptAgree(x, y, size, idOf) {
      forall e | e in Truncated(l, size) ensures e in r {
        InTable(x + y, idOf, e);
        AgreedEntry(x, y, idOf, e);
        InTable(y + x, idOf, e);
      }
      forall e | e in Truncated(r, size) ensures e in l {
        InTable(y + x, idOf, e);
        AgreementTurns(x, y, idOf, idOf(e.sequence));
        AgreedEntry(y, x, idOf, e);
        InTable(x + y, idOf, e);
      }
      TopsAgree(l, r, size);
    }
    if Truncated(l, size) == Truncated(r, size) {
      forall e | e in Truncated(l, size) ensures AgreesAt(x, y, idOf, idOf(e.sequence)) {
        InTable(x + y, idOf, e);
        InTable(y + x, idOf, e);
        SharedEntry(x, y, idOf, e);
      }
    }
  }

  lemma NothingCut(x: seq<NGram>, y: seq<NGram>, idOf: IdOf)
    ensures var size := |RankedNgrams(x + y, idOf)| + |RankedNgrams(y + x, idOf)|;
            && Truncated(RankedNgrams(x + y, idOf), size) == RankedNgrams(x + y, idOf)
            && Truncated(RankedNgrams(y + x, idOf), size) == RankedNgrams(y + x, idOf)
  {
    hide RankedNgrams;
  }

  /** Uncut, two tables pool to the same one either way round exactly when no id collided between them. */
  lemma TablesCommuteExactly(x: seq<NGram>, y: seq<NGram>, idOf: IdOf)
    ensures RankedNgrams(x + y, idOf) == RankedNgrams(y + x, idOf) <==> NoCollision(x, y, idOf)
  {
    hide RankedNgrams, AgreesAt, FirstUnder, CountUnder;
    var size := |RankedNgrams(x + y, idOf)| + |RankedNgrams(y + x, idOf)|;
    NothingCut(x, y, idOf);
    KeptExactly(x, y, size, idOf);
    if KeptAgree(x, y, size, idOf) {
      forall key | key in Keys(x, idOf) ensures AgreesAt(x, y, idOf, key) {
        PooledKeys(x, y, idOf);
        var d := FirstIsListed(x + y, idOf, key);
        var e := EntryUnder(x + y, idOf, key);
        assert e in Accumulated(x + y, idOf);
        InTable(x + y, idOf, e);
      }
    }
    if NoCollision(x, y, idOf) {
      NoCollisionKept(x, y, size, idOf);
    }
  }

  /** Where no id collided none of the kept ones did. */
  lemma NoCollisionKept(x: seq<NGram>, y: seq<NGram>, size: nat, idOf: IdOf)
    requires NoCollision(x, y, idOf)
    ensures KeptAgree(x, y, size, idOf)
  {
    forall key ensures AgreesAt(x, y, idOf, key) { assert key in Keys(x, idOf) || key !in Keys(x, idOf); }
    hide RankedNgrams, AgreesAt;
  }

  /** What a merge of two blocks needs of their ids: nothing unless both are present and of one order. */
  ghost predicate BehaviorsAgree(a: Option<Behavior>, b: Option<Behavior>, idOf: IdOf) {
    a.Some? && b.Some? && a.value.ngramSize == b.value.ngramSize
    ==> KeptAgree(a.value.topNgrams, b.value.topNgrams, Min(a.value.topNgramsSize, b.value.topNgramsSize), idOf)
  }

  /** Merging two behavior blocks commutes exactly when no n-gram either order keeps is under a collided id. */
  lemma BehaviorsCommuteExactly(a: Option<Behavior>, b: Option<Behavior>, idOf: IdOf)
    ensures MergedBehavior(a, b, idOf) == MergedBehavior(b, a, idOf) <==> BehaviorsAgree(a, b, idOf)
  {
    var x, y := Entries(a), Entries(b);
    hide RankedNgrams, KeptAgree;
    if a.None? {
      assert x + y == y == y + x;
    } else if b.None? {
      assert x + y == x == y + x;
    } else if a.value.ngramSize == b.value.ngramSize {
      KeptExactly(x, y, Min(a.value.topNgramsSize, b.value.topNgramsSize), idOf);
    }
  }

  /** A pair whose tables share no collided id merges the same either way round, however it is cut. */
  lemma BehaviorsCommute(a: Option<Behavior>, b: Option<Behavior>, idOf: IdOf)
    requires NoCollision(Entries(a), Entries(b), idOf)
    ensures BehaviorsAgree(a, b, idOf)
  {
    hide KeptAgree, NoCollision;
    if a.Some? && b.Some? {
      NoCollisionKept(a.value.topNgrams, b.value.topNgrams, Min(a.value.topNgramsSize, b.value.topNgramsSize), idOf);
    }
  }

  // ---------------------------------------------------------------- the merge loop

  datatype Accum = Accum(sequence: seq<TemplateId>, count: nat, probSum: real, probN: nat) {
    function Entry(): NGram { NGram(sequence, count, MeanOf(probSum, probN)) }
  }

  /** One entry absorbed under its id: the first names the sequence. */
  function Absorbed(acc: map<NGramId, Accum>, key: NGramId, e: NGram): Accum {
    var weight := e.probability * e.count as real;
    if key in acc
    then Accum(acc[key].sequence, acc[key].count + e.count, acc[key].probSum + weight, acc[key].probN + e.count)
    else Accum(e.sequence, e.count, weight, e.count)
  }

  function AccumUnder(entries: seq<NGram>, idOf: IdOf, key: NGramId): Accum {
    var count := CountUnder(entries, idOf, key);
    Accum(FirstUnder(entries, idOf, key), count, WeightUnder(entries, idOf, key), count)
  }

  ghost predicate AccumFor(acc: map<NGramId, Accum>, entries: seq<NGram>, idOf: IdOf) {
    && acc.Keys == Keys(entries, idOf)
    && (forall key :: key in acc ==> acc[key] == AccumUnder(entries, idOf, key))
  }

  lemma {:induction false} FirstSnoc(entries: seq<NGram>, e: NGram, idOf: IdOf, key: NGramId)
    ensures FirstUnder(entries + [e], idOf, key)
         == if key in Keys(entries, idOf) then FirstUnder(entries, idOf, key)
             else if idOf(e.sequence) == key then e.sequence else []
  {
    if entries == [] {
      assert [] + [e] == [e] && [e][1..] == [];
    } else {
      assert (entries + [e])[1..] == entries[1..] + [e];
      FirstSnoc(entries[1..], e, idOf, key);
      assert entries == [entries[0]] + entries[1..];
      assert forall x :: x in entries <==> x == entries[0] || x in entries[1..];
    }
  }

  lemma KeysSnoc(entries: seq<NGram>, e: NGram, idOf: IdOf)
    ensures Keys(entries + [e], idOf) == Keys(entries, idOf) + {idOf(e.sequence)}
  {
    assert forall x :: x in entries + [e] <==> x in entries || x == e;
    assert e in entries + [e];
  }

  /** What one more entry does to an id's row: its own is absorbed, the others stay. */
  lemma RowSnoc(entries: seq<NGram>, e: NGram, idOf: IdOf, key: NGramId)
    ensures key != idOf(e.sequence) && key in Keys(entries, idOf)
        ==> AccumUnder(entries + [e], idOf, key) == AccumUnder(entries, idOf, key)
    ensures key == idOf(e.sequence) && key in Keys(entries, idOf) ==>
        AccumUnder(entries + [e], idOf, key) == Absorbed(map[key := AccumUnder(entries, idOf, key)], key, e)
    ensures key == idOf(e.sequence) && key !in Keys(entries, idOf)
        ==> AccumUnder(entries + [e], idOf, key) == Absorbed(map[], key, e)
  {
    SumSnoc(entries, e, KeyedCount(idOf, key));
    WeightSnoc(entries, e, idOf, key);
    FirstSnoc(entries, e, idOf, key);
    if key !in Keys(entries, idOf) { NoneUnder(entries, idOf, key); }
    hide Keys, FirstUnder, WeightUnder;
  }

  lemma AbsorbStep(acc: map<NGramId, Accum>, entries: seq<NGram>, e: NGram, idOf: IdOf)
    requires AccumFor(acc, entries, idOf)
    ensures var key := idOf(e.sequence);
            AccumFor(acc[key := Absorbed(acc, key, e)], entries + [e], idOf)
  {
    hide Keys, AccumUnder;
    KeysSnoc(entries, e, idOf);
    RowSnoc(entries, e, idOf, idOf(e.sequence));
    var key := idOf(e.sequence);
    forall k | k in acc && k != key ensures AccumUnder(entries + [e], idOf, k) == acc[k] {
      RowSnoc(entries, e, idOf, k);
    }
  }

  lemma {:induction false} NoneUnder(entries: seq<NGram>, idOf: IdOf, key: NGramId)
    requires key !in Keys(entries, idOf)
    ensures CountUnder(entries, idOf, key) == 0 && WeightUnder(entries, idOf, key) == 0.0
  {
    if entries != [] {
      var front := entries[..|entries| - 1];
      assert forall x :: x in front ==> x in entries;
      assert entries[|entries| - 1] in entries;
      NoneUnder(front, idOf, key);
    }
  }

  method AbsorbEntries(start: map<NGramId, Accum>, ghost seen: seq<NGram>, entries: seq<NGram>, idOf: IdOf)
      returns (acc: map<NGramId, Accum>)
    requires AccumFor(start, seen, idOf)
    ensures AccumFor(acc, seen + entries, idOf)
  {
    hide AccumFor;
    acc := start;
    assert seen + [] == seen;
    for k := 0 to |entries|
      invariant AccumFor(acc, seen + entries[..k], idOf)
    {
      var e := entries[k];
      var key := idOf(e.sequence);
      AbsorbStep(acc, seen + entries[..k], e, idOf);
      assert seen + entries[..k] + [e] == seen + entries[..k + 1];
      acc := acc[key := Absorbed(acc, key, e)];
    }
    assert entries[..|entries|] == entries;
  }

  lemma AccumEntry(acc: map<NGramId, Accum>, entries: seq<NGram>, idOf: IdOf, key: NGramId)
    requires AccumFor(acc, entries, idOf) && key in acc
    ensures idOf(acc[key].sequence) == key && acc[key].Entry() in Accumulated(entries, idOf)
  {
    var e := FirstIsListed(entries, idOf, key);
  }

  /** The accumulated entries in whatever order the table yields them, then in rank order. */
  method RankEntries(acc: map<NGramId, Accum>, ghost entries: seq<NGram>, idOf: IdOf) returns (ranked: seq<NGram>)
    requires AccumFor(acc, entries, idOf)
    ensures ranked == RankedNgrams(entries, idOf)
  {
    var list: seq<NGram> := [];
    var keys := Listed(acc.Keys);
    forall key | key in acc ensures idOf(acc[key].sequence) == key
        && acc[key].Entry() in Accumulated(entries, idOf) {
      AccumEntry(acc, entries, idOf, key);
    }
    AccumIsAll(acc, entries, idOf);
    hide AccumFor, Accumulated;
    for k := 0 to |keys|
      invariant |list| == k && forall i :: 0 <= i < k ==>
          keys[i] in acc && list[i] == acc[keys[i]].Entry()
    {
      assert keys[k] in Elements(keys);
      list := list + [acc[keys[k]].Entry()];
    }
    forall i, j | 0 <= i < j < |list| ensures list[i].sequence != list[j].sequence {
      assert keys[i] != keys[j] && idOf(list[i].sequence) == keys[i] && idOf(list[j].sequence) == keys[j];
    }
    ListIsAccumulated(acc, entries, idOf, keys, list);
    TableOrderIsTotal();
    NGramOrderIsPartial();
    ranked := Sort(NGramOrder, list);
    SortedIsTable(ranked, list);
    AscendingUnique(TableOrder, ranked, RankedNgrams(entries, idOf));
  }

  lemma NGramOrderIsPartial()
    ensures StrictPartial(NGramOrder)
  {
    hide SequenceLess;
    forall x ensures !NGramOrder(x, x) { SequenceIrreflexive(x.sequence); }
    forall x, y, z | NGramOrder(x, y) && NGramOrder(y, z) ensures NGramOrder(x, z) {
      if x.count == y.count == z.count { SequenceTransitive(x.sequence, y.sequence, z.sequence); }
    }
  }

  /** Entries of distinct sequences do not tie, so sorting them leaves one arrangement. */
  lemma SortedIsTable(sorted: seq<NGram>, list: seq<NGram>)
    requires Sorted(NGramOrder, sorted) && multiset(sorted) == multiset(list)
    requires forall i, j :: 0 <= i < j < |list| ==> list[i].sequence != list[j].sequence
    ensures Ascending(TableOrder, sorted) && Elements(sorted) == Elements(list)
  {
    hide SequenceLess;
    TableOrderIsTotal();
    assert NoDuplicates(list);
    assert forall x :: x in sorted ==> x in multiset(sorted);
    assert forall x :: x in list ==> x in multiset(list);
    forall i, j | 0 <= i < j < |sorted| ensures !TableOrder(sorted[j], sorted[i]) {
      var x, y := sorted[i], sorted[j];
      assert !NGramOrder(y, x);
      assert x in multiset(list) && y in multiset(list);
    }
    SortedIsRanked(TableOrder, sorted, list);
  }

  lemma AccumIsAll(acc: map<NGramId, Accum>, entries: seq<NGram>, idOf: IdOf)
    requires AccumFor(acc, entries, idOf)
    ensures Accumulated(entries, idOf) == set key | key in acc :: acc[key].Entry()
  {
    hide FirstUnder, CountUnder, WeightUnder, Keys;
  }

  lemma ListIsAccumulated(acc: map<NGramId, Accum>, entries: seq<NGram>, idOf: IdOf, keys: seq<NGramId>,
                          list: seq<NGram>)
    requires Elements(keys) == acc.Keys && |list| == |keys|
    requires forall i :: 0 <= i < |keys| ==>
        keys[i] in acc && list[i] == acc[keys[i]].Entry()
    requires Accumulated(entries, idOf) == set key | key in acc :: acc[key].Entry()
    ensures Elements(list) == Accumulated(entries, idOf)
  {
    hide Accumulated;
    forall key | key in acc ensures acc[key].Entry() in list {
      assert key in Elements(keys);
      var i :| 0 <= i < |keys| && keys[i] == key;
      assert list[i] in list;
    }
  }

  method MergeEntries(x: seq<NGram>, y: seq<NGram>, idOf: IdOf) returns (ranked: seq<NGram>)
    ensures ranked == RankedNgrams(x + y, idOf)
  {
    hide AccumFor;
    NothingAbsorbed(idOf);
    var acc := AbsorbEntries(map[], [], x, idOf);
    assert [] + x == x;
    acc := AbsorbEntries(acc, x, y, idOf);
    ranked := RankEntries(acc, x + y, idOf);
  }

  method MergeBehavior(a: Option<Behavior>, b: Option<Behavior>, idOf: IdOf) returns (merged: Option<Behavior>)
    ensures merged == MergedBehavior(a, b, idOf)
  {
    if a.None? && b.None? {
      return None;
    }
    if a.Some? && b.Some? && a.value.ngramSize != b.value.ngramSize {
      return None;
    }
    hide RankedNgrams;
    var ngramSize := if a.Some? then a.value.ngramSize else b.value.ngramSize;
    var size := if a.Some? && b.Some? then Min(a.value.topNgramsSize, b.value.topNgramsSize)
                else if a.Some? then a.value.topNgramsSize else b.value.topNgramsSize;
    var dropped := DroppedSum(a, b);
    var entries := MergeEntries(Entries(a), Entries(b), idOf);
    if |entries| > size {
      entries := entries[..size];
    }
    merged := Some(Behavior(ngramSize, entries, size, if dropped > 0 then Some(dropped) else None));
  }

  lemma NothingAbsorbed(idOf: IdOf)
    ensures AccumFor(map[], [], idOf)
  {}
}
