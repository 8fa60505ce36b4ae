/** What the lists of n-grams say, merged or closed: the most frequent first, with what was counted of each. */
module TableReading {
  import opened Options
  import opened Identifiers
  import opened Orders
  import opened Sums
  import opened BoundedTable
  import opened Streams
  import opened Behaviors
  import opened WindowBehavior

  // ---------------------------------------------------------------- merged n-grams

  /** The observations listed under one id, and their probabilities weighed by them. */
  function Observed(entries: seq<NGram>, idOf: IdOf, id: NGramId): nat {
    if entries == [] then 0
    else (if idOf(entries[0].sequence) == id then entries[0].count else 0) + Observed(entries[1..], idOf, id)
  }

  function Weighed(entries: seq<NGram>, idOf: IdOf, id: NGramId): real {
    if entries == [] then 0.0
    else (if idOf(entries[0].sequence) == id then entries[0].count as real * entries[0].probability else 0.0)
         + Weighed(entries[1..], idOf, id)
  }

  lemma {:induction false} ObservedIs(entries: seq<NGram>, idOf: IdOf, id: NGramId)
    ensures CountUnder(entries, idOf, id) == Observed(entries, idOf, id)
  {
    if entries != [] {
      assert entries == [entries[0]] + entries[1..];
      SumConcat([entries[0]], entries[1..], KeyedCount(idOf, id));
      assert [entries[0]][..0] == [];
      ObservedIs(entries[1..], idOf, id);
    }
  }

  lemma {:induction false} WeighedIs(entries: seq<NGram>, idOf: IdOf, id: NGramId)
    ensures WeightUnder(entries, idOf, id) == Weighed(entries, idOf, id)
  {
    if entries != [] {
      assert entries == [entries[0]] + entries[1..];
      WeightConcat([entries[0]], entries[1..], idOf, id);
      assert [entries[0]][..0] == [];
      WeighedIs(entries[1..], idOf, id);
    }
  }

  /** Counts never increase along the list; of n-grams counted alike none stands before a smaller sequence. */
  ghost predicate MostFrequentFirst(list: seq<NGram>) {
    forall i, j :: 0 <= i < j < |list| ==>
      list[i].count > list[j].count
      || (list[i].count == list[j].count && !SequenceLess(list[j].sequence, list[i].sequence))
  }

  lemma TableIsMostFrequent(list: seq<NGram>)
    requires Ascending(TableOrder, list)
    ensures MostFrequentFirst(list)
  {
    forall i, j | 0 <= i < j < |list|
      ensures list[i].count > list[j].count
           || (list[i].count == list[j].count && !SequenceLess(list[j].sequence, list[i].sequence))
    {
      assert TableOrder(list[i], list[j]);
      var s, t := list[i].sequence, list[j].sequence;
      if SequenceLess(t, s) {
        SequenceIrreflexive(s);
        if SequenceLess(s, t) { SequenceTransitive(s, t, s); }
      }
    }
  }

  lemma RankedAt(entries: seq<NGram>, idOf: IdOf, e: NGram)
    requires e in RankedNgrams(entries, idOf)
    ensures exists x :: x in entries && x.sequence == e.sequence
    ensures e.count == Observed(entries, idOf, idOf(e.sequence))
    ensures e.count > 0 ==> e.probability == Weighed(entries, idOf, idOf(e.sequence)) / e.count as real
    ensures e.count == 0 ==> e.probability == 0.0
  {
    assert e in Elements(RankedNgrams(entries, idOf));
    hide RankedNgrams, CountUnder, WeightUnder;
    var key :| key in Keys(entries, idOf) && EntryUnder(entries, idOf, key) == e;
    var x := FirstIsListed(entries, idOf, key);
    ObservedIs(entries, idOf, key);
    WeighedIs(entries, idOf, key);
  }

  lemma RankedOf(entries: seq<NGram>, idOf: IdOf, x: NGram) returns (k: nat)
    requires x in entries
    ensures k < |RankedNgrams(entries, idOf)| && idOf(RankedNgrams(entries, idOf)[k].sequence) == idOf(x.sequence)
  {
    var ranked, key := RankedNgrams(entries, idOf), idOf(x.sequence);
    assert key in Keys(entries, idOf);
    var first := FirstIsListed(entries, idOf, key);
    assert EntryUnder(entries, idOf, key) in Elements(ranked);
    k :| 0 <= k < |ranked| && ranked[k] == EntryUnder(entries, idOf, key);
  }

  /** Merging keeps the most frequent n-grams of both blocks: each counted as often as both list it, its probability the
      mean of theirs weighed by those counts, the most frequent first, as many as the smaller declared size allows; one
      that is left out was observed no more often than any that is kept. */
  lemma MergedAreMostFrequent(a: Option<Behavior>, b: Option<Behavior>, idOf: IdOf)
    requires a.Some? || b.Some?
    requires a.Some? && b.Some? ==> a.value.ngramSize == b.value.ngramSize
    ensures var m, all := MergedBehavior(a, b, idOf), Entries(a) + Entries(b);
            && m.Some?
            && (a.Some? ==> m.value.ngramSize == a.value.ngramSize && m.value.topNgramsSize <= a.value.topNgramsSize)
            && (b.Some? ==> m.value.ngramSize == b.value.ngramSize && m.value.topNgramsSize <= b.value.topNgramsSize)
            && ((a.Some? && m.value.topNgramsSize == a.value.topNgramsSize)
                || (b.Some? && m.value.topNgramsSize == b.value.topNgramsSize))
            && (if m.value.dropped.Some? then m.value.dropped.value else 0) == DroppedBy(a) + DroppedBy(b)
            && |m.value.topNgrams| <= m.value.topNgramsSize && MostFrequentFirst(m.value.topNgrams)
            && (forall e :: e in m.value.topNgrams ==>
                  && (exists x :: x in all && x.sequence == e.sequence)
                  && e.count == Observed(all, idOf, idOf(e.sequence))
                  && (e.count > 0 ==> e.probability == Weighed(all, idOf, idOf(e.sequence)) / e.count as real))
            && (forall x :: x in all && NotKept(m.value.topNgrams, idOf, idOf(x.sequence)) ==>
                  |m.value.topNgrams| == m.value.topNgramsSize
                  && forall e :: e in m.value.topNgrams ==> e.count >= Observed(all, idOf, idOf(x.sequence)))
  {
    var all := Entries(a) + Entries(b);
    MergedParts(a, b, idOf);
    var m := MergedBehavior(a, b, idOf).value;
    var t := m.topNgrams;
    hide *;
    KeptIsFirst(all, idOf, m.topNgramsSize);
    forall e | e in t
      ensures exists x :: x in all && x.sequence == e.sequence
      ensures e.count == Observed(all, idOf, idOf(e.sequence))
      ensures e.count > 0 ==> e.probability == Weighed(all, idOf, idOf(e.sequence)) / e.count as real
    {
      KeptIsRanked(all, idOf, m.topNgramsSize, e);
      RankedAt(all, idOf, e);
    }
    forall x | x in all && NotKept(t, idOf, idOf(x.sequence))
      ensures |t| == m.topNgramsSize && forall e :: e in t ==> e.count >= Observed(all, idOf, idOf(x.sequence))
    {
      LeftOut(all, idOf, x, m.topNgramsSize);
    }
  }

  /** The observations a block says it dropped. */
  function DroppedBy(b: Option<Behavior>): nat {
    if b == None || b.value.dropped == None then 0 else b.value.dropped.value
  }

  lemma MergedParts(a: Option<Behavior>, b: Option<Behavior>, idOf: IdOf)
    requires a.Some? || b.Some?
    requires a.Some? && b.Some? ==> a.value.ngramSize == b.value.ngramSize
    ensures var m := MergedBehavior(a, b, idOf);
            && m.Some?
            && (a.Some? ==> m.value.ngramSize == a.value.ngramSize && m.value.topNgramsSize <= a.value.topNgramsSize)
            && (b.Some? ==> m.value.ngramSize == b.value.ngramSize && m.value.topNgramsSize <= b.value.topNgramsSize)
            && ((a.Some? && m.value.topNgramsSize == a.value.topNgramsSize)
                || (b.Some? && m.value.topNgramsSize == b.value.topNgramsSize))
            && (if m.value.dropped.Some? then m.value.dropped.value else 0) == DroppedBy(a) + DroppedBy(b)
            && m.value.topNgrams == Truncated(RankedNgrams(Entries(a) + Entries(b), idOf), m.value.topNgramsSize)
  {
    hide RankedNgrams, Truncated, Entries;
  }

  lemma KeptIsFirst(entries: seq<NGram>, idOf: IdOf, size: nat)
    ensures var t := Truncated(RankedNgrams(entries, idOf), size); |t| <= size && MostFrequentFirst(t)
  {
    TableIsMostFrequent(RankedNgrams(entries, idOf));
    hide RankedNgrams, TableOrder;
  }

  lemma KeptIsRanked(entries: seq<NGram>, idOf: IdOf, size: nat, e: NGram)
    requires e in Truncated(RankedNgrams(entries, idOf), size)
    ensures e in RankedNgrams(entries, idOf)
  {
    hide RankedNgrams;
  }

  ghost predicate NotKept(list: seq<NGram>, idOf: IdOf, id: NGramId) {
    forall e :: e in list ==> idOf(e.sequence) != id
  }

  lemma LeftOut(entries: seq<NGram>, idOf: IdOf, x: NGram, size: nat)
    requires x in entries && NotKept(Truncated(RankedNgrams(entries, idOf), size), idOf, idOf(x.sequence))
    ensures var t := Truncated(RankedNgrams(entries, idOf), size);
            |t| == size && forall e :: e in t ==> e.count >= Observed(entries, idOf, idOf(x.sequence))
  {
    var ranked := RankedNgrams(entries, idOf);
    TableIsMostFrequent(ranked);
    hide RankedNgrams, Observed, TableOrder, MostFrequentFirst, Truncated;
    var k := RankedOf(entries, idOf, x);
    RankedAt(entries, idOf, ranked[k]);
    BeyondIsLess(ranked, size, k);
  }

  /** Beyond where a list is cut, nothing has a greater count than what is kept. */
  lemma BeyondIsLess(all: seq<NGram>, size: nat, k: nat)
    requires MostFrequentFirst(all) && k < |all|
    ensures var t := Truncated(all, size);
            all[k] in t || (|t| == size && forall e :: e in t ==> e.count >= all[k].count)
  {
    var t := Truncated(all, size);
    assert forall i :: 0 <= i < |t| ==> t[i] == all[i];
    if k < |t| {
      assert t[k] in t;
    } else {
      forall e | e in t ensures e.count >= all[k].count {
        var i :| 0 <= i < |t| && t[i] == e;
      }
    }
  }

  // ---------------------------------------------------------------- closed n-grams

  /** The n-grams that begin as this one does. */
  ghost function Siblings(counts: map<NGramKey, nat>, key: NGramKey): set<NGramKey>
    requires key != []
  {
    set k | k in counts && k != [] && k[..|k| - 1] == key[..|key| - 1]
  }

  lemma PrefixTotalIs(counts: map<NGramKey, nat>, key: NGramKey)
    requires key in counts && forall k :: k in counts ==> k != []
    ensures PrefixTotal(counts, PrefixOf(key)) == SetSum(Siblings(counts, key), CountOf(counts))
  {
    assert Fiber(counts.Keys, PrefixOf, PrefixOf(key)) == Siblings(counts, key);
  }

  lemma ClosedNgramReads(counts: map<NGramKey, nat>, templates: seq<TemplateId>, e: NGram) returns (key: NGramKey)
    requires (forall k :: k in counts ==> k != []) && Nameable(counts, templates)
    requires e in AllNgrams(counts, templates)
    ensures key in counts && |e.sequence| == |key| && e.count == counts[key]
    ensures forall i :: 0 <= i < |key| ==> key[i] < |templates| && e.sequence[i] == templates[key[i]]
    ensures var total := SetSum(Siblings(counts, key), CountOf(counts));
            e.probability == if total > 0 then e.count as real / total as real else 0.0
  {
    assert e in Elements(AllNgrams(counts, templates));
    key :| key in counts && e == NGramOf(key, counts, templates);
    PrefixTotalIs(counts, key);
    NamedInFull(key, templates);
    hide AllNgrams, PrefixTotal, NameOf, Siblings;
  }

  /** A closed block lists the n-grams of the window that were observed most, the most frequent first, each by the names
      of its templates, with its observations and their part of all that began as it did; one that is left out was
      observed no more often than any that is listed. */
  lemma ClosedAreMostFrequent(counts: map<NGramKey, nat>, total: nat, dropped: nat, templates: seq<TemplateId>,
                              ngramSize: nat, top: nat)
    requires (forall k :: k in counts ==> k != []) && Nameable(counts, templates) && top > 0 && total > 0
    ensures var b := BehaviorFor(counts, total, dropped, templates, ngramSize, top);
            && b.Some? && b.value.ngramSize == ngramSize && b.value.topNgramsSize == top
            && (b.value.dropped == if dropped > 0 then Some(dropped) else None)
            && |b.value.topNgrams| == (if top <= |counts| then top else |counts|)
            && MostFrequentFirst(b.value.topNgrams)
            && (forall e :: e in b.value.topNgrams ==> exists key :: IsListedAs(counts, templates, key, e))
            && (forall key :: key in counts ==>
                  (exists e :: e in b.value.topNgrams && IsListedAs(counts, templates, key, e))
                  || forall e :: e in b.value.topNgrams ==> e.count >= counts[key])
  {
    BlockParts(counts, total, dropped, templates, ngramSize, top);
    var t := BehaviorFor(counts, total, dropped, templates, ngramSize, top).value.topNgrams;
    hide *;
    forall e | e in t ensures exists key :: IsListedAs(counts, templates, key, e) { ListedAs(counts, templates, e); }
    forall key | key in counts
      ensures (exists e :: e in t && IsListedAs(counts, templates, key, e))
           || forall e :: e in t ==> e.count >= counts[key]
    {
      ListedOrLess(counts, templates, key, top);
    }
  }

  lemma BlockParts(counts: map<NGramKey, nat>, total: nat, dropped: nat, templates: seq<TemplateId>, ngramSize: nat,
                   top: nat)
    requires Nameable(counts, templates) && top > 0 && total > 0
    ensures var b := BehaviorFor(counts, total, dropped, templates, ngramSize, top);
            && b.Some? && b.value.ngramSize == ngramSize && b.value.topNgramsSize == top
            && (b.value.dropped == if dropped > 0 then Some(dropped) else None)
            && |b.value.topNgrams| == (if top <= |counts| then top else |counts|)
            && b.value.topNgrams == Truncated(AllNgrams(counts, templates), top)
            && MostFrequentFirst(b.value.topNgrams)
            && (forall e :: e in b.value.topNgrams ==> e in AllNgrams(counts, templates))
  {
    var all := AllNgrams(counts, templates);
    TableIsMostFrequent(all);
    AllCounted(counts, templates);
    hide AllNgrams, TableOrder, MostFrequentFirst, Nameable;
    HeadIsFirst(all, Truncated(all, top));
  }

  lemma HeadIsFirst(all: seq<NGram>, t: seq<NGram>)
    requires MostFrequentFirst(all) && |t| <= |all| && t == all[..|t|]
    ensures MostFrequentFirst(t)
  {}

  /** An n-gram as a block lists it. */
  ghost predicate IsListedAs(counts: map<NGramKey, nat>, templates: seq<TemplateId>, key: NGramKey, e: NGram) {
    && key in counts && key != [] && |e.sequence| == |key| && e.count == counts[key]
    && (forall i :: 0 <= i < |key| ==> key[i] < |templates| && e.sequence[i] == templates[key[i]])
    && var total := SetSum(Siblings(counts, key), CountOf(counts));
       e.probability == if total > 0 then e.count as real / total as real else 0.0
  }

  lemma ListedAs(counts: map<NGramKey, nat>, templates: seq<TemplateId>, e: NGram)
    requires (forall k :: k in counts ==> k != []) && Nameable(counts, templates)
    requires e in AllNgrams(counts, templates)
    ensures exists key :: IsListedAs(counts, templates, key, e)
  {
    var key := ClosedNgramReads(counts, templates, e);
    hide Siblings, AllNgrams;
    assert IsListedAs(counts, templates, key, e);
  }

  lemma ListedOrLess(counts: map<NGramKey, nat>, templates: seq<TemplateId>, key: NGramKey, top: nat)
    requires (forall k :: k in counts ==> k != []) && Nameable(counts, templates) && key in counts
    ensures var t := Truncated(AllNgrams(counts, templates), top);
            (exists e :: e in t && IsListedAs(counts, templates, key, e))
            || forall e :: e in t ==> e.count >= counts[key]
  {
    var all := AllNgrams(counts, templates);
    var t, own := Truncated(all, top), NGramOf(key, counts, templates);
    assert own in Elements(all);
    var k :| 0 <= k < |all| && all[k] == own;
    NGramIsListed(counts, templates, key);
    TableIsMostFrequent(all);
    hide *;
    BeyondIsLess(all, top, k);
  }

  lemma NGramIsListed(counts: map<NGramKey, nat>, templates: seq<TemplateId>, key: NGramKey)
    requires (forall k :: k in counts ==> k != []) && Nameable(counts, templates) && key in counts
    ensures IsListedAs(counts, templates, key, NGramOf(key, counts, templates))
    ensures NGramOf(key, counts, templates).count == counts[key]
  {
    PrefixTotalIs(counts, key);
    NamedInFull(key, templates);
    hide PrefixTotal, NameOf, Siblings;
  }
}
