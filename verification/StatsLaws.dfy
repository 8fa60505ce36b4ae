/** Laws of composed statistics: they commute, and no line is lost or counted twice. */
module StatsLaws {
  import opened Options
  import opened Identifiers
  import opened Orders
  import opened Sums
  import opened Bytes
  import opened ComposeLabels
  import opened Histograms
  import opened ComposeStats

  // ---------------------------------------------------------------- commutativity

  lemma OrderedCommutes(a: Stats, b: Stats)
    ensures Ordered(a, b) == Ordered(b, a) && TopKCut(a, b) == TopKCut(b, a)
  {
    hide ViewOf;
    assert Ids(a) + Ids(b) == Ids(b) + Ids(a);
    assert CountedOf(a, b) == CountedOf(b, a);
    CountedOrderIsTotal();
    AscendingUnique(CountedOrder, Ordered(a, b), Ordered(b, a));
  }

  lemma CapsCommute(a: Stats, b: Stats)
    ensures MinDeclaredCap(a.reservoirSize, b.reservoirSize) == MinDeclaredCap(b.reservoirSize, a.reservoirSize)
    ensures MinDeclaredCap(a.histogramSize, b.histogramSize) == MinDeclaredCap(b.histogramSize, a.histogramSize)
    ensures ValueCap(a, b) == ValueCap(b, a)
  {}

  lemma TopKCommutes(a: Stats, b: Stats)
    ensures ComposedTopK(a, b) == ComposedTopK(b, a)
  {
    OrderedCommutes(a, b);
    CapsCommute(a, b);
    hide Ordered, LabelsFor, MergedHistograms, HistogramsOf, MinDeclaredCap, ValueCap;
    forall i | 0 <= i < TopKCut(a, b) ensures ComposedTopK(a, b)[i] == ComposedTopK(b, a)[i] {
      var id := Ordered(a, b)[i].id;
      LabelsForCommute(a, b, id);
      MergedHistogramsCommute(HistogramsOf(a.topK, id), HistogramsOf(b.topK, id),
                              MinDeclaredCap(a.histogramSize, b.histogramSize), ValueCap(a, b));
    }
  }

  lemma LabelsForCommute(a: Stats, b: Stats, id: TemplateId)
    ensures LabelsFor(a, b, id) == LabelsFor(b, a, id)
  {
    LabelsCommute(ViewOf(a, id), ViewOf(b, id));
  }

  lemma CandidateCommutes(a: Stats, b: Stats, lines: nat, salience: Salience, id: TemplateId)
    ensures CandidateOf(a, b, lines, salience, id) == CandidateOf(b, a, lines, salience, id)
    ensures Verdict(a, b, lines, salience, id) == Verdict(b, a, lines, salience, id)
  {
    LabelsForCommute(a, b, id);
    hide LabelsFor, ViewOf;
  }

  lemma CandidatesCommute(a: Stats, b: Stats, lines: nat, salience: Salience)
    ensures CandidateIds(a, b, lines, salience) == CandidateIds(b, a, lines, salience)
    ensures RankedCandidates(a, b, lines, salience) == RankedCandidates(b, a, lines, salience)
    ensures Admitted(a, b, lines, salience) == Admitted(b, a, lines, salience)
  {
    TopKCommutes(a, b);
    CapsCommute(a, b);
    hide Verdict, CandidateOf, ComposedTopK, MinDeclaredCap, CandidateOrder;
    forall id ensures id in CandidateIds(a, b, lines, salience) <==> id in CandidateIds(b, a, lines, salience) {
      CandidateCommutes(a, b, lines, salience, id);
    }
    SalienceOrderIsTotal(a, b, lines, salience);
    var less, other := SalienceOrder(a, b, lines, salience), SalienceOrder(b, a, lines, salience);
    var r := RankedCandidates(b, a, lines, salience);
    forall i, j | 0 <= i < j < |r| ensures less(r[i], r[j]) {
      assert other(r[i], r[j]);
      CandidateCommutes(a, b, lines, salience, r[i]);
      CandidateCommutes(a, b, lines, salience, r[j]);
    }
    AscendingUnique(less, RankedCandidates(a, b, lines, salience), r);
  }

  lemma ReservoirEntryCommutes(a: Stats, b: Stats, lines: nat, salience: Salience, cubes: bool, id: TemplateId)
    ensures ComposedReservoirEntry(a, b, lines, salience, cubes, id)
        == ComposedReservoirEntry(b, a, lines, salience, cubes, id)
  {
    LabelsForCommute(a, b, id);
    CandidateCommutes(a, b, lines, salience, id);
    hide CandidateOf, LabelsFor, ViewOf;
  }

  lemma ReservoirCommutes(a: Stats, b: Stats, lines: nat, salience: Salience, cubes: bool)
    ensures ComposedReservoir(a, b, lines, salience, cubes) == ComposedReservoir(b, a, lines, salience, cubes)
  {
    CandidatesCommute(a, b, lines, salience);
    hide Admitted, ComposedReservoirEntry;
    var ids := Admitted(a, b, lines, salience);
    forall i | 0 <= i < |ids|
      ensures ComposedReservoir(a, b, lines, salience, cubes)[i] == ComposedReservoir(b, a, lines, salience, cubes)[i]
    {
      ReservoirEntryCommutes(a, b, lines, salience, cubes, ids[i]);
    }
  }

  lemma TailCommutes(a: Stats, b: Stats, lines: nat, salience: Salience)
    ensures TailCounts(a, b, lines, salience) == TailCounts(b, a, lines, salience)
    ensures ComposedTailSummary(a, b, lines, salience) == ComposedTailSummary(b, a, lines, salience)
  {
    TailParts(a, b, lines, salience);
    hide TailCounts, Total, Largest, WithResidual;
  }

  lemma TailParts(a: Stats, b: Stats, lines: nat, salience: Salience)
    ensures TailCounts(a, b, lines, salience) == TailCounts(b, a, lines, salience)
  {
    hide *;
    OrderedCommutes(a, b);
    CandidatesCommute(a, b, lines, salience);
    TailsEqual(a, b, lines, salience);
  }

  lemma EntropyCommutes(a: Stats, b: Stats, lines: nat)
    ensures ComposedEntropy(a, b, lines) == ComposedEntropy(b, a, lines)
  {
    OrderedCommutes(a, b);
    hide Ordered, WithResidual, TopKCut;
  }

  lemma TailsEqual(a: Stats, b: Stats, lines: nat, salience: Salience)
    requires Ordered(a, b) == Ordered(b, a) && TopKCut(a, b) == TopKCut(b, a)
    requires Admitted(a, b, lines, salience) == Admitted(b, a, lines, salience)
    ensures TailCounts(a, b, lines, salience) == TailCounts(b, a, lines, salience)
  {
    hide Ordered, Admitted, Unreserved;
  }

  /** Composed statistics do not depend on the order of the operands, for any salience. */
  lemma StatsCommute(a: Stats, b: Stats, lines: nat, salience: Salience, cubes: bool)
    ensures ComposedStats(a, b, lines, salience, cubes) == ComposedStats(b, a, lines, salience, cubes)
  {
    OrderedCommutes(a, b);
    CapsCommute(a, b);
    TopKCommutes(a, b);
    ReservoirCommutes(a, b, lines, salience, cubes);
    TailCommutes(a, b, lines, salience);
    EntropyCommutes(a, b, lines);
    hide Ordered, TopKCut, ComposedTopK, ComposedReservoir, TailCounts, ComposedTailSummary, ComposedEntropy,
        MinDeclaredCap, ValueCap, Total;
  }

  // ---------------------------------------------------------------- conservation

  const TopKCount: TopKEntry -> nat := (e: TopKEntry) => e.count

  const ReservoirCount: ReservoirEntry -> nat := (e: ReservoirEntry) => e.count

  /** The lines a document's statistics account for. */
  ghost function Mass(s: Stats): nat { Sum(s.topK, TopKCount) + Sum(s.reservoir, ReservoirCount) + s.tailCount }

  function Only(id: TemplateId, n: nat): TemplateId -> nat { (x: TemplateId) => if x == id then n else 0 }

  lemma OnlySum(s: set<TemplateId>, id: TemplateId, n: nat)
    requires id in s
    ensures SetSum(s, Only(id, n)) == n
  {
    SetSumRemove(s, id, Only(id, n));
    SetSumZero(s - {id}, Only(id, n));
  }

  function TopKPart(entries: seq<TopKEntry>): TemplateId -> nat { (id: TemplateId) => TopKView(entries, id).count }

  lemma {:induction false} TopKMass(entries: seq<TopKEntry>, ids: set<TemplateId>)
    requires forall e :: e in entries ==> e.id in ids
    ensures SetSum(ids, TopKPart(entries)) == Sum(entries, TopKCount)
  {
    if entries == [] {
      SetSumZero(ids, TopKPart(entries));
    } else {
      var front, e := entries[..|entries| - 1], entries[|entries| - 1];
      assert forall x :: x in front ==> x in entries;
      TopKMass(front, ids);
      assert e in entries;
      OnlySum(ids, e.id, e.count);
      SetSumPlus(ids, TopKPart(front), Only(e.id, e.count), TopKPart(entries));
    }
  }

  function ReservoirPart(entries: seq<ReservoirEntry>): TemplateId -> nat {
    (id: TemplateId) => ReservoirView(NOT_CARRIED, entries, id).count
  }

  lemma {:induction false} ReservoirMass(entries: seq<ReservoirEntry>, ids: set<TemplateId>)
    requires forall e :: e in entries ==> e.id in ids
    ensures SetSum(ids, ReservoirPart(entries)) == Sum(entries, ReservoirCount)
  {
    if entries == [] {
      SetSumZero(ids, ReservoirPart(entries));
    } else {
      var front, e := entries[..|entries| - 1], entries[|entries| - 1];
      assert forall x :: x in front ==> x in entries;
      ReservoirMass(front, ids);
      assert e in entries;
      OnlySum(ids, e.id, e.count);
      SetSumPlus(ids, ReservoirPart(front), Only(e.id, e.count), ReservoirPart(entries));
    }
  }

  lemma {:induction false} ViewCountSplits(start: InputTemplate, entries: seq<ReservoirEntry>, id: TemplateId)
    ensures ReservoirView(start, entries, id).count == start.count + ReservoirView(NOT_CARRIED, entries, id).count
  {
    if entries != [] { ViewCountSplits(start, entries[..|entries| - 1], id); }
  }

  function ViewCount(s: Stats): TemplateId -> nat { (id: TemplateId) => ViewOf(s, id).count }

  /** Over any ids containing a document's own, its views count its listed lines. */
  lemma ViewMass(s: Stats, ids: set<TemplateId>)
    requires Ids(s) <= ids
    ensures SetSum(ids, ViewCount(s)) == Sum(s.topK, TopKCount) + Sum(s.reservoir, ReservoirCount)
  {
    forall e | e in s.topK ensures e.id in ids { assert e.id in TopKIds(s); }
    forall e | e in s.reservoir ensures e.id in ids { assert e.id in ReservoirIds(s); }
    TopKMass(s.topK, ids);
    ReservoirMass(s.reservoir, ids);
    forall id ensures ViewCount(s)(id) == TopKPart(s.topK)(id) + ReservoirPart(s.reservoir)(id) {
      ViewCountSplits(TopKView(s.topK, id), s.reservoir, id);
    }
    SetSumPlus(ids, TopKPart(s.topK), ReservoirPart(s.reservoir), ViewCount(s));
  }

  function Merged(a: Stats, b: Stats): TemplateId -> nat { (id: TemplateId) => MergedCount(a, b, id) }

  lemma MergedMass(a: Stats, b: Stats)
    ensures SetSum(Ids(a) + Ids(b), Merged(a, b)) + a.tailCount + b.tailCount == Mass(a) + Mass(b)
  {
    ViewMass(a, Ids(a) + Ids(b));
    ViewMass(b, Ids(a) + Ids(b));
    SetSumPlus(Ids(a) + Ids(b), ViewCount(a), ViewCount(b), Merged(a, b));
  }

  // ---------------------------------------------------------------- the three parts of the order

  ghost function IdList(ordered: seq<Counted>): (r: seq<TemplateId>)
    ensures |r| == |ordered| && forall i :: 0 <= i < |r| ==> r[i] == ordered[i].id
  {
    seq(|ordered|, i requires 0 <= i < |ordered| => ordered[i].id)
  }

  ghost predicate CountsAre(ordered: seq<Counted>, f: TemplateId -> nat) {
    forall c :: c in ordered ==> c.count == f(c.id)
  }

  lemma OrderedIds(a: Stats, b: Stats)
    ensures Elements(IdList(Ordered(a, b))) == Ids(a) + Ids(b) && NoDuplicates(IdList(Ordered(a, b)))
    ensures CountsAre(Ordered(a, b), Merged(a, b))
  {
    var ordered := Ordered(a, b);
    var ids := IdList(ordered);
    hide ViewOf;
    forall c | c in ordered ensures c in CountedOf(a, b) { assert c in Elements(ordered); }
    forall id ensures id in ids <==> id in Ids(a) + Ids(b) {
      if id in Ids(a) + Ids(b) {
        assert Counted(id, MergedCount(a, b, id)) in Elements(ordered);
        var i :| 0 <= i < |ordered| && ordered[i] == Counted(id, MergedCount(a, b, id));
        assert ids[i] == id;
      }
      if id in ids {
        var i :| 0 <= i < |ids| && ids[i] == id;
        assert ordered[i] in ordered;
      }
    }
    forall i, j | 0 <= i < j < |ids| ensures ids[i] != ids[j] {
      assert CountedOrder(ordered[i], ordered[j]) && ordered[i] in ordered && ordered[j] in ordered;
    }
  }

  lemma ReservedSet(ids: seq<TemplateId>, id: TemplateId, reserved: set<TemplateId>)
    ensures Elements(ids + [id]) * reserved == if id in reserved then Elements(ids) * reserved + {id}
        else Elements(ids) * reserved
  {}

  lemma ReservedSnoc(ids: seq<TemplateId>, id: TemplateId, reserved: set<TemplateId>, f: TemplateId -> nat)
    requires id !in ids
    ensures SetSum(Elements(ids + [id]) * reserved, f) == SetSum(Elements(ids) * reserved, f) + if id in reserved
        then f(id) else 0
    ensures |Elements(ids + [id]) * reserved| == |Elements(ids) * reserved| + if id in reserved then 1 else 0
  {
    var before, after := Elements(ids) * reserved, Elements(ids + [id]) * reserved;
    assert id !in before;
    ReservedSet(ids, id, reserved);
    hide SetSum, Elements;
    if id in reserved {
      SetSumAdd(before, id, f);
    }
  }

  /** What is unreserved and what is reserved make up the whole list, by count and by number. */
  lemma {:induction false} UnreservedSplit(ordered: seq<Counted>, reserved: set<TemplateId>, f: TemplateId -> nat)
    requires CountsAre(ordered, f) && NoDuplicates(IdList(ordered))
    ensures Sum(IdList(ordered), f) == Total(Unreserved(ordered, reserved))
        + SetSum(Elements(IdList(ordered)) * reserved, f)
    ensures |ordered| == |Unreserved(ordered, reserved)| + |Elements(IdList(ordered)) * reserved|
  {
    if ordered == [] {
      assert Elements(IdList(ordered)) * reserved == {};
    } else {
      var front, last := ordered[..|ordered| - 1], ordered[|ordered| - 1];
      var ids := IdList(front);
      assert IdList(ordered) == ids + [last.id] && last.id !in ids;
      assert forall c :: c in front ==> c in ordered;
      assert last in ordered;
      UnreservedSplit(front, reserved, f);
      SumSnoc(ids, last.id, f);
      ReservedSnoc(ids, last.id, reserved, f);
      SumSnoc(Unreserved(front, reserved), last.count, Itself);
      hide NoDuplicates, Elements;
    }
  }

  lemma CutIds(ordered: seq<Counted>, cut: nat, f: TemplateId -> nat)
    requires cut <= |ordered| && NoDuplicates(IdList(ordered)) && CountsAre(ordered, f)
    ensures var ids, top, rest := IdList(ordered), IdList(ordered[..cut]), IdList(ordered[cut..]);
            && ids == top + rest && NoDuplicates(top) && NoDuplicates(rest) && Elements(top) !! Elements(rest)
            && Sum(ids, f) == Sum(top, f) + Sum(rest, f) && CountsAre(ordered[cut..], f)
  {
    var ids, top, rest := IdList(ordered), IdList(ordered[..cut]), IdList(ordered[cut..]);
    assert ids == top + rest;
    SumConcat(top, rest, f);
    forall i, j | 0 <= i < |top| && 0 <= j < |rest| ensures top[i] != rest[j] { assert ids[i] != ids[cut + j]; }
    forall i, j | 0 <= i < j < |rest| ensures rest[i] != rest[j] { assert ids[cut + i] != ids[cut + j]; }
  }

  lemma TopKIdsAre(a: Stats, b: Stats)
    ensures ComposedTopKIds(a, b) == Elements(IdList(Ordered(a, b)[..TopKCut(a, b)]))
    ensures Sum(ComposedTopK(a, b), TopKCount) == Sum(IdList(Ordered(a, b)[..TopKCut(a, b)]), Merged(a, b))
  {
    OrderedIds(a, b);
    var top, cut := ComposedTopK(a, b), TopKCut(a, b);
    var ids := IdList(Ordered(a, b)[..cut]);
    hide Ordered, ComposedHistograms, LabelsFor, ViewOf;
    forall i | 0 <= i < cut ensures top[i].id == ids[i] && top[i].count == Merged(a, b)(ids[i]) {
      assert Ordered(a, b)[i] in Ordered(a, b);
    }
    forall id ensures id in ComposedTopKIds(a, b) <==> id in ids {
      if id in ids {
        var i :| 0 <= i < |ids| && ids[i] == id;
        assert top[i] in top;
      }
    }
    SameSums(top, ids, TopKCount, Merged(a, b));
  }

  lemma AdmittedAre(a: Stats, b: Stats, lines: nat, salience: Salience)
    ensures var r := Admitted(a, b, lines, salience);
            && NoDuplicates(r) && Elements(r) <= CandidateIds(a, b, lines, salience)
            && (MinDeclaredCap(a.reservoirSize, b.reservoirSize).Some?
                ==> |r| <= MinDeclaredCap(a.reservoirSize, b.reservoirSize).value)
  {
    hide Verdict, ComposedTopKIds;
    var ranked := RankedCandidates(a, b, lines, salience);
    SalienceOrderIsTotal(a, b, lines, salience);
    AscendingIsSorted(SalienceOrder(a, b, lines, salience), ranked);
    var r := Admitted(a, b, lines, salience);
    assert forall i :: 0 <= i < |r| ==> r[i] == ranked[i] && ranked[i] in Elements(ranked);
  }

  lemma CandidatesListed(a: Stats, b: Stats, lines: nat, salience: Salience)
    ensures CandidateIds(a, b, lines, salience) <= Ids(a) + Ids(b)
        && CandidateIds(a, b, lines, salience) !! ComposedTopKIds(a, b)
  {
    hide Verdict, ComposedTopKIds;
  }

  lemma Beyond(ids: seq<TemplateId>, top: seq<TemplateId>, rest: seq<TemplateId>, some: set<TemplateId>)
    requires ids == top + rest && some <= Elements(ids) && some !! Elements(top)
    ensures some <= Elements(rest)
  {
    assert forall x :: x in ids <==> x in top || x in rest;
  }

  /** The reserved ids lie beyond the top_k cut of the merged order. */
  lemma ReservedBeyondCut(a: Stats, b: Stats, lines: nat, salience: Salience)
    ensures Elements(Admitted(a, b, lines, salience)) <= Elements(IdList(Ordered(a, b)[TopKCut(a, b)..]))
  {
    assert TopKCut(a, b) <= |Ordered(a, b)|;
    hide *;
    AdmittedAre(a, b, lines, salience);
    OrderedIds(a, b);
    TopKIdsAre(a, b);
    CutIds(Ordered(a, b), TopKCut(a, b), Merged(a, b));
    CandidatesListed(a, b, lines, salience);
    Beyond(IdList(Ordered(a, b)), IdList(Ordered(a, b)[..TopKCut(a, b)]), IdList(Ordered(a, b)[TopKCut(a, b)..]),
           Elements(Admitted(a, b, lines, salience)));
  }

  ghost function ComposedReservoirIds(a: Stats, b: Stats, lines: nat, salience: Salience): set<TemplateId> {
    Elements(Admitted(a, b, lines, salience))
  }

  lemma ReservoirSum(a: Stats, b: Stats, lines: nat, salience: Salience, cubes: bool)
    ensures Sum(ComposedReservoir(a, b, lines, salience, cubes), ReservoirCount)
         == SetSum(ComposedReservoirIds(a, b, lines, salience), Merged(a, b))
    ensures |ComposedReservoir(a, b, lines, salience, cubes)| == |ComposedReservoirIds(a, b, lines, salience)|
  {
    AdmittedAre(a, b, lines, salience);
    var ids, res := Admitted(a, b, lines, salience), ComposedReservoir(a, b, lines, salience, cubes);
    hide Admitted, CandidateOf, LabelsFor, ViewOf, CandidateIds;
    SameSums(res, ids, ReservoirCount, Merged(a, b));
    SequenceSum(ids, Merged(a, b));
  }

  lemma TailCountsAre(a: Stats, b: Stats, lines: nat, salience: Salience)
    ensures TailCounts(a, b, lines, salience)
         == Unreserved(Ordered(a, b)[TopKCut(a, b)..], ComposedReservoirIds(a, b, lines, salience))
  {
    hide Ordered, Admitted, Unreserved;
  }

  lemma ReservedWithin(rest: seq<Counted>, reserved: set<TemplateId>)
    requires reserved <= Elements(IdList(rest))
    ensures Elements(IdList(rest)) * reserved == reserved
  {}

  lemma BeyondCut(a: Stats, b: Stats, lines: nat, salience: Salience)
    ensures var rest, reserved := Ordered(a, b)[TopKCut(a, b)..], ComposedReservoirIds(a, b, lines, salience);
            && Sum(IdList(rest), Merged(a, b)) == Total(TailCounts(a, b, lines, salience))
                + SetSum(reserved, Merged(a, b))
            && |rest| == |TailCounts(a, b, lines, salience)| + |reserved|
  {
    var reserved, rest := ComposedReservoirIds(a, b, lines, salience), Ordered(a, b)[TopKCut(a, b)..];
    ReservedBeyondCut(a, b, lines, salience);
    assert reserved <= Elements(IdList(rest));
    assert TopKCut(a, b) <= |Ordered(a, b)|;
    hide *;
    OrderedIds(a, b);
    CutIds(Ordered(a, b), TopKCut(a, b), Merged(a, b));
    TailCountsAre(a, b, lines, salience);
    ReservedWithin(rest, reserved);
    UnreservedSplit(rest, reserved, Merged(a, b));
  }

  lemma PartsDisjoint(a: Stats, b: Stats, lines: nat, salience: Salience)
    ensures ComposedTopKIds(a, b) !! ComposedReservoirIds(a, b, lines, salience)
  {
    AdmittedAre(a, b, lines, salience);
    hide Admitted, ComposedTopKIds, Verdict;
  }

  lemma WholeSum(a: Stats, b: Stats)
    ensures |Ordered(a, b)| == |Ids(a) + Ids(b)|
    ensures SetSum(Ids(a) + Ids(b), Merged(a, b))
         == Sum(ComposedTopK(a, b), TopKCount) + Sum(IdList(Ordered(a, b)[TopKCut(a, b)..]), Merged(a, b))
  {
    OrderedIds(a, b);
    TopKIdsAre(a, b);
    CutIds(Ordered(a, b), TopKCut(a, b), Merged(a, b));
    hide Ordered, ComposedTopK, ComposedTopKIds, ViewOf, Ids;
    SequenceSum(IdList(Ordered(a, b)), Merged(a, b));
  }

  /** The three parts: top_k, reservoir and tail share no template, add up to every template of either
      input, and their counts add up to every listed line of either input. */
  lemma PartsMakeWhole(a: Stats, b: Stats, lines: nat, salience: Salience, cubes: bool)
    ensures var top, res, tail := ComposedTopK(a, b), ComposedReservoir(a, b, lines, salience, cubes),
        TailCounts(a, b, lines, salience);
            && ComposedTopKIds(a, b) !! ComposedReservoirIds(a, b, lines, salience)
            && |Ordered(a, b)| == |top| + |res| + |tail| == |Ids(a) + Ids(b)|
            && Sum(top, TopKCount) + Sum(res, ReservoirCount) + Total(tail) == SetSum(Ids(a) + Ids(b), Merged(a, b))
  {
    WholeSum(a, b);
    BeyondCut(a, b, lines, salience);
    PartsDisjoint(a, b, lines, salience);
    ReservoirSum(a, b, lines, salience, cubes);
    hide Ordered, TailCounts, ComposedTopKIds, ComposedReservoirIds, ViewOf, Ids;
  }

  /** Composition conserves lines: what the composed statistics account for is exactly what the two
      inputs account for, and the counts its entropy is computed over add up to the same. */
  lemma ComposeConserves(a: Stats, b: Stats, lines: nat, salience: Salience, cubes: bool)
    ensures var c := ComposedStats(a, b, lines, salience, cubes);
            && Mass(c) == Mass(a) + Mass(b)
            && c.uniqueTemplates == |c.topK| + |c.reservoir| + c.tailUnique
            && |c.topK| <= c.topKSize && (c.reservoirSize.Some? ==> |c.reservoir| <= c.reservoirSize.value)
            && Total(CountList(Ordered(a, b))) + a.tailCount + b.tailCount == Mass(c)
  {
    PartsMakeWhole(a, b, lines, salience, cubes);
    MergedMass(a, b);
    AdmittedAre(a, b, lines, salience);
    OrderedIds(a, b);
    var ordered := Ordered(a, b);
    hide Ordered, ComposedTopK, ComposedReservoir, TailCounts, Admitted, CandidateIds, ComposedTopKIds, Ids;
    forall i | 0 <= i < |ordered| ensures CountList(ordered)[i] == Merged(a, b)(IdList(ordered)[i])
        { assert ordered[i] in ordered; }
    SameSums(CountList(ordered), IdList(ordered), Itself, Merged(a, b));
    SequenceSum(IdList(ordered), Merged(a, b));
  }

  // ---------------------------------------------------------------- any tree of compositions

  datatype Tree = Leaf(stats: Stats, lines: nat) | Node(left: Tree, right: Tree)

  function Lines(t: Tree): nat { match t case Leaf(_, lines) => lines case Node(l, r) => Lines(l) + Lines(r) }

  ghost function StatsOf(t: Tree, salience: Salience, cubes: bool): Stats {
    match t
    case Leaf(stats, _) => stats
    case Node(l, r) => ComposedStats(StatsOf(l, salience, cubes), StatsOf(r, salience, cubes), Lines(t), salience,
                                     cubes)
  }

  ghost predicate LeavesConserve(t: Tree) {
    match t
    case Leaf(stats, lines) => Mass(stats) == lines
    case Node(l, r) => LeavesConserve(l) && LeavesConserve(r)
  }

  /** However documents are composed, top_k, reservoir and tail together count every observed line. */
  lemma {:induction false} TreeConserves(t: Tree, salience: Salience, cubes: bool)
    requires LeavesConserve(t)
    ensures Mass(StatsOf(t, salience, cubes)) == Lines(t)
  {
    match t
    case Leaf(_, _) =>
    case Node(l, r) =>
      TreeConserves(l, salience, cubes);
      TreeConserves(r, salience, cubes);
      hide Mass, ComposedStats;
      ComposeConserves(StatsOf(l, salience, cubes), StatsOf(r, salience, cubes), Lines(t), salience, cubes);
  }
}
