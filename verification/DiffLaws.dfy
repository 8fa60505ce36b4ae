/** A document compared with itself is silent, and a comparison the other way round is its mirror. */
module DiffLaws {
  import opened Options
  import opened Identifiers
  import opened Orders
  import opened Sums
  import opened Bytes
  import opened Blocks
  import opened ComposeLabels
  import opened Histograms
  import opened ComposeStats
  import opened Behaviors
  import opened Composition
  import opened ComposeDocument
  import opened SalienceScores
  import opened Divergences
  import opened Ranking
  import opened Diff
  import CubeDiff
  import Latency
  import ShiftDuality

  // ---------------------------------------------------------------- one entry per template

  const TopKId: TopKEntry -> TemplateId := (e: TopKEntry) => e.id

  const ReservoirId: ReservoirEntry -> TemplateId := (e: ReservoirEntry) => e.id

  const BranchingId: BranchingRow -> TemplateId := (r: BranchingRow) => r.id

  /** Each list has one entry per template, and each entry one slot per parameter. */
  ghost predicate WellFormed(s: Side) {
    && NoDuplicates(MapSeq(s.document.stats.topK, TopKId))
        && NoDuplicates(MapSeq(s.document.stats.reservoir, ReservoirId))
    && (s.branching.Some? ==> NoDuplicates(MapSeq(s.branching.value, BranchingId)))
    && forall e :: e in s.document.stats.topK ==> DistinctSlots(e.histograms)
  }

  // ---------------------------------------------------------------- self comparison

  lemma SelfTemplates(d: MetaLogDiff, counts: map<TemplateId, nat>)
    requires TemplatesCompared(d, counts, counts)
    ensures d.emerged == [] && d.vanished == [] && forall i :: 0 <= i < |d.templates| ==> d.templates[i].delta == 0
  {
    assert OnlyIn(counts, counts) == {};
    NothingRanked(IdOrder, d.emerged);
    NothingRanked(IdOrder, d.vanished);
    forall i | 0 <= i < |d.templates|
        ensures d.templates[i].delta == 0 { assert d.templates[i] in Elements(d.templates); }
  }

  lemma {:induction false} BitsKept(rows: seq<BranchingRow>)
    requires NoDuplicates(MapSeq(rows, BranchingId))
    ensures forall row :: row in rows ==> row.id in BitsOf(rows) && BitsOf(rows)[row.id] == row.bits
    ensures forall id :: id in BitsOf(rows) ==> exists row :: row in rows && row.id == id
  {
    if rows != [] {
      var front, last := rows[..|rows| - 1], rows[|rows| - 1];
      assert rows == front + [last];
      assert MapSeq(rows, BranchingId) == MapSeq(front, BranchingId) + [last.id];
      BitsKept(front);
      forall row | row in front ensures row.id != last.id {
        var i :| 0 <= i < |front| && front[i] == row;
        assert MapSeq(rows, BranchingId)[i] != MapSeq(rows, BranchingId)[|rows| - 1];
      }
      assert last in rows;
    }
  }

  /** Distinct ids: the last one is not among those before it. */
  lemma LastIsNew(ids: seq<TemplateId>, id: TemplateId)
    requires NoDuplicates(ids + [id])
    ensures NoDuplicates(ids) && id !in ids
  {
    var all := ids + [id];
    forall i, j | 0 <= i < j < |ids| ensures ids[i] != ids[j] { assert all[i] != all[j]; }
    forall i | 0 <= i < |ids| ensures ids[i] != id { assert all[i] != all[|ids|]; }
  }

  lemma {:induction false} BranchListElements(prev: map<TemplateId, real>, rows: seq<BranchingRow>)
    ensures Elements(BranchList(prev, rows)) == BranchRows(prev, rows)
  {
    if rows != [] {
      var front, last := rows[..|rows| - 1], rows[|rows| - 1];
      assert rows == front + [last];
      BranchListElements(prev, front);
      BranchRowsSnoc(prev, front, last);
      ElementsConcat(BranchList(prev, front), if last.id in prev then [BranchRow(prev, last)] else []);
    }
  }

  lemma {:induction false} BranchListDistinct(prev: map<TemplateId, real>, rows: seq<BranchingRow>)
    requires NoDuplicates(MapSeq(rows, BranchingId))
    ensures NoDuplicates(BranchList(prev, rows))
    ensures forall d :: d in BranchList(prev, rows) ==> d.id in MapSeq(rows, BranchingId)
  {
    if rows != [] {
      var front, last := rows[..|rows| - 1], rows[|rows| - 1];
      assert MapSeq(rows, BranchingId) == MapSeq(front, BranchingId) + [last.id];
      LastIsNew(MapSeq(front, BranchingId), last.id);
      BranchListDistinct(prev, front);
      DistinctConcat(BranchList(prev, front), if last.id in prev then [BranchRow(prev, last)] else []);
    }
  }

  lemma BranchingRanked(branching: seq<BranchingDelta>, a: Side, b: Side)
    requires Branches(a) && Branches(b) && IsBranching(branching, a, b) && WellFormed(b)
    ensures var rows := BranchRows(BitsOf(a.branching.value), b.branching.value);
            if AnyMoved(rows) then IsRanked(BranchOrder, branching, rows) else branching == []
  {
    BranchListElements(BitsOf(a.branching.value), b.branching.value);
    BranchListDistinct(BitsOf(a.branching.value), b.branching.value);
    hide BitsOf, BranchRows, BranchList, BranchOrder;
    if AnyMoved(BranchRows(BitsOf(a.branching.value), b.branching.value)) {
      SortingIsRanked(BranchOrder, branching, BranchList(BitsOf(a.branching.value), b.branching.value));
    }
  }

  lemma SelfBranching(d: MetaLogDiff, s: Side)
    requires IsBranching(d.branching, s, s) && WellFormed(s)
    ensures d.branching == []
  {
    if Branches(s) {
      BitsKept(s.branching.value);
      var rows := BranchRows(BitsOf(s.branching.value), s.branching.value);
      assert !AnyMoved(rows);
    }
  }

  lemma SelfNGrams(d: MetaLogDiff, s: Side, idOf: IdOf)
    requires AreNGrams(d.ngrams, d.mismatch, s, s, idOf)
    ensures d.ngrams.None? && d.mismatch.None?
  {
    if s.document.behavior.Some? {
      var rated := RatedBy(Entries(s.document.behavior), idOf);
      assert SequencesOnlyIn(rated, rated) == {} && RateRows(rated, rated) == {};
    }
  }

  lemma {:induction false} TrackedKept(entries: seq<TopKEntry>)
    requires NoDuplicates(MapSeq(entries, TopKId))
    ensures forall e :: e in entries && e.histograms != [] ==>
        e.id in TrackedOf(entries) && TrackedOf(entries)[e.id] == e
    ensures forall id :: id in TrackedOf(entries) ==>
        TrackedOf(entries)[id] in entries && TrackedOf(entries)[id].id == id && TrackedOf(entries)[id].histograms != []
  {
    if entries != [] {
      var front, last := entries[..|entries| - 1], entries[|entries| - 1];
      assert entries == front + [last];
      assert MapSeq(entries, TopKId) == MapSeq(front, TopKId) + [last.id];
      TrackedKept(front);
      forall e | e in front ensures e.id != last.id {
        var i :| 0 <= i < |front| && front[i] == e;
        assert MapSeq(entries, TopKId)[i] != MapSeq(entries, TopKId)[|entries| - 1];
      }
    }
  }

  lemma {:induction false} SlotFound(histograms: seq<FieldHistogram>, c: FieldHistogram)
    requires DistinctSlots(histograms) && c in histograms
    ensures ParameterSlot(histograms, c.index) == Some(c)
  {
    if histograms[0] != c {
      assert c in histograms[1..];
      assert histograms[0].index != c.index by {
        var i :| 0 < i < |histograms| && histograms[i] == c;
      }
      SlotFound(histograms[1..], c);
    }
  }

  lemma {:induction false} SlotIs(histograms: seq<FieldHistogram>, index: nat)
    ensures ParameterSlot(histograms, index).Some?
        ==> ParameterSlot(histograms, index).value in histograms
            && ParameterSlot(histograms, index).value.index == index
    ensures ParameterSlot(histograms, index).None? ==> forall h :: h in histograms ==> h.index != index
  {
    if histograms != [] { SlotIs(histograms[1..], index); }
  }

  ghost function SlotRows(prev: TopKEntry, id: TemplateId, slots: seq<FieldHistogram>,
                          measures: Measures): set<HistogramDelta> {
    set c | c in slots && ParameterSlot(prev.histograms, c.index).Some? ::
      HistogramRow(id, ParameterSlot(prev.histograms, c.index).value, c, measures)
  }

  ghost function OneSlot(prev: TopKEntry, id: TemplateId, c: FieldHistogram, measures: Measures): seq<HistogramDelta> {
    var found := ParameterSlot(prev.histograms, c.index);
    if found.Some? then [HistogramRow(id, found.value, c, measures)] else []
  }

  lemma SlotRowsSnoc(prev: TopKEntry, id: TemplateId, front: seq<FieldHistogram>, c: FieldHistogram,
                     measures: Measures)
    ensures SlotRows(prev, id, front + [c], measures)
        == SlotRows(prev, id, front, measures) + Elements(OneSlot(prev, id, c, measures))
  {
    hide ParameterSlot, HistogramRow;
    assert forall x :: x in front + [c] <==> x in front || x == c;
  }

  lemma {:induction false} SlotListIs(prev: TopKEntry, id: TemplateId, slots: seq<FieldHistogram>, measures: Measures)
    ensures Elements(SlotList(prev, id, slots, measures)) == SlotRows(prev, id, slots, measures)
    ensures forall d :: d in SlotList(prev, id, slots, measures) ==>
        d.id == id && exists i :: 0 <= i < |slots| && slots[i].index == d.index
    ensures DistinctSlots(slots) ==> NoDuplicates(SlotList(prev, id, slots, measures))
  {
    hide ParameterSlot, HistogramJs, SlotRows;
    if slots == [] {
      NoSlotRows(prev, id, measures);
    } else {
      var front, last := slots[..|slots| - 1], slots[|slots| - 1];
      assert slots == front + [last];
      SlotListIs(prev, id, front, measures);
      SlotRowsSnoc(prev, id, front, last, measures);
      ElementsConcat(SlotList(prev, id, front, measures), OneSlot(prev, id, last, measures));
      if DistinctSlots(slots) {
        DistinctConcat(SlotList(prev, id, front, measures), OneSlot(prev, id, last, measures));
      }
    }
  }

  lemma NoSlotRows(prev: TopKEntry, id: TemplateId, measures: Measures)
    ensures SlotRows(prev, id, [], measures) == {}
  {}

  ghost function OneEntryRows(prev: map<TemplateId, TopKEntry>, e: TopKEntry, measures: Measures): seq<HistogramDelta>
  {
    if e.id in prev then SlotList(prev[e.id], e.id, e.histograms, measures) else []
  }

  lemma HistogramRowsSnoc(prev: map<TemplateId, TopKEntry>, front: seq<TopKEntry>, e: TopKEntry, measures: Measures)
    ensures HistogramRows(prev, front + [e], measures)
        == HistogramRows(prev, front, measures)
           + if e.id in prev then SlotRows(prev[e.id], e.id, e.histograms, measures) else {}
  {
    hide ParameterSlot, HistogramRow;
    assert forall x :: x in front + [e] <==> x in front || x == e;
  }

  lemma {:induction false} HistogramListElements(prev: map<TemplateId, TopKEntry>, entries: seq<TopKEntry>,
                                                 measures: Measures)
    ensures Elements(HistogramList(prev, entries, measures)) == HistogramRows(prev, entries, measures)
  {
    if entries == [] {
      NoHistogramRows(prev, measures);
    } else {
      var front, last := entries[..|entries| - 1], entries[|entries| - 1];
      assert entries == front + [last];
      HistogramListElements(prev, front, measures);
      HistogramRowsSnoc(prev, front, last, measures);
      if last.id in prev { SlotListIs(prev[last.id], last.id, last.histograms, measures); }
      hide HistogramRows, SlotList, SlotRows, Elements;
      ElementsConcat(HistogramList(prev, front, measures), OneEntryRows(prev, last, measures));
      NoElements<HistogramDelta>([]);
    }
  }

  lemma NoHistogramRows(prev: map<TemplateId, TopKEntry>, measures: Measures)
    ensures HistogramRows(prev, [], measures) == {}
  {}

  lemma {:induction false} HistogramListDistinct(prev: map<TemplateId, TopKEntry>, entries: seq<TopKEntry>,
                                                 measures: Measures)
    requires Slotted(entries)
    ensures NoDuplicates(HistogramList(prev, entries, measures))
    ensures forall d :: d in HistogramList(prev, entries, measures) ==> d.id in MapSeq(entries, TopKId)
  {
    if entries != [] {
      var front, last := entries[..|entries| - 1], entries[|entries| - 1];
      assert forall x :: x in front ==> x in entries;
      assert last in entries;
      assert MapSeq(entries, TopKId) == MapSeq(front, TopKId) + [last.id];
      LastIsNew(MapSeq(front, TopKId), last.id);
      HistogramListDistinct(prev, front, measures);
      if last.id in prev { SlotListIs(prev[last.id], last.id, last.histograms, measures); }
      hide SlotList, DistinctSlots, ParameterSlot, HistogramJs;
      DistinctConcat(HistogramList(prev, front, measures), OneEntryRows(prev, last, measures));
    }
  }

  lemma HistogramsRanked(histograms: seq<HistogramDelta>, a: seq<TopKEntry>, b: seq<TopKEntry>, measures: Measures)
    requires IsSorting(HistogramOrder, histograms, HistogramList(TrackedOf(a), b, measures))
    ensures Elements(histograms) == HistogramRows(TrackedOf(a), b, measures)
    ensures Slotted(b) ==> IsRanked(HistogramOrder, histograms, HistogramRows(TrackedOf(a), b, measures))
  {
    hide TrackedOf, HistogramList, HistogramRows, Slotted, HistogramOrder;
    HistogramListElements(TrackedOf(a), b, measures);
    if Slotted(b) { HistogramListDistinct(TrackedOf(a), b, measures); }
    SortingIsRanked(HistogramOrder, histograms, HistogramList(TrackedOf(a), b, measures));
  }

  lemma SelfHistograms(d: MetaLogDiff, s: Side, measures: Measures)
    requires HistogramsCompared(d, s, s, measures) && WellFormed(s) && ZeroIsZero(measures.fixed)
    ensures forall i :: 0 <= i < |d.histograms| ==> !HistogramMoved(d.histograms[i])
  {
    var entries := s.document.stats.topK;
    var tracked := TrackedOf(entries);
    TrackedKept(entries);
    HistogramsRanked(d.histograms, entries, entries, measures);
    hide TrackedOf, HistogramJs, ParameterSlot, HistogramList;
    forall i | 0 <= i < |d.histograms| ensures !HistogramMoved(d.histograms[i]) {
      assert d.histograms[i] in Elements(d.histograms);
      var e, c :| e in entries && c in e.histograms && e.id in tracked
          && ParameterSlot(tracked[e.id].histograms, c.index).Some?
        && d.histograms[i] == HistogramRow(e.id, ParameterSlot(tracked[e.id].histograms, c.index).value, c, measures);
      assert tracked[e.id] == e;
      SlotFound(e.histograms, c);
      SelfJs(c, measures.fixed);
    }
  }

  lemma SelfJs(c: FieldHistogram, fixed: Fixed)
    requires ZeroIsZero(fixed)
    ensures HistogramJs(c, c, fixed) == 0.0
  {
    TextOrderIsTotal();
    SelfDivergenceIsZero(TextOrder, c.values, c.total, fixed);
  }

  lemma {:induction false} ReservoirRemembered(memory: map<TemplateId, Memory>, entries: seq<ReservoirEntry>)
    ensures memory.Keys <= AddReservoir(memory, entries).Keys
        && forall e :: e in entries ==> e.id in AddReservoir(memory, entries)
  {
    if entries != [] {
      ReservoirRemembered(memory, entries[..|entries| - 1]);
      assert forall e :: e in entries ==> e in entries[..|entries| - 1] || e == entries[|entries| - 1];
    }
  }

  lemma {:induction false} SalientListElements(entries: seq<ReservoirEntry>, other: map<TemplateId, Memory>)
    ensures Elements(SalientList(entries, other)) == SalientOnlyIn(entries, other)
  {
    if entries != [] {
      var front, last := entries[..|entries| - 1], entries[|entries| - 1];
      assert forall x :: x in entries <==> x in front || x == last;
      SalientListElements(front, other);
      ElementsConcat(SalientList(front, other), if last.id !in other then [Snapshot(last)] else []);
    }
  }

  lemma {:induction false} SalientListDistinct(entries: seq<ReservoirEntry>, other: map<TemplateId, Memory>)
    requires NoDuplicates(MapSeq(entries, ReservoirId))
    ensures NoDuplicates(SalientList(entries, other))
    ensures forall s :: s in SalientList(entries, other) ==> s.id in MapSeq(entries, ReservoirId)
  {
    if entries != [] {
      var front, last := entries[..|entries| - 1], entries[|entries| - 1];
      assert MapSeq(entries, ReservoirId) == MapSeq(front, ReservoirId) + [last.id];
      LastIsNew(MapSeq(front, ReservoirId), last.id);
      SalientListDistinct(front, other);
      DistinctConcat(SalientList(front, other), if last.id !in other then [Snapshot(last)] else []);
    }
  }

  lemma SalientRanked(salient: seq<Salient>, entries: seq<ReservoirEntry>, other: map<TemplateId, Memory>)
    requires IsSorting(SalientOrder, salient, SalientList(entries, other))
    ensures Elements(salient) == SalientOnlyIn(entries, other)
    ensures NoDuplicates(MapSeq(entries, ReservoirId))
        ==> IsRanked(SalientOrder, salient, SalientOnlyIn(entries, other))
  {
    hide SalientList, SalientOnlyIn, SalientOrder;
    SalientListElements(entries, other);
    if NoDuplicates(MapSeq(entries, ReservoirId)) { SalientListDistinct(entries, other); }
    SortingIsRanked(SalientOrder, salient, SalientList(entries, other));
  }

  lemma SelfReservoir(d: MetaLogDiff, s: Side)
    requires IsReservoir(d.reservoir, s, s)
    ensures d.reservoir == ReservoirDelta([], [], [])
  {
    var memory := MemoryOf(s.document.stats);
    ReservoirRemembered(AddTopK(map[], s.document.stats.topK), s.document.stats.reservoir);
    hide AddTopK, AddReservoir;
    assert SalientOnlyIn(s.document.stats.reservoir, memory) == {} && CrossingRows(memory, memory) == {};
    SalientRanked(d.reservoir.emerged, s.document.stats.reservoir, memory);
    SalientRanked(d.reservoir.vanished, s.document.stats.reservoir, memory);
    NoElements(d.reservoir.emerged);
    NoElements(d.reservoir.vanished);
    NothingRanked(CrossingOrder, d.reservoir.crossings);
  }

  lemma SelfDivergences(d: MetaLogDiff, s: Side, fixed: Fixed)
    requires DivergencesCompared(d, s, s, fixed) && ZeroIsZero(fixed)
    ensures d.kl.Some? ==> d.kl.value == 0.0
    ensures d.js.Some? ==> d.js.value == 0.0
    ensures d.stability.Some? ==> d.stability.value == 1.0
  {
    OrdersArePartial();
    SelfDivergenceIsZero(IdOrder, CountedIn(s.document.stats.topK), s.document.lines, fixed);
    hide DivergenceOf, CountedIn;
  }

  lemma SelfCube(d: MetaLogDiff, s: Side, schedule: Text)
    requires CubesCompose(s.document, s.document) && IsCube(d.cube, s, s, schedule)
    ensures d.cube.Some? ==> d.cube.value.emerging == None && d.cube.value.vanishing == None
  {
    hide Composable, CubeDiff.DiffBlocks, DurationsOf;
    Latency.SelfShifts(DurationsOf(s, schedule));
    if s.document.cube.Some? { CubeDiff.SelfDiffIsEmpty(s.document.cube.value); }
  }

  /** Comparing a document with itself finds nothing and withholds nothing, for any logarithm and any
      reading of entropies: no divergence, no row, no latency shift and no border. */
  lemma SelfDiffIsSilent(d: MetaLogDiff, s: Side, measures: Measures)
    requires CubesCompose(s.document, s.document) && IsDiff(d, s, s, measures) && WellFormed(s)
        && ZeroIsZero(measures.fixed)
    ensures !Changed(d) && !WithholdsHistograms(d)
  {
    hide WellFormed, CubesCompose, DivergencesCompared, TemplatesCompared, IsBranching, AreNGrams, HistogramsCompared,
        IsReservoir,
         IsCube, CountedIn, HistogramMoved, ZeroIsZero;
    SelfDivergences(d, s, measures.fixed);
    SelfTemplates(d, CountedIn(s.document.stats.topK));
    SelfBranching(d, s);
    SelfNGrams(d, s, measures.idOf);
    SelfHistograms(d, s, measures);
    SelfReservoir(d, s);
    SelfCube(d, s, measures.durations);
  }

  // ---------------------------------------------------------------- mirrors

  const MirrorTemplate: TemplateDelta -> TemplateDelta := (r: TemplateDelta) =>
      TemplateDelta(r.id, r.current, r.previous, -r.delta)

  const MirrorBranch: BranchingDelta -> BranchingDelta := (r: BranchingDelta) =>
      BranchingDelta(r.id, r.current, r.previous, -r.delta)

  const MirrorHistogram: HistogramDelta -> HistogramDelta :=
    (r: HistogramDelta) => HistogramDelta(r.id, r.index, r.currentBits, r.previousBits, r.js, r.currentTotal,
                                          r.previousTotal,
                                          r.currentCardinality, r.previousCardinality, -r.cardinalityDelta)

  function Opposite(f: Frontier): Frontier { if f == IntoFailure then OutOfFailure else IntoFailure }

  const MirrorCrossing: Crossing -> Crossing :=
    (r: Crossing) => Crossing(r.id, Opposite(r.direction), r.currentLevel, r.previousLevel, r.currentCount,
                              r.previousCount)

  const MirrorRate: RateChange -> RateChange := (r: RateChange) =>
      RateChange(r.sequence, r.current, r.previous, -r.delta)

  function MirrorTail(t: TailDelta): TailDelta {
    TailDelta(t.currentTemplates, t.previousTemplates, -t.templatesDelta, t.currentBits, t.previousBits, -t.bitsDelta,
              t.currentRate, t.previousRate, -t.rateDelta)
  }

  lemma TemplatesMirror(prev: map<TemplateId, nat>, cur: map<TemplateId, nat>)
    ensures ComparableOn(DeltaOrder, TemplateRows(prev, cur))
        && Mirrors(DeltaOrder, TemplateRows(prev, cur), MirrorTemplate)
  {
    assert forall row :: row in TemplateRows(prev, cur) ==> row == TemplateRow(prev, cur, row.id);
    hide TemplateRows, TemplateRow;
  }

  lemma MirrorTemplates(d: MetaLogDiff, back: MetaLogDiff, prev: map<TemplateId, nat>, cur: map<TemplateId, nat>)
    requires TemplatesCompared(d, prev, cur) && TemplatesCompared(back, cur, prev)
    ensures back.templates == MapSeq(d.templates, MirrorTemplate) && back.emerged == d.vanished
        && back.vanished == d.emerged
  {
    hide TemplateRows, OnlyIn, IsRanked, ComparableOn, Mirrors, DeltaOrder, IdOrder, MirrorTemplate, Image;
    OrdersArePartial();
    SetMirror(prev, cur);
    TemplatesMirror(prev, cur);
    IdsComparable(OnlyIn(prev, cur));
    IdsComparable(OnlyIn(cur, prev));
    MirroredRanking(DeltaOrder, d.templates, TemplateRows(prev, cur), MirrorTemplate, back.templates,
                    TemplateRows(cur, prev));
    RankedUnique(IdOrder, back.emerged, d.vanished, OnlyIn(prev, cur));
    RankedUnique(IdOrder, back.vanished, d.emerged, OnlyIn(cur, prev));
  }

  lemma IdsComparable(ids: set<TemplateId>)
    ensures ComparableOn(IdOrder, ids)
  {}

  lemma SetMirror(prev: map<TemplateId, nat>, cur: map<TemplateId, nat>)
    ensures TemplateRows(cur, prev) == Image(TemplateRows(prev, cur), MirrorTemplate)
  {
    forall row | row in TemplateRows(cur, prev) ensures row in Image(TemplateRows(prev, cur), MirrorTemplate) {
      assert TemplateRow(prev, cur, row.id) in TemplateRows(prev, cur)
          && MirrorTemplate(TemplateRow(prev, cur, row.id)) == row;
    }
    forall row | row in Image(TemplateRows(prev, cur), MirrorTemplate) ensures row in TemplateRows(cur, prev) {
      assert row == TemplateRow(cur, prev, row.id);
    }
  }

  lemma BranchRowsMirror(a: seq<BranchingRow>, b: seq<BranchingRow>)
    requires NoDuplicates(MapSeq(a, BranchingId)) && NoDuplicates(MapSeq(b, BranchingId))
    ensures BranchRows(BitsOf(b), a) == Image(BranchRows(BitsOf(a), b), MirrorBranch)
    ensures forall x, y :: x in BranchRows(BitsOf(a), b) && y in BranchRows(BitsOf(a), b) && x.id == y.id ==> x == y
  {
    BitsKept(a);
    BitsKept(b);
    hide BitsOf;
    forall row | row in a && row.id in BitsOf(b)
        ensures BranchRow(BitsOf(b), row) in Image(BranchRows(BitsOf(a), b), MirrorBranch) {
      var other :| other in b && other.id == row.id;
      assert MirrorBranch(BranchRow(BitsOf(a), other)) == BranchRow(BitsOf(b), row);
      assert BranchRow(BitsOf(a), other) in BranchRows(BitsOf(a), b);
    }
    forall row | row in b && row.id in BitsOf(a)
        ensures MirrorBranch(BranchRow(BitsOf(a), row)) in BranchRows(BitsOf(b), a) {
      var other :| other in a && other.id == row.id;
      assert MirrorBranch(BranchRow(BitsOf(a), row)) == BranchRow(BitsOf(b), other);
    }
  }

  lemma MirrorBranching(d: MetaLogDiff, back: MetaLogDiff, a: Side, b: Side)
    requires IsBranching(d.branching, a, b) && IsBranching(back.branching, b, a) && WellFormed(a) && WellFormed(b)
    ensures back.branching == MapSeq(d.branching, MirrorBranch)
  {
    if Branches(a) && Branches(b) {
      BranchingRanked(d.branching, a, b);
      BranchingRanked(back.branching, b, a);
      OrdersArePartial();
      BranchRowsMirror(a.branching.value, b.branching.value);
      hide BitsOf, BranchRows, BranchList;
      var rows, rows' := BranchRows(BitsOf(a.branching.value), b.branching.value),
          BranchRows(BitsOf(b.branching.value), a.branching.value);
      MovedMirror(rows);
      if AnyMoved(rows) {
        assert ComparableOn(BranchOrder, rows);
        assert Mirrors(BranchOrder, rows, MirrorBranch) by { NegatedDistance(); }
        MirroredRanking(BranchOrder, d.branching, rows, MirrorBranch, back.branching, rows');
      }
    }
  }

  lemma NegatedDistance()
    ensures forall x: BranchingDelta :: Distance(MirrorBranch(x).delta) == Distance(x.delta)
  {}

  lemma MovedMirror(rows: set<BranchingDelta>)
    ensures AnyMoved(Image(rows, MirrorBranch)) == AnyMoved(rows)
  {
    if AnyMoved(rows) {
      var row :| row in rows && row.delta != 0.0;
      assert MirrorBranch(row) in Image(rows, MirrorBranch);
    }
  }

  // ---------------------------------------------------------------- mirrored n-grams

  /** A re-rated n-gram is the same sequence on both sides: its id did not collide between the two. */
  ghost predicate SameSequences(prev: map<NGramId, RatedNGram>, cur: map<NGramId, RatedNGram>) {
    forall id :: id in prev && id in cur && cur[id].probability != prev[id].probability ==>
        prev[id].sequence == cur[id].sequence
  }

  /** An id is computed from its sequence, so no two ids keep one sequence. */
  ghost predicate Keyed(rated: map<NGramId, RatedNGram>, idOf: IdOf)
      { forall id :: id in rated ==> idOf(rated[id].sequence) == id }

  lemma {:induction false} RatedIsKeyed(entries: seq<NGram>, idOf: IdOf)
    ensures Keyed(RatedBy(entries, idOf), idOf)
  {
    if entries != [] { RatedIsKeyed(entries[..|entries| - 1], idOf); }
  }

  lemma RatesComparable(prev: map<NGramId, RatedNGram>, cur: map<NGramId, RatedNGram>, idOf: IdOf)
    requires Keyed(cur, idOf)
    ensures ComparableOn(RateOrder, RateRows(prev, cur))
    ensures forall x, y :: x in RateRows(prev, cur) && y in RateRows(prev, cur) && x.sequence == y.sequence ==> x == y
  {
    forall x, y | x in RateRows(prev, cur) && y in RateRows(prev, cur) && x.sequence == y.sequence ensures x == y {
      var i :| i in cur && i in prev && x == RateRow(prev[i], cur[i]);
      var j :| j in cur && j in prev && y == RateRow(prev[j], cur[j]);
      assert idOf(cur[i].sequence) == i && idOf(cur[j].sequence) == j;
    }
    hide RateRows, SequenceLess, Distance;
    forall x, y | x in RateRows(prev, cur) && y in RateRows(prev, cur) && x != y
        ensures RateOrder(x, y) || RateOrder(y, x) {
      SequenceTrichotomy(x.sequence, y.sequence);
    }
  }

  lemma RatesMirror(prev: map<NGramId, RatedNGram>, cur: map<NGramId, RatedNGram>, idOf: IdOf)
    requires Keyed(cur, idOf)
    ensures Mirrors(RateOrder, RateRows(prev, cur), MirrorRate)
  {
    hide SequenceLess;
    forall x: RateChange ensures Distance(MirrorRate(x).delta) == Distance(x.delta)
        && MirrorRate(x).sequence == x.sequence {}
    forall x: RateChange, y: RateChange | MirrorRate(x) == MirrorRate(y)
        ensures x == y { assert MirrorRate(MirrorRate(x)) == x && MirrorRate(MirrorRate(y)) == y; }
    hide RateRows, Distance, MirrorRate;
  }

  /** Swapping the sides mirrors the re-rated rows exactly when no re-rated id collided. */
  lemma RateRowsMirror(prev: map<NGramId, RatedNGram>, cur: map<NGramId, RatedNGram>, idOf: IdOf)
    requires Keyed(prev, idOf) && Keyed(cur, idOf)
    ensures RateRows(cur, prev) == Image(RateRows(prev, cur), MirrorRate) <==> SameSequences(prev, cur)
  {
    if SameSequences(prev, cur) {
      forall id | id in cur && id in prev && cur[id].probability != prev[id].probability
        ensures RateRow(cur[id], prev[id]) == MirrorRate(RateRow(prev[id], cur[id]))
            && RateRow(prev[id], cur[id]) in RateRows(prev, cur)
      {}
      assert RateRows(cur, prev) == Image(RateRows(prev, cur), MirrorRate);
    }
    if RateRows(cur, prev) == Image(RateRows(prev, cur), MirrorRate) {
      forall id | id in prev && id in cur && cur[id].probability != prev[id].probability
          ensures prev[id].sequence == cur[id].sequence {
        var row := RateRow(prev[id], cur[id]);
        assert row in RateRows(prev, cur) && MirrorRate(row) in RateRows(cur, prev);
        var j :| j in prev && j in cur && MirrorRate(row) == RateRow(cur[j], prev[j]);
        assert idOf(prev[j].sequence) == j && idOf(cur[id].sequence) == id;
      }
    }
  }

  function MirrorNGramDelta(n: NGramDelta): NGramDelta
      { NGramDelta(n.size, n.vanished, n.emerged, MapSeq(n.changed, MirrorRate)) }

  function MirrorNGrams(n: Option<NGramDelta>): Option<NGramDelta>
      { if n.None? then None else Some(MirrorNGramDelta(n.value)) }

  lemma SequencesComparable(sequences: set<seq<TemplateId>>)
    ensures ComparableOn(SequenceOrder, sequences) && forall x: seq<TemplateId> :: !SequenceOrder(x, x)
  {
    SequenceOrdersArePartial();
    hide SequenceOrder;
  }

  lemma RankedMapped(changed: seq<RateChange>, rows: set<RateChange>, r: seq<RateChange>, rows': set<RateChange>)
    requires IsRanked(RateOrder, changed, rows) && IsRanked(RateOrder, r, rows') && r == MapSeq(changed, MirrorRate)
    ensures rows' == Image(rows, MirrorRate)
  {
    hide RateOrder, Sorted, NoDuplicates, MirrorRate;
    MappedElements(changed, MirrorRate);
  }

  lemma MappedElements<T, U>(s: seq<T>, f: T -> U)
    ensures Elements(MapSeq(s, f)) == Image(Elements(s), f)
  {
    var m := MapSeq(s, f);
    forall y | y in Image(Elements(s), f) ensures y in m {
      var x :| x in Elements(s) && f(x) == y;
      var i :| 0 <= i < |s| && s[i] == x;
      assert m[i] == y;
    }
    forall i | 0 <= i < |m| ensures m[i] in Image(Elements(s), f) { assert s[i] in Elements(s); }
  }

  /** N-gram deltas mirror when the sides are swapped if and only if no re-rated id collided. */
  lemma MirroredNGrams(there: Option<NGramDelta>, back: Option<NGramDelta>, size: nat, prev: map<NGramId, RatedNGram>,
                       cur: map<NGramId, RatedNGram>, idOf: IdOf)
    requires NGramsAre(there, size, prev, cur) && NGramsAre(back, size, cur, prev) && Keyed(prev, idOf)
        && Keyed(cur, idOf)
    ensures back == MirrorNGrams(there) <==> SameSequences(prev, cur)
  {
    RateRowsMirror(prev, cur, idOf);
    RatesEmpty(prev, cur);
    if there.Some? {
      hide SequencesOnlyIn, RateRows, IsRanked, Keyed, SameSequences, RateOrder, SequenceOrder, MirrorRate, Image,
          Mirrors, ComparableOn;
      SequencesComparable(SequencesOnlyIn(prev, cur));
      SequencesComparable(SequencesOnlyIn(cur, prev));
      RankedUnique(SequenceOrder, back.value.emerged, there.value.vanished, SequencesOnlyIn(prev, cur));
      RankedUnique(SequenceOrder, back.value.vanished, there.value.emerged, SequencesOnlyIn(cur, prev));
      RatesComparable(prev, cur, idOf);
      RatesMirror(prev, cur, idOf);
      SequenceOrdersArePartial();
      if SameSequences(prev, cur) {
        MirroredRanking(RateOrder, there.value.changed, RateRows(prev, cur), MirrorRate, back.value.changed,
                        RateRows(cur, prev));
      }
      if back == MirrorNGrams(there) {
        RankedMapped(there.value.changed, RateRows(prev, cur), back.value.changed, RateRows(cur, prev));
      }
    }
  }

  lemma RatesEmpty(prev: map<NGramId, RatedNGram>, cur: map<NGramId, RatedNGram>)
    ensures RateRows(prev, cur) == {} <==> RateRows(cur, prev) == {}
    ensures RateRows(prev, cur) == {} ==> SameSequences(prev, cur)
  {
    forall id | id in cur && id in prev && cur[id].probability != prev[id].probability
      ensures RateRow(prev[id], cur[id]) in RateRows(prev, cur) && RateRow(cur[id], prev[id]) in RateRows(cur, prev)
    {}
  }

  // ---------------------------------------------------------------- mirrored histograms

  lemma JsMirror(p: FieldHistogram, c: FieldHistogram, fixed: Fixed)
    ensures HistogramJs(p, c, fixed) == HistogramJs(c, p, fixed)
  {
    TextOrderIsTotal();
    hide DivergenceOf, TextOrder;
    JsIsSymmetric(TextOrder, p.values, p.total, c.values, c.total, fixed);
  }

  ghost predicate Slotted(entries: seq<TopKEntry>)
      { NoDuplicates(MapSeq(entries, TopKId)) && forall e :: e in entries ==> DistinctSlots(e.histograms) }

  /** The row of one slot seen from the other side. */
  lemma RowMirrored(a: seq<TopKEntry>, b: seq<TopKEntry>, e: TopKEntry, c: FieldHistogram, measures: Measures)
    requires Slotted(a) && Slotted(b) && e in b && c in e.histograms && e.id in TrackedOf(a)
        && ParameterSlot(TrackedOf(a)[e.id].histograms, c.index).Some?
    ensures MirrorHistogram(HistogramRow(e.id, ParameterSlot(TrackedOf(a)[e.id].histograms, c.index).value, c,
                                         measures)) in HistogramRows(TrackedOf(b), a, measures)
  {
    TrackedKept(a);
    TrackedKept(b);
    var prev := TrackedOf(a)[e.id];
    SlotIs(prev.histograms, c.index);
    var p := ParameterSlot(prev.histograms, c.index).value;
    SlotFound(e.histograms, c);
    JsMirror(p, c, measures.fixed);
    hide TrackedOf, ParameterSlot, HistogramJs;
    assert prev in a && p in prev.histograms && prev.id in TrackedOf(b) && TrackedOf(b)[prev.id] == e
        && ParameterSlot(e.histograms, p.index) == Some(c);
    assert HistogramRow(prev.id, c, p, measures) in HistogramRows(TrackedOf(b), a, measures);
    assert MirrorHistogram(HistogramRow(e.id, p, c, measures)) == HistogramRow(prev.id, c, p, measures);
  }

  lemma HistogramRowsMirror(a: seq<TopKEntry>, b: seq<TopKEntry>, measures: Measures)
    requires Slotted(a) && Slotted(b)
    ensures HistogramRows(TrackedOf(b), a, measures) == Image(HistogramRows(TrackedOf(a), b, measures), MirrorHistogram)
  {
    hide HistogramRows, TrackedOf, Slotted, MirrorHistogram;
    MirrorsWithin(a, b, measures);
    MirrorsWithin(b, a, measures);
    MirrorTwice();
    ImageOfInvolution(HistogramRows(TrackedOf(a), b, measures), HistogramRows(TrackedOf(b), a, measures),
                      MirrorHistogram);
  }

  lemma MirrorTwice()
    ensures forall row: HistogramDelta :: MirrorHistogram(MirrorHistogram(row)) == row
  {}

  lemma ImageOfInvolution<T(!new)>(rows: set<T>, rows': set<T>, f: T -> T)
    requires forall x :: f(f(x)) == x
    requires (forall x :: x in rows ==> f(x) in rows') && forall x :: x in rows' ==> f(x) in rows
    ensures rows' == Image(rows, f)
  {
    forall x | x in rows' ensures x in Image(rows, f) { assert f(f(x)) == x; }
  }

  lemma MirrorsWithin(a: seq<TopKEntry>, b: seq<TopKEntry>, measures: Measures)
    requires Slotted(a) && Slotted(b)
    ensures forall row :: row in HistogramRows(TrackedOf(a), b, measures) ==>
        MirrorHistogram(row) in HistogramRows(TrackedOf(b), a, measures)
  {
    var tracked := TrackedOf(a);
    hide TrackedOf, ParameterSlot, Slotted, HistogramRow, MirrorHistogram;
    forall row | row in HistogramRows(tracked, b, measures)
        ensures MirrorHistogram(row) in HistogramRows(TrackedOf(b), a, measures) {
      var e, c :| e in b && c in e.histograms && e.id in tracked
          && ParameterSlot(tracked[e.id].histograms, c.index).Some?
        && row == HistogramRow(e.id, ParameterSlot(tracked[e.id].histograms, c.index).value, c, measures);
      RowMirrored(a, b, e, c, measures);
    }
  }

  lemma {:induction false} OneEntry(entries: seq<TopKEntry>, e: TopKEntry, f: TopKEntry)
    requires NoDuplicates(MapSeq(entries, TopKId)) && e in entries && f in entries && e.id == f.id
    ensures e == f
  {
    var i :| 0 <= i < |entries| && entries[i] == e;
    var j :| 0 <= j < |entries| && entries[j] == f;
    var ids := MapSeq(entries, TopKId);
    assert ids[i] == ids[j];
    assert i == j;
  }

  lemma HistogramsComparable(a: seq<TopKEntry>, b: seq<TopKEntry>, measures: Measures)
    requires Slotted(b)
    ensures ComparableOn(HistogramOrder, HistogramRows(TrackedOf(a), b, measures))
    ensures Mirrors(HistogramOrder, HistogramRows(TrackedOf(a), b, measures), MirrorHistogram)
  {
    var rows := HistogramRows(TrackedOf(a), b, measures);
    forall x, y | x in rows && y in rows && x.id == y.id && x.index == y.index
        ensures x == y { OneRow(TrackedOf(a), b, measures, x, y); }
    hide HistogramRows, TrackedOf;
    forall x: HistogramDelta, y: HistogramDelta | MirrorHistogram(x) == MirrorHistogram(y) ensures x == y {
      assert MirrorHistogram(MirrorHistogram(x)) == x && MirrorHistogram(MirrorHistogram(y)) == y;
    }
  }

  lemma OneRow(tracked: map<TemplateId, TopKEntry>, b: seq<TopKEntry>, measures: Measures, x: HistogramDelta,
               y: HistogramDelta)
    requires Slotted(b) && x in HistogramRows(tracked, b, measures) && y in HistogramRows(tracked, b, measures)
        && x.id == y.id && x.index == y.index
    ensures x == y
  {
    hide ParameterSlot, HistogramJs;
    var e, c :| e in b && c in e.histograms && e.id in tracked && ParameterSlot(tracked[e.id].histograms, c.index).Some?
      && x == HistogramRow(e.id, ParameterSlot(tracked[e.id].histograms, c.index).value, c, measures);
    var f, g :| f in b && g in f.histograms && f.id in tracked && ParameterSlot(tracked[f.id].histograms, g.index).Some?
      && y == HistogramRow(f.id, ParameterSlot(tracked[f.id].histograms, g.index).value, g, measures);
    OneEntry(b, e, f);
    SlotFound(e.histograms, c);
    SlotFound(e.histograms, g);
  }

  lemma MirrorHistograms(d: MetaLogDiff, back: MetaLogDiff, a: Side, b: Side, measures: Measures)
    requires HistogramsCompared(d, a, b, measures) && HistogramsCompared(back, b, a, measures) && WellFormed(a)
        && WellFormed(b)
    ensures back.histograms == MapSeq(d.histograms, MirrorHistogram)
  {
    var before, after := a.document.stats.topK, b.document.stats.topK;
    assert Slotted(before) && Slotted(after);
    HistogramsRanked(d.histograms, before, after, measures);
    HistogramsRanked(back.histograms, after, before, measures);
    hide WellFormed, Slotted, HistogramRows, HistogramList, TrackedOf, IsRanked, ComparableOn, Mirrors, HistogramOrder,
        MirrorHistogram, Image;
    OrdersArePartial();
    HistogramRowsMirror(before, after, measures);
    HistogramsComparable(before, after, measures);
    MirroredRanking(HistogramOrder, d.histograms, HistogramRows(TrackedOf(before), after, measures), MirrorHistogram,
                    back.histograms, HistogramRows(TrackedOf(after), before, measures));
  }

  // ---------------------------------------------------------------- mirrored reservoir

  lemma SalientComparable(entries: seq<ReservoirEntry>, other: map<TemplateId, Memory>)
    requires NoDuplicates(MapSeq(entries, ReservoirId))
    ensures ComparableOn(SalientOrder, SalientOnlyIn(entries, other))
  {
    var ids := MapSeq(entries, ReservoirId);
    forall x, y | x in SalientOnlyIn(entries, other) && y in SalientOnlyIn(entries, other) && x.id == y.id
        ensures x == y {
      var e :| e in entries && e.id !in other && x == Snapshot(e);
      var f :| f in entries && f.id !in other && y == Snapshot(f);
      var i :| 0 <= i < |entries| && entries[i] == e;
      var j :| 0 <= j < |entries| && entries[j] == f;
      assert e.id == x.id && f.id == y.id;
      assert ids[i] == ids[j];
      assert i == j;
    }
  }

  lemma CrossingsMirror(prev: map<TemplateId, Memory>, cur: map<TemplateId, Memory>)
    ensures CrossingRows(cur, prev) == Image(CrossingRows(prev, cur), MirrorCrossing)
    ensures ComparableOn(CrossingOrder, CrossingRows(prev, cur))
        && Mirrors(CrossingOrder, CrossingRows(prev, cur), MirrorCrossing)
  {
    forall id | id in cur && id in prev && Crosses(prev[id], cur[id])
      ensures CrossingRow(id, cur[id], prev[id]) == MirrorCrossing(CrossingRow(id, prev[id], cur[id]))
      ensures CrossingRow(id, prev[id], cur[id]) in CrossingRows(prev, cur)
    {}
    assert forall row :: row in CrossingRows(prev, cur) ==>
        row.id in prev && row.id in cur && row == CrossingRow(row.id, prev[row.id], cur[row.id]);
    assert forall row :: row in CrossingRows(cur, prev) ==>
        row.id in prev && row.id in cur && row == CrossingRow(row.id, cur[row.id], prev[row.id]);
    hide CrossingRow, Crosses;
  }

  lemma MirrorReservoir(d: MetaLogDiff, back: MetaLogDiff, a: Side, b: Side)
    requires IsReservoir(d.reservoir, a, b) && IsReservoir(back.reservoir, b, a) && WellFormed(a) && WellFormed(b)
    ensures back.reservoir == ReservoirDelta(d.reservoir.vanished, d.reservoir.emerged,
                                             MapSeq(d.reservoir.crossings, MirrorCrossing))
  {
    var prev, cur := MemoryOf(a.document.stats), MemoryOf(b.document.stats);
    SalientRanked(d.reservoir.vanished, a.document.stats.reservoir, cur);
    SalientRanked(d.reservoir.emerged, b.document.stats.reservoir, prev);
    SalientRanked(back.reservoir.emerged, a.document.stats.reservoir, cur);
    SalientRanked(back.reservoir.vanished, b.document.stats.reservoir, prev);
    hide SalientOnlyIn, SalientList, CrossingRows, MemoryOf, IsRanked, ComparableOn, Mirrors, SalientOrder,
        CrossingOrder, MirrorCrossing, Image;
    OrdersArePartial();
    SalientComparable(a.document.stats.reservoir, cur);
    SalientComparable(b.document.stats.reservoir, prev);
    RankedUnique(SalientOrder, back.reservoir.emerged, d.reservoir.vanished,
                 SalientOnlyIn(a.document.stats.reservoir, cur));
    RankedUnique(SalientOrder, back.reservoir.vanished, d.reservoir.emerged,
                 SalientOnlyIn(b.document.stats.reservoir, prev));
    CrossingsMirror(prev, cur);
    MirroredRanking(CrossingOrder, d.reservoir.crossings, CrossingRows(prev, cur), MirrorCrossing,
                    back.reservoir.crossings, CrossingRows(cur, prev));
  }

  // ---------------------------------------------------------------- the whole mirror

  function MirrorCube(c: Option<CubeDiff.CubeDiff>): Option<CubeDiff.CubeDiff> {
    if c.None? then None
    else
        Some(CubeDiff.CubeDiff(c.value.axes, CubeDiff.SwappedBorder(c.value.vanishing),
                               CubeDiff.SwappedBorder(c.value.emerging)))
  }

  /** At the state both cubes are read at, no counted row lies in a component whose latency shifted. */
  ghost predicate CubesQuiet(a: Side, b: Side, schedule: Text)
    requires CubesCompose(a.document, b.document)
  {
    (a.document.cube.Some? && b.document.cube.Some?) ==>
      ShiftDuality.NoneShifted(a.document.cube.value, b.document.cube.value, ShiftsOf(a, b, schedule))
  }

  /** Borders trade places exactly then: a shift pins only the current side, whichever that is. */
  lemma MirroredCube(d: MetaLogDiff, back: MetaLogDiff, a: Side, b: Side, schedule: Text)
    requires CubesCompose(a.document, b.document) && CubesCompose(b.document, a.document)
    requires IsCube(d.cube, a, b, schedule) && IsCube(back.cube, b, a, schedule)
    ensures back.cube == MirrorCube(d.cube) <==> CubesQuiet(a, b, schedule)
  {
    hide Composable, CubeDiff.DiffBlocks, CubeDiff.SwappedBorder, DurationsOf, Latency.ShiftsBetween,
        ShiftDuality.NoneShifted;
    Latency.ShiftsTurn(DurationsOf(a, schedule), DurationsOf(b, schedule));
    if a.document.cube.Some? && b.document.cube.Some? {
      ShiftDuality.DiffDualExactly(a.document.cube.value, b.document.cube.value, ShiftsOf(a, b, schedule),
                                   ShiftsOf(b, a, schedule));
    }
  }

  lemma MirroredDivergences(d: MetaLogDiff, back: MetaLogDiff, a: Side, b: Side, fixed: Fixed)
    requires DivergencesCompared(d, a, b, fixed) && DivergencesCompared(back, b, a, fixed)
    ensures back.js == d.js && back.stability == d.stability
  {
    OrdersArePartial();
    hide DivergenceOf, CountedIn, IdOrder;
    JsIsSymmetric(IdOrder, CountedIn(b.document.stats.topK), b.document.lines, CountedIn(a.document.stats.topK),
                  a.document.lines, fixed);
  }

  /** Everything but the directed divergence, seen from the other side. */
  function Mirrored(d: MetaLogDiff, kl: Option<real>): MetaLogDiff {
    MetaLogDiff(kl, d.js, d.stability, MapSeq(d.templates, MirrorTemplate), d.vanished, d.emerged,
                MapSeq(d.branching, MirrorBranch),
                MirrorNGrams(d.ngrams), if d.mismatch.None? then None
                    else Some(OrderMismatch(d.mismatch.value.current, d.mismatch.value.previous)),
                MapSeq(d.histograms, MirrorHistogram), if d.tail.None? then None else Some(MirrorTail(d.tail.value)),
                ReservoirDelta(d.reservoir.vanished, d.reservoir.emerged,
                               MapSeq(d.reservoir.crossings, MirrorCrossing)), MirrorCube(d.cube))
  }

  /** No re-rated n-gram's id stands for different sequences on the two sides. */
  ghost predicate IdsAgree(a: Side, b: Side, idOf: IdOf) {
    a.document.behavior.Some? && b.document.behavior.Some?
        && a.document.behavior.value.ngramSize == b.document.behavior.value.ngramSize
    ==> SameSequences(RatedBy(Entries(a.document.behavior), idOf), RatedBy(Entries(b.document.behavior), idOf))
  }

  lemma MirroredBehaviors(d: MetaLogDiff, back: MetaLogDiff, a: Side, b: Side, idOf: IdOf)
    requires AreNGrams(d.ngrams, d.mismatch, a, b, idOf) && AreNGrams(back.ngrams, back.mismatch, b, a, idOf)
    ensures back.ngrams == MirrorNGrams(d.ngrams) <==> IdsAgree(a, b, idOf)
    ensures back.mismatch == if d.mismatch.None? then None
        else Some(OrderMismatch(d.mismatch.value.current, d.mismatch.value.previous))
  {
    RatedIsKeyed(Entries(a.document.behavior), idOf);
    RatedIsKeyed(Entries(b.document.behavior), idOf);
    hide NGramsAre, Keyed, SameSequences, RatedBy;
    if a.document.behavior.Some? && b.document.behavior.Some?
        && a.document.behavior.value.ngramSize == b.document.behavior.value.ngramSize {
      MirroredNGrams(d.ngrams, back.ngrams, a.document.behavior.value.ngramSize,
                     RatedBy(Entries(a.document.behavior), idOf), RatedBy(Entries(b.document.behavior), idOf), idOf);
    }
  }

  /** Comparing the other way round mirrors the whole comparison: appeared and vanished swap, every delta is
      negated in place, frontier crossings turn, and the symmetric divergence stays. It does so exactly when no
      re-rated n-gram id collided between the two documents and no counted row of their cubes lies in a component
      whose latency shifted. The shifts themselves always turn, each by as much the other way. */
  lemma DiffIsDual(d: MetaLogDiff, back: MetaLogDiff, a: Side, b: Side, measures: Measures)
    requires CubesCompose(a.document, b.document) && CubesCompose(b.document, a.document) && WellFormed(a)
        && WellFormed(b)
    requires IsDiff(d, a, b, measures) && IsDiff(back, b, a, measures)
    ensures back.(cube := None) == Mirrored(d, back.kl).(cube := None) <==> IdsAgree(a, b, measures.idOf)
    ensures back.cube == MirrorCube(d.cube) <==> CubesQuiet(a, b, measures.durations)
    ensures back == Mirrored(d, back.kl)
        <==> IdsAgree(a, b, measures.idOf) && CubesQuiet(a, b, measures.durations)
    ensures ShiftsOf(b, a, measures.durations).Keys == ShiftsOf(a, b, measures.durations).Keys
    ensures forall c :: c in ShiftsOf(a, b, measures.durations) ==> TurnedBack(a, b, measures.durations, c)
  {
    hide WellFormed, CubesCompose, DivergencesCompared, TemplatesCompared, IsBranching, AreNGrams, HistogramsCompared,
        IsReservoir,
         IsCube, CountedIn, IdsAgree, CubesQuiet, MirrorCube, MirrorNGrams, TailRow, MirrorTail,
        DurationsOf, Latency.ShiftsBetween;
    MirroredDivergences(d, back, a, b, measures.fixed);
    MirrorTemplates(d, back, CountedIn(a.document.stats.topK), CountedIn(b.document.stats.topK));
    MirrorBranching(d, back, a, b);
    MirroredBehaviors(d, back, a, b, measures.idOf);
    MirrorHistograms(d, back, a, b, measures);
    MirroredTail(a.document.stats.tailSummary, b.document.stats.tailSummary, measures.bits);
    MirrorReservoir(d, back, a, b);
    Latency.ShiftsTurn(DurationsOf(a, measures.durations), DurationsOf(b, measures.durations));
    MirroredCube(d, back, a, b, measures.durations);
  }

  /** A component's shift, seen from the other side. */
  ghost predicate TurnedBack(a: Side, b: Side, schedule: Text, c: Text) {
    && c in ShiftsOf(a, b, schedule) && c in ShiftsOf(b, a, schedule)
    && ShiftsOf(b, a, schedule)[c]
       == CubeDiff.Drift(ShiftsOf(a, b, schedule)[c].size, Latency.Turned(ShiftsOf(a, b, schedule)[c].direction))
  }

  /** A collision makes the mirror fail: one n-gram a side, different sequences under one id, differently rated. */
  lemma CollidingRatesDoNotMirror(s: seq<TemplateId>, t: seq<TemplateId>, p: real, q: real, n: nat, size: nat,
                                  there: Option<NGramDelta>,
                                  back: Option<NGramDelta>, idOf: IdOf)
    requires s != t && idOf(s) == idOf(t) && p != q
    requires NGramsAre(there, size, RatedBy([NGram(s, n, p)], idOf), RatedBy([NGram(t, n, q)], idOf))
    requires NGramsAre(back, size, RatedBy([NGram(t, n, q)], idOf), RatedBy([NGram(s, n, p)], idOf))
    ensures back != MirrorNGrams(there)
  {
    var prev, cur := [NGram(s, n, p)], [NGram(t, n, q)];
    assert prev[..0] == [] && cur[..0] == [];
    assert RatedBy(prev, idOf) == map[idOf(s) := RatedNGram(s, p)]
        && RatedBy(cur, idOf) == map[idOf(t) := RatedNGram(t, q)];
    RatedIsKeyed(prev, idOf);
    RatedIsKeyed(cur, idOf);
    var key, before, after := idOf(s), RatedBy(prev, idOf), RatedBy(cur, idOf);
    assert key in before && key in after;
    assert !SameSequences(before, after);
    hide NGramsAre, Keyed, SameSequences, RatedBy, MirrorNGrams;
    MirroredNGrams(there, back, size, RatedBy(prev, idOf), RatedBy(cur, idOf), idOf);
  }

  lemma MirroredTail(prev: Option<TailSummary>, cur: Option<TailSummary>, bits: Entropy -> real)
    ensures TailCompared(cur, prev, bits) == if TailCompared(prev, cur, bits).None? then None
        else Some(MirrorTail(TailCompared(prev, cur, bits).value))
  {}
}
