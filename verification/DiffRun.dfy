/** Running a comparison: gates first, then one pass per property, each list ranked as it is written. */
module DiffRun {
  import opened Options
  import opened Identifiers
  import opened Orders
  import opened Bytes
  import opened Histograms
  import opened ComposeStats
  import opened Behaviors
  import opened ComposeDocument
  import opened Divergences
  import opened Ranking
  import opened Diff
  import CubeDiff
  import Latency

  datatype DiffOutcome = Withheld(why: Refusal) | Compared(diff: MetaLogDiff)

  // ---------------------------------------------------------------- templates

  method CountTopK(entries: seq<TopKEntry>) returns (counts: map<TemplateId, nat>)
    ensures counts == CountedIn(entries)
  {
    counts := map[];
    for i := 0 to |entries|
      invariant counts == CountedIn(entries[..i])
    {
      assert entries[..i + 1][..i] == entries[..i];
      if entries[i].id !in counts {
        counts := counts[entries[i].id := entries[i].count];
      }
    }
    assert entries[..|entries|] == entries;
  }

  method DiffTemplateDeltas(prev: map<TemplateId, nat>, cur: map<TemplateId, nat>)
    returns (templates: seq<TemplateDelta>, emerged: seq<TemplateId>, vanished: seq<TemplateId>)
    ensures IsRanked(DeltaOrder, templates, TemplateRows(prev, cur))
    ensures IsRanked(IdOrder, emerged, OnlyIn(cur, prev)) && IsRanked(IdOrder, vanished, OnlyIn(prev, cur))
  {
    hide IsRanked, DeltaOrder, IdOrder;
    var rows: set<TemplateDelta>, added: set<TemplateId>, gone: set<TemplateId> := {}, {}, {};
    var left := prev.Keys + cur.Keys;
    while left != {}
      invariant left <= prev.Keys + cur.Keys
      invariant rows == set id | id in prev.Keys + cur.Keys - left :: TemplateRow(prev, cur, id)
      invariant added == set id | id in OnlyIn(cur, prev) && id !in left
      invariant gone == set id | id in OnlyIn(prev, cur) && id !in left
      decreases left
    {
      var id :| id in left;
      var prevCount, curCount := CountIn(prev, id), CountIn(cur, id);
      if prevCount == 0 && curCount > 0 {
        added := added + {id};
      } else if prevCount > 0 && curCount == 0 {
        gone := gone + {id};
      }
      rows := rows + {TemplateRow(prev, cur, id)};
      left := left - {id};
    }
    OrdersArePartial();
    assert added == OnlyIn(cur, prev) && gone == OnlyIn(prev, cur) && rows == TemplateRows(prev, cur);
    templates := Rank(DeltaOrder, rows);
    emerged := Rank(IdOrder, added);
    vanished := Rank(IdOrder, gone);
  }

  // ---------------------------------------------------------------- branching

  method BitsById(rows: seq<BranchingRow>) returns (bits: map<TemplateId, real>)
    ensures bits == BitsOf(rows)
  {
    bits := map[];
    for i := 0 to |rows|
      invariant bits == BitsOf(rows[..i])
    {
      assert rows[..i + 1][..i] == rows[..i];
      bits := bits[rows[i].id := rows[i].bits];
    }
    assert rows[..|rows|] == rows;
  }

  method DiffBranchingDelta(a: Side, b: Side) returns (branching: seq<BranchingDelta>)
    ensures IsBranching(branching, a, b)
  {
    if !Branches(a) || !Branches(b) {
      return [];
    }
    var prev := BitsById(a.branching.value);
    var rows, moved := BranchingRows(prev, b.branching.value);
    OrdersArePartial();
    hide BranchRows, BranchOrder, BranchList;
    if !moved {
      return [];
    }
    branching := Sort(BranchOrder, rows);
  }

  method BranchingRows(prev: map<TemplateId, real>, list: seq<BranchingRow>)
      returns (rows: seq<BranchingDelta>, moved: bool)
    ensures rows == BranchList(prev, list) && moved == AnyMoved(BranchRows(prev, list))
  {
    rows, moved := [], false;
    for i := 0 to |list|
      invariant rows == BranchList(prev, list[..i]) && moved == AnyMoved(BranchRows(prev, list[..i]))
    {
      var row := list[i];
      assert list[..i + 1][..i] == list[..i];
      BranchRowsSnoc(prev, list[..i], row);
      assert list[..i] + [row] == list[..i + 1];
      if row.id !in prev {
        continue;
      }
      var delta := BranchingDelta(row.id, prev[row.id], row.bits, row.bits - prev[row.id]);
      assert delta == BranchRow(prev, row);
      rows := rows + [delta];
      moved := moved || delta.delta != 0.0;
    }
    assert list[..|list|] == list;
  }

  // ---------------------------------------------------------------- n-grams

  method RateById(entries: seq<NGram>, idOf: IdOf) returns (byId: map<NGramId, RatedNGram>)
    ensures byId == RatedBy(entries, idOf)
  {
    byId := map[];
    for i := 0 to |entries|
      invariant byId == RatedBy(entries[..i], idOf)
    {
      assert entries[..i + 1][..i] == entries[..i];
      byId := byId[idOf(entries[i].sequence) := RatedNGram(entries[i].sequence, entries[i].probability)];
    }
    assert entries[..|entries|] == entries;
  }

  method SequencesOf(rated: map<NGramId, RatedNGram>, other: map<NGramId, RatedNGram>)
      returns (sequences: set<seq<TemplateId>>)
    ensures sequences == SequencesOnlyIn(rated, other)
  {
    sequences := {};
    var left := rated.Keys;
    while left != {}
      invariant left <= rated.Keys && sequences == set id | id in rated && id !in left
          && id !in other :: rated[id].sequence
      decreases left
    {
      var id :| id in left;
      if id !in other {
        sequences := sequences + {rated[id].sequence};
      }
      left := left - {id};
    }
  }

  method RatesOf(prev: map<NGramId, RatedNGram>, cur: map<NGramId, RatedNGram>) returns (rows: set<RateChange>)
    ensures rows == RateRows(prev, cur)
  {
    rows := {};
    var left := cur.Keys;
    while left != {}
      invariant left <= cur.Keys
      invariant rows == set id | id in cur && id !in left && id in prev
          && cur[id].probability != prev[id].probability :: RateRow(prev[id], cur[id])
      decreases left
    {
      var id :| id in left;
      if id in prev {
        var delta := cur[id].probability - prev[id].probability;
        if Distance(delta) > 0.0 {
          rows := rows + {RateChange(cur[id].sequence, prev[id].probability, cur[id].probability, delta)};
        }
      }
      left := left - {id};
    }
  }

  method DiffNgrams(size: nat, prev: map<NGramId, RatedNGram>, cur: map<NGramId, RatedNGram>)
      returns (ngrams: Option<NGramDelta>)
    ensures NGramsAre(ngrams, size, prev, cur)
  {
    hide IsRanked, SequencesOnlyIn, RateRows, RateOrder, SequenceOrder;
    var added := SequencesOf(cur, prev);
    var gone := SequencesOf(prev, cur);
    var rows := RatesOf(prev, cur);
    if added == {} && gone == {} && rows == {} {
      return None;
    }
    SequenceOrdersArePartial();
    var emerged := Rank(SequenceOrder, added);
    var vanished := Rank(SequenceOrder, gone);
    var changed := Rank(RateOrder, rows);
    return Some(NGramDelta(size, emerged, vanished, changed));
  }

  method DiffNgramDelta(a: Side, b: Side, idOf: IdOf)
      returns (ngrams: Option<NGramDelta>, mismatch: Option<OrderMismatch>)
    ensures AreNGrams(ngrams, mismatch, a, b, idOf)
  {
    ngrams, mismatch := None, None;
    if a.document.behavior.None? || b.document.behavior.None? {
      return;
    }
    var prevSize, curSize := a.document.behavior.value.ngramSize, b.document.behavior.value.ngramSize;
    if prevSize != curSize {
      mismatch := Some(OrderMismatch(prevSize, curSize));
      return;
    }
    var prev := RateById(a.document.behavior.value.topNgrams, idOf);
    var cur := RateById(b.document.behavior.value.topNgrams, idOf);
    ngrams := DiffNgrams(curSize, prev, cur);
  }

  // ---------------------------------------------------------------- field histograms

  method TrackById(entries: seq<TopKEntry>) returns (tracked: map<TemplateId, TopKEntry>)
    ensures tracked == TrackedOf(entries)
  {
    tracked := map[];
    for i := 0 to |entries|
      invariant tracked == TrackedOf(entries[..i])
    {
      assert entries[..i + 1][..i] == entries[..i];
      if entries[i].histograms != [] {
        tracked := tracked[entries[i].id := entries[i]];
      }
    }
    assert entries[..|entries|] == entries;
  }

  method DiffSlots(prev: TopKEntry, id: TemplateId, slots: seq<FieldHistogram>, measures: Measures)
      returns (rows: seq<HistogramDelta>)
    ensures rows == SlotList(prev, id, slots, measures)
  {
    hide ParameterSlot, HistogramRow;
    rows := [];
    for i := 0 to |slots|
      invariant rows == SlotList(prev, id, slots[..i], measures)
    {
      assert slots[..i + 1][..i] == slots[..i];
      var found := FindParameter(prev.histograms, slots[i].index);
      if found.None? {
        continue;
      }
      var row := DiffSlot(id, found.value, slots[i], measures);
      rows := rows + [row];
    }
    assert slots[..|slots|] == slots;
  }

  method FindParameter(histograms: seq<FieldHistogram>, index: nat) returns (found: Option<FieldHistogram>)
    ensures found == ParameterSlot(histograms, index)
  {
    for i := 0 to |histograms|
      invariant ParameterSlot(histograms, index) == ParameterSlot(histograms[i..], index)
    {
      if histograms[i].index == index {
        return Some(histograms[i]);
      }
    }
    return None;
  }

  method DiffSlot(id: TemplateId, p: FieldHistogram, c: FieldHistogram, measures: Measures)
      returns (row: HistogramDelta)
    ensures row == HistogramRow(id, p, c, measures)
  {
    TextOrderIsTotal();
    hide DivergenceOf, TextOrder;
    var r := ComputeDivergence(TextOrder, p.values, p.total, c.values, c.total, measures.fixed);
    row := HistogramDelta(id, c.index, measures.bits(p.entropy), measures.bits(c.entropy), r.js, p.total, c.total,
                          p.cardinality, c.cardinality,
                          c.cardinality - p.cardinality);
  }

  method HistogramRowsOf(prev: map<TemplateId, TopKEntry>, entries: seq<TopKEntry>, measures: Measures)
      returns (rows: seq<HistogramDelta>)
    ensures rows == HistogramList(prev, entries, measures)
  {
    hide SlotList;
    rows := [];
    for i := 0 to |entries|
      invariant rows == HistogramList(prev, entries[..i], measures)
    {
      var e := entries[i];
      assert entries[..i + 1][..i] == entries[..i];
      if e.histograms == [] || e.id !in prev {
        if e.id in prev { NoSlots(prev[e.id], e.id, measures); }
        continue;
      }
      var own := DiffSlots(prev[e.id], e.id, e.histograms, measures);
      rows := rows + own;
    }
    assert entries[..|entries|] == entries;
  }

  lemma NoSlots(prev: TopKEntry, id: TemplateId, measures: Measures)
    ensures SlotList(prev, id, [], measures) == []
  {}

  // ---------------------------------------------------------------- reservoir

  method Remember(s: Stats) returns (memory: map<TemplateId, Memory>)
    ensures memory == MemoryOf(s)
  {
    memory := map[];
    for i := 0 to |s.topK|
      invariant memory == AddTopK(map[], s.topK[..i])
    {
      assert s.topK[..i + 1][..i] == s.topK[..i];
      if s.topK[i].id !in memory {
        memory := memory[s.topK[i].id := Memory(s.topK[i].level, s.topK[i].count)];
      }
    }
    assert s.topK[..|s.topK|] == s.topK;
    ghost var start := memory;
    for i := 0 to |s.reservoir|
      invariant memory == AddReservoir(start, s.reservoir[..i])
    {
      assert s.reservoir[..i + 1][..i] == s.reservoir[..i];
      if s.reservoir[i].id !in memory {
        memory := memory[s.reservoir[i].id := Memory(s.reservoir[i].level, s.reservoir[i].count)];
      }
    }
    assert s.reservoir[..|s.reservoir|] == s.reservoir;
  }

  method SalientOf(entries: seq<ReservoirEntry>, other: map<TemplateId, Memory>) returns (rows: seq<Salient>)
    ensures rows == SalientList(entries, other)
  {
    rows := [];
    for i := 0 to |entries|
      invariant rows == SalientList(entries[..i], other)
    {
      var e := entries[i];
      assert entries[..i + 1][..i] == entries[..i];
      if e.id !in other {
        rows := rows + [Snapshot(e)];
      }
    }
    assert entries[..|entries|] == entries;
  }

  method CrossingsOf(prev: map<TemplateId, Memory>, cur: map<TemplateId, Memory>) returns (rows: set<Crossing>)
    ensures rows == CrossingRows(prev, cur)
  {
    rows := {};
    var left := cur.Keys;
    while left != {}
      invariant left <= cur.Keys
      invariant rows == set id | id in cur && id !in left && id in prev
          && Crosses(prev[id], cur[id]) :: CrossingRow(id, prev[id], cur[id])
      decreases left
    {
      var id :| id in left;
      if id in prev && Crosses(prev[id], cur[id]) {
        rows := rows + {CrossingRow(id, prev[id], cur[id])};
      }
      left := left - {id};
    }
  }

  method DiffReservoirDelta(a: Side, b: Side) returns (reservoir: ReservoirDelta)
    ensures IsReservoir(reservoir, a, b)
  {
    hide IsRanked, SalientList, CrossingRows, MemoryOf, SalientOrder, CrossingOrder;
    var prev := Remember(a.document.stats);
    var cur := Remember(b.document.stats);
    var added := SalientOf(b.document.stats.reservoir, prev);
    var gone := SalientOf(a.document.stats.reservoir, cur);
    var rows := CrossingsOf(prev, cur);
    OrdersArePartial();
    var emerged := Sort(SalientOrder, added);
    var vanished := Sort(SalientOrder, gone);
    var crossings := Rank(CrossingOrder, rows);
    return ReservoirDelta(emerged, vanished, crossings);
  }

  // ---------------------------------------------------------------- the whole comparison

  method DiffHistograms(a: Side, b: Side, measures: Measures) returns (histograms: seq<HistogramDelta>)
    ensures IsSorting(HistogramOrder, histograms,
                      HistogramList(TrackedOf(a.document.stats.topK), b.document.stats.topK, measures))
  {
    hide HistogramList, HistogramOrder;
    var tracked := TrackById(a.document.stats.topK);
    var rows := HistogramRowsOf(tracked, b.document.stats.topK, measures);
    OrdersArePartial();
    histograms := Sort(HistogramOrder, rows);
  }

  method DiffDivergences(prev: map<TemplateId, nat>, prevLines: nat, cur: map<TemplateId, nat>, curLines: nat,
                         fixed: Fixed)
    returns (kl: Option<real>, js: Option<real>, stability: Option<real>)
    ensures AreDivergences(kl, js, stability, prev, prevLines, cur, curLines, fixed)
  {
    OrdersArePartial();
    hide DivergenceOf, IdOrder;
    var r := ComputeDivergence(IdOrder, cur, curLines, prev, prevLines, fixed);
    kl, js, stability := None, None, None;
    if curLines > 0 && prevLines > 0 {
      kl, js, stability := Some(r.kl), Some(r.js), Some(Clamped(1.0 - r.js));
    }
  }

  /** A pair that shares its processing contracts is compared; any other is refused for the first contract it does not
      share. */
  method DiffDocuments(a: Side, b: Side, measures: Measures) returns (outcome: DiffOutcome)
    requires CubesCompose(a.document, b.document)
    ensures match ContractGate(a.document, b.document)
            case Some(why) => outcome == Withheld(why)
            case None => outcome.Compared? && IsDiff(outcome.diff, a, b, measures)
  {
    hide *;
    var gate := ContractGate(a.document, b.document);
    if gate.Some? {
      return Withheld(gate.value);
    }
    var prev := CountTopK(a.document.stats.topK);
    var cur := CountTopK(b.document.stats.topK);
    var kl, js, stability := DiffDivergences(prev, a.document.lines, cur, b.document.lines, measures.fixed);
    var templates, emerged, vanished := DiffTemplateDeltas(prev, cur);
    var branching := DiffBranchingDelta(a, b);
    var ngrams, mismatch := DiffNgramDelta(a, b, measures.idOf);
    var histograms := DiffHistograms(a, b, measures);
    var tail := TailCompared(a.document.stats.tailSummary, b.document.stats.tailSummary, measures.bits);
    var reservoir := DiffReservoirDelta(a, b);
    var cube := DiffCubes(a, b, measures.durations);
    var d := MetaLogDiff(kl, js, stability, templates, emerged, vanished, branching, ngrams, mismatch, histograms,
                         tail, reservoir, cube);
    AreCompared(d, a, b, measures);
    DiffIs(d, a, b, measures);
    return Compared(d);
  }

  lemma AreCompared(d: MetaLogDiff, a: Side, b: Side, measures: Measures)
    requires IsSorting(HistogramOrder, d.histograms,
                       HistogramList(TrackedOf(a.document.stats.topK), b.document.stats.topK, measures))
    ensures HistogramsCompared(d, a, b, measures)
  {}

  method DiffCubes(a: Side, b: Side, schedule: Text) returns (cube: Option<CubeDiff.CubeDiff>)
    requires CubesCompose(a.document, b.document)
    ensures IsCube(cube, a, b, schedule)
  {
    hide CubeDiff.DiffBlocks, Latency.DurationsIn, Latency.ShiftsBetween;
    if a.document.cube.None? || b.document.cube.None? {
      return None;
    }
    var prev := Latency.AggregateDurationByComponent(a.document.stats.topK, a.ordinals, schedule);
    var cur := Latency.AggregateDurationByComponent(b.document.stats.topK, b.ordinals, schedule);
    var shifts := Latency.ComponentLatencyShifts(prev, cur);
    var diff := CubeDiff.CubeDiffOf(a.document.cube.value, b.document.cube.value, shifts);
    return Some(diff);
  }
}
