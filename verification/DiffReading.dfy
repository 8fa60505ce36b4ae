/** What the rows of a comparison say: every delta is the current value less the previous one, and each list stands in
    the order of how far its rows moved. */
module DiffReading {
  import opened Options
  import opened Identifiers
  import opened Orders
  import opened Bytes
  import opened ComposeLabels
  import opened Histograms
  import opened ComposeStats
  import opened Behaviors
  import opened ComposeDocument
  import opened Divergences
  import opened Ranking
  import opened Diff
  import opened Outcome

  /** How far a row moved, either way. */
  function Far(x: int): nat { if x < 0 then -x else x }

  function FarReal(x: real): real { if x < 0.0 then -x else x }

  // ---------------------------------------------------------------- templates

  ghost predicate HasRow(rows: seq<TemplateDelta>, id: TemplateId) { exists i :: 0 <= i < |rows| && rows[i].id == id }

  ghost predicate Names(entries: seq<TopKEntry>, id: TemplateId) { exists e :: e in entries && e.id == id }

  /** One row for every template either side lists: its count on each side and the difference, the greatest difference
      first and the smaller id first among equals; a template is new when only the current side counts it, vanished
      when only the previous one does. */
  lemma TemplateRowsRead(d: MetaLogDiff, a: seq<TopKEntry>, b: seq<TopKEntry>)
    requires TemplatesCompared(d, CountedIn(a), CountedIn(b))
    ensures forall i :: 0 <= i < |d.templates| ==>
              var row := d.templates[i];
              row.previous == FirstCount(a, row.id) && row.current == FirstCount(b, row.id)
              && row.delta == row.current - row.previous
    ensures forall id :: HasRow(d.templates, id) <==> Names(a, id) || Names(b, id)
    ensures forall i, j :: 0 <= i < j < |d.templates| ==>
              var x, y := d.templates[i], d.templates[j];
              Far(x.delta) > Far(y.delta) || (Far(x.delta) == Far(y.delta) && x.id < y.id)
    ensures forall id :: id in d.emerged <==> FirstCount(b, id) > 0 && FirstCount(a, id) == 0
    ensures forall id :: id in d.vanished <==> FirstCount(a, id) > 0 && FirstCount(b, id) == 0
    ensures forall i, j :: 0 <= i < j < |d.emerged| ==> d.emerged[i] < d.emerged[j]
    ensures forall i, j :: 0 <= i < j < |d.vanished| ==> d.vanished[i] < d.vanished[j]
  {
    var prev, cur := CountedIn(a), CountedIn(b);
    hide TemplatesCompared;
    forall i | 0 <= i < |d.templates|
      ensures var row := d.templates[i];
              row.previous == FirstCount(a, row.id) && row.current == FirstCount(b, row.id)
              && row.delta == row.current - row.previous
    {
      TemplateRowAt(d, a, b, i);
    }
    forall id ensures HasRow(d.templates, id) <==> Names(a, id) || Names(b, id) {
      TemplateListed(d, a, b, id);
    }
    forall i, j | 0 <= i < j < |d.templates|
      ensures var x, y := d.templates[i], d.templates[j];
              Far(x.delta) > Far(y.delta) || (Far(x.delta) == Far(y.delta) && x.id < y.id)
    {
      TemplatesInOrder(d, prev, cur, i, j);
    }
    forall id ensures id in d.emerged <==> FirstCount(b, id) > 0 && FirstCount(a, id) == 0 {
      TemplateIn(d, a, b, id);
    }
    forall id ensures id in d.vanished <==> FirstCount(a, id) > 0 && FirstCount(b, id) == 0 {
      TemplateIn(d, a, b, id);
    }
    forall i, j | 0 <= i < j < |d.emerged| ensures d.emerged[i] < d.emerged[j] {
      IdsInOrder(d.emerged, OnlyInOf(d, prev, cur).0, i, j);
    }
    forall i, j | 0 <= i < j < |d.vanished| ensures d.vanished[i] < d.vanished[j] {
      IdsInOrder(d.vanished, OnlyInOf(d, prev, cur).1, i, j);
    }
  }

  ghost function OnlyInOf(d: MetaLogDiff, prev: map<TemplateId, nat>, cur: map<TemplateId, nat>):
      (r: (set<TemplateId>, set<TemplateId>))
    requires TemplatesCompared(d, prev, cur)
    ensures IsRanked(IdOrder, d.emerged, r.0) && IsRanked(IdOrder, d.vanished, r.1)
  {
    (OnlyIn(cur, prev), OnlyIn(prev, cur))
  }

  lemma IdsInOrder(ids: seq<TemplateId>, listed: set<TemplateId>, i: nat, j: nat)
    requires IsRanked(IdOrder, ids, listed) && i < j < |ids|
    ensures ids[i] < ids[j]
  {
    assert !IdOrder(ids[j], ids[i]) && ids[i] != ids[j];
  }

  lemma TemplateRowAt(d: MetaLogDiff, a: seq<TopKEntry>, b: seq<TopKEntry>, i: nat)
    requires TemplatesCompared(d, CountedIn(a), CountedIn(b)) && i < |d.templates|
    ensures var row := d.templates[i];
            row.previous == FirstCount(a, row.id) && row.current == FirstCount(b, row.id)
            && row.delta == row.current - row.previous
  {
    hide CountedIn, FirstCount, Sorted;
    assert d.templates[i] in Elements(d.templates);
    CountedFirst(a, d.templates[i].id);
    CountedFirst(b, d.templates[i].id);
  }

  lemma TemplateListed(d: MetaLogDiff, a: seq<TopKEntry>, b: seq<TopKEntry>, id: TemplateId)
    requires TemplatesCompared(d, CountedIn(a), CountedIn(b))
    ensures HasRow(d.templates, id) <==> Names(a, id) || Names(b, id)
  {
    var prev, cur := CountedIn(a), CountedIn(b);
    CountedFirst(a, id);
    CountedFirst(b, id);
    hide CountedIn, FirstCount, Sorted;
    if i :| 0 <= i < |d.templates| && d.templates[i].id == id {
      assert d.templates[i] in Elements(d.templates);
      assert id in prev || id in cur;
    }
    if id in prev || id in cur {
      assert TemplateRow(prev, cur, id) in Elements(d.templates);
      var i :| 0 <= i < |d.templates| && d.templates[i] == TemplateRow(prev, cur, id);
    }
  }

  lemma TemplatesInOrder(d: MetaLogDiff, prev: map<TemplateId, nat>, cur: map<TemplateId, nat>, i: nat, j: nat)
    requires TemplatesCompared(d, prev, cur) && i < j < |d.templates|
    ensures var x, y := d.templates[i], d.templates[j];
            Far(x.delta) > Far(y.delta) || (Far(x.delta) == Far(y.delta) && x.id < y.id)
  {
    var x, y := d.templates[i], d.templates[j];
    assert x in Elements(d.templates) && y in Elements(d.templates);
    assert !DeltaOrder(y, x) && x != y;
    assert x.id == y.id ==> x == y;
  }

  lemma TemplateIn(d: MetaLogDiff, a: seq<TopKEntry>, b: seq<TopKEntry>, id: TemplateId)
    requires TemplatesCompared(d, CountedIn(a), CountedIn(b))
    ensures id in d.emerged <==> FirstCount(b, id) > 0 && FirstCount(a, id) == 0
    ensures id in d.vanished <==> FirstCount(a, id) > 0 && FirstCount(b, id) == 0
  {
    CountedFirst(a, id);
    CountedFirst(b, id);
    hide CountedIn, FirstCount, Sorted;
    assert id in d.emerged <==> id in Elements(d.emerged);
    assert id in d.vanished <==> id in Elements(d.vanished);
  }

  // ---------------------------------------------------------------- the other lists

  /** Branching rows carry both entropies and their difference, the rows that moved furthest first. */
  lemma BranchingRowsRead(branching: seq<BranchingDelta>, a: Side, b: Side, i: nat, j: nat)
    requires IsBranching(branching, a, b) && i < j < |branching|
    ensures var x, y := branching[i], branching[j];
            && x.delta == x.current - x.previous && y.delta == y.current - y.previous
            && (FarReal(x.delta) > FarReal(y.delta) || (FarReal(x.delta) == FarReal(y.delta) && x.id <= y.id))
  {
    var bits, rows := BitsOf(a.branching.value), b.branching.value;
    var list := BranchList(bits, rows);
    hide BitsOf, BranchList;
    assert !BranchOrder(branching[j], branching[i]);
    SortingIsRanked(BranchOrder, branching, list);
    assert branching[i] in Elements(branching) && branching[j] in Elements(branching);
    BranchDelta(bits, rows, branching[i]);
    BranchDelta(bits, rows, branching[j]);
  }

  lemma {:induction false} BranchDelta(prev: map<TemplateId, real>, rows: seq<BranchingRow>, row: BranchingDelta)
    requires row in BranchList(prev, rows)
    ensures row.delta == row.current - row.previous && row.id in prev && row.previous == prev[row.id]
    ensures exists x :: x in rows && x.id == row.id && x.bits == row.current
  {
    var front, last := rows[..|rows| - 1], rows[|rows| - 1];
    assert last in rows && forall x :: x in front ==> x in rows;
    if row in BranchList(prev, front) { BranchDelta(prev, front, row); }
  }

  /** Re-rated n-grams carry both probabilities and their difference, the furthest moved first and then the smaller
      sequence; new and vanished ones stand in the order of their sequences. */
  lemma RatesRead(n: NGramDelta, prev: map<NGramId, RatedNGram>, cur: map<NGramId, RatedNGram>, i: nat, j: nat)
    requires NGramsAre(Some(n), n.size, prev, cur)
    ensures forall s :: s in n.emerged <==> exists id :: id in cur && id !in prev && cur[id].sequence == s
    ensures forall s :: s in n.vanished <==> exists id :: id in prev && id !in cur && prev[id].sequence == s
    ensures i < j < |n.emerged| ==> !SequenceLess(n.emerged[j], n.emerged[i])
    ensures i < j < |n.vanished| ==> !SequenceLess(n.vanished[j], n.vanished[i])
    ensures i < j < |n.changed| ==>
              var x, y := n.changed[i], n.changed[j];
              FarReal(x.delta) > FarReal(y.delta)
              || (FarReal(x.delta) == FarReal(y.delta) && !SequenceLess(y.sequence, x.sequence))
    ensures i < |n.changed| ==>
              var x := n.changed[i];
              x.delta == x.current - x.previous != 0.0
              && exists id :: id in cur && id in prev && cur[id] == RatedNGram(x.sequence, x.current)
                           && prev[id].probability == x.previous
  {
    hide SequenceLess;
    assert forall s :: s in n.emerged <==> s in Elements(n.emerged);
    assert forall s :: s in n.vanished <==> s in Elements(n.vanished);
    if i < j < |n.emerged| { assert !SequenceOrder(n.emerged[j], n.emerged[i]); }
    if i < j < |n.vanished| { assert !SequenceOrder(n.vanished[j], n.vanished[i]); }
    if i < j < |n.changed| { assert !RateOrder(n.changed[j], n.changed[i]); }
    if i < |n.changed| { assert n.changed[i] in Elements(n.changed); }
  }

  /** Histogram rows stand in the order of their divergence, then of template and parameter. */
  lemma HistogramsInOrder(d: MetaLogDiff, a: Side, b: Side, measures: Measures, i: nat, j: nat)
    requires HistogramsCompared(d, a, b, measures) && i < j < |d.histograms|
    ensures var x, y := d.histograms[i], d.histograms[j];
            x.js > y.js || (x.js == y.js && (x.id < y.id || (x.id == y.id && x.index <= y.index)))
  {
    hide HistogramList;
    assert !HistogramOrder(d.histograms[j], d.histograms[i]);
  }

  /** A paired slot's row: both entropies, both totals, both cardinalities and their difference, and how far apart the
      two are. */
  lemma HistogramRowReads(id: TemplateId, x: FieldHistogram, y: FieldHistogram, measures: Measures)
    ensures var row := HistogramRow(id, x, y, measures);
            && row.id == id && row.index == y.index && row.js == HistogramJs(x, y, measures.fixed)
            && row.previousBits == measures.bits(x.entropy) && row.currentBits == measures.bits(y.entropy)
            && row.previousTotal == x.total && row.currentTotal == y.total
            && row.previousCardinality == x.cardinality && row.currentCardinality == y.cardinality
            && row.cardinalityDelta == y.cardinality - x.cardinality
  {
    hide HistogramJs;
  }

  /** A crossing is of a template both sides remember, into failure when only the current level fails and out of it when
      only the previous one does; emerged and vanished are the salient templates the other side does not remember; all
      three stand by id. */
  lemma ReservoirRead(r: ReservoirDelta, a: Side, b: Side, i: nat, j: nat)
    requires IsReservoir(r, a, b)
    ensures i < |r.crossings| ==>
              var x := r.crossings[i];
              var was, now := RememberedLevel(a.document.stats, x.id), RememberedLevel(b.document.stats, x.id);
              && was == Some(x.previousLevel) && now == Some(x.currentLevel)
              && (x.direction == IntoFailure <==> !Fails(x.previousLevel) && Fails(x.currentLevel))
              && (x.direction == OutOfFailure <==> Fails(x.previousLevel) && !Fails(x.currentLevel))
    ensures i < j < |r.crossings| ==> r.crossings[i].id < r.crossings[j].id
    ensures i < j < |r.emerged| ==> r.emerged[i].id <= r.emerged[j].id
    ensures i < j < |r.vanished| ==> r.vanished[i].id <= r.vanished[j].id
  {
    var prev, cur := MemoryOf(a.document.stats), MemoryOf(b.document.stats);
    if i < |r.crossings| {
      MemoryHolds(a.document.stats, r.crossings[i].id);
      MemoryHolds(b.document.stats, r.crossings[i].id);
    }
    hide MemoryOf, RememberedLevel, SalientList;
    if i < |r.crossings| { assert r.crossings[i] in Elements(r.crossings); }
    if i < j < |r.crossings| {
      assert !CrossingOrder(r.crossings[j], r.crossings[i]) && r.crossings[i] != r.crossings[j];
      assert r.crossings[i] in Elements(r.crossings) && r.crossings[j] in Elements(r.crossings);
    }
    if i < j < |r.emerged| { assert !SalientOrder(r.emerged[j], r.emerged[i]); }
    if i < j < |r.vanished| { assert !SalientOrder(r.vanished[j], r.vanished[i]); }
  }

  lemma {:induction false} SalientAre(entries: seq<ReservoirEntry>, other: map<TemplateId, Memory>, x: Salient)
    ensures x in SalientList(entries, other)
       <==> exists e :: e in entries && e.id !in other
                     && x == Salient(e.id, e.level, e.role, e.salience, e.count, e.axis)
  {
    if entries != [] {
      var front, last := entries[..|entries| - 1], entries[|entries| - 1];
      assert forall e :: e in entries <==> e in front || e == last;
      SalientAre(front, other, x);
    }
  }

  /** Emerged and vanished are exactly the salient templates one side shows and the other does not remember. */
  lemma SalientRead(r: ReservoirDelta, a: Side, b: Side, x: Salient)
    requires IsReservoir(r, a, b)
    ensures x in r.emerged
       <==> exists e :: e in b.document.stats.reservoir && RememberedLevel(a.document.stats, e.id).None?
                     && x == Salient(e.id, e.level, e.role, e.salience, e.count, e.axis)
    ensures x in r.vanished
       <==> exists e :: e in a.document.stats.reservoir && RememberedLevel(b.document.stats, e.id).None?
                     && x == Salient(e.id, e.level, e.role, e.salience, e.count, e.axis)
  {
    var prev, cur := MemoryOf(a.document.stats), MemoryOf(b.document.stats);
    SalientAre(b.document.stats.reservoir, prev, x);
    SalientAre(a.document.stats.reservoir, cur, x);
    MemoryHolds(a.document.stats, x.id);
    MemoryHolds(b.document.stats, x.id);
    SortingIsRanked(SalientOrder, r.emerged, SalientList(b.document.stats.reservoir, prev));
    SortingIsRanked(SalientOrder, r.vanished, SalientList(a.document.stats.reservoir, cur));
    hide MemoryOf, RememberedLevel, SalientList, IsSorting;
    assert x in r.emerged <==> x in Elements(r.emerged);
    assert x in r.vanished <==> x in Elements(r.vanished);
  }

  /** Tail rows carry both sides and the differences; the rate is the loudest template's part of the lines. */
  lemma TailRowReads(d: MetaLogDiff, a: Side, b: Side, measures: Measures)
    requires CubesCompose(a.document, b.document) && IsDiff(d, a, b, measures) && d.tail.Some?
    ensures a.document.stats.tailSummary.Some? && b.document.stats.tailSummary.Some?
    ensures var x, y, t := a.document.stats.tailSummary.value, b.document.stats.tailSummary.value, d.tail.value;
            && t.previousTemplates == x.templates && t.currentTemplates == y.templates
            && t.templatesDelta == y.templates - x.templates
            && t.previousBits == measures.bits(x.entropy) && t.currentBits == measures.bits(y.entropy)
            && t.bitsDelta == t.currentBits - t.previousBits && t.rateDelta == t.currentRate - t.previousRate
            && (x.lines > 0 ==> t.previousRate == x.maxCount as real / x.lines as real)
            && (y.lines > 0 ==> t.currentRate == y.maxCount as real / y.lines as real)
  {
    hide DivergencesCompared, TemplatesCompared, IsBranching, AreNGrams, HistogramsCompared, IsReservoir, IsCube,
         CubesCompose;
  }
}
