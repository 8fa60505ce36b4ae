/** Comparing two documents: what appeared, what vanished, what moved, and by how much. */
module Diff {
  import opened Options
  import opened Identifiers
  import opened Orders
  import opened Sums
  import opened Bytes
  import opened Blocks
  import opened ComposeLabels
  import opened Histograms
  import opened ComposeStats
  import opened Behaviors
  import opened Composition
  import opened ComposeDocument
  import opened SalienceScores
  import opened Divergences
  import opened Ranking
  import CubeDiff
  import Latency
  import Border

  datatype BranchingRow = BranchingRow(id: TemplateId, bits: real)

  datatype RatedNGram = RatedNGram(sequence: seq<TemplateId>, probability: real)

  /** A document with what comparing reads beside it: its branching rows and the ordinal histograms of its top_k
      entries, place by place. */
  datatype Side = Side(document: Document, branching: Option<seq<BranchingRow>>,
                       ordinals: seq<seq<Latency.OrdinalHistogram>>)

  /** What comparing leaves to others: the fixed-point logarithm, the value of an entropy, n-gram ids, and the
      id of the duration schedule. */
  datatype Measures = Measures(fixed: Fixed, bits: Entropy -> real, idOf: IdOf, durations: Text)

  datatype TemplateDelta = TemplateDelta(id: TemplateId, previous: nat, current: nat, delta: int)

  datatype BranchingDelta = BranchingDelta(id: TemplateId, previous: real, current: real, delta: real)

  datatype RateChange = RateChange(sequence: seq<TemplateId>, previous: real, current: real, delta: real)

  datatype NGramDelta = NGramDelta(size: nat, emerged: seq<seq<TemplateId>>, vanished: seq<seq<TemplateId>>,
                                   changed: seq<RateChange>)

  datatype OrderMismatch = OrderMismatch(previous: nat, current: nat)

  datatype HistogramDelta = HistogramDelta(id: TemplateId, index: nat, previousBits: real, currentBits: real,
                                           js: real, previousTotal: nat,
                                           currentTotal: nat, previousCardinality: nat, currentCardinality: nat,
                                               cardinalityDelta: int)

  datatype TailDelta = TailDelta(previousTemplates: nat, currentTemplates: nat, templatesDelta: int,
                                 previousBits: real, currentBits: real,
                                 bitsDelta: real, previousRate: real, currentRate: real, rateDelta: real)

  datatype Salient = Salient(id: TemplateId, level: Option<EventLevel>, role: Option<Text>, salience: nat, count: nat,
                             axis: nat)

  datatype Frontier = IntoFailure | OutOfFailure

  datatype Crossing = Crossing(id: TemplateId, direction: Frontier, previousLevel: Option<EventLevel>,
                               currentLevel: Option<EventLevel>,
                               previousCount: nat, currentCount: nat)

  datatype ReservoirDelta = ReservoirDelta(emerged: seq<Salient>, vanished: seq<Salient>, crossings: seq<Crossing>)

  datatype MetaLogDiff = MetaLogDiff(kl: Option<real>, js: Option<real>, stability: Option<real>,
                                     templates: seq<TemplateDelta>,
                                     emerged: seq<TemplateId>, vanished: seq<TemplateId>,
                                         branching: seq<BranchingDelta>,
                                     ngrams: Option<NGramDelta>, mismatch: Option<OrderMismatch>,
                                         histograms: seq<HistogramDelta>,
                                     tail: Option<TailDelta>, reservoir: ReservoirDelta,
                                         cube: Option<CubeDiff.CubeDiff>)

  // ---------------------------------------------------------------- orders

  function Distance(x: real): real { if x < 0.0 then -x else x }

  const DeltaOrder: (TemplateDelta, TemplateDelta) -> bool :=
    (a: TemplateDelta, b: TemplateDelta) => Magnitude(a.delta) > Magnitude(b.delta)
        || (Magnitude(a.delta) == Magnitude(b.delta) && a.id < b.id)

  const BranchOrder: (BranchingDelta, BranchingDelta) -> bool :=
    (a: BranchingDelta, b: BranchingDelta) => Distance(a.delta) > Distance(b.delta)
        || (Distance(a.delta) == Distance(b.delta) && a.id < b.id)

  const RateOrder: (RateChange, RateChange) -> bool :=
    (a: RateChange, b: RateChange) => Distance(a.delta) > Distance(b.delta)
        || (Distance(a.delta) == Distance(b.delta) && SequenceLess(a.sequence, b.sequence))

  const HistogramOrder: (HistogramDelta, HistogramDelta) -> bool :=
    (a: HistogramDelta, b: HistogramDelta) => a.js > b.js
        || (a.js == b.js && (a.id < b.id || (a.id == b.id && a.index < b.index)))

  const SalientOrder: (Salient, Salient) -> bool := (a: Salient, b: Salient) => a.id < b.id

  const CrossingOrder: (Crossing, Crossing) -> bool := (a: Crossing, b: Crossing) => a.id < b.id

  const IdOrder: (TemplateId, TemplateId) -> bool := (a: TemplateId, b: TemplateId) => a < b

  const SequenceOrder: (seq<TemplateId>, seq<TemplateId>) -> bool := (a: seq<TemplateId>, b: seq<TemplateId>) =>
      SequenceLess(a, b)

  lemma OrdersArePartial()
    ensures StrictPartial(DeltaOrder) && StrictPartial(BranchOrder) && StrictPartial(HistogramOrder)
    ensures StrictPartial(SalientOrder) && StrictPartial(CrossingOrder) && StrictTotal(IdOrder)
  {}

  lemma SequenceOrdersArePartial()
    ensures StrictPartial(RateOrder) && StrictTotal(SequenceOrder)
  {
    hide SequenceLess;
    forall x: seq<TemplateId> ensures !SequenceOrder(x, x) { SequenceIrreflexive(x); }
    forall x: seq<TemplateId>, y: seq<TemplateId>, z: seq<TemplateId> | SequenceOrder(x, y) && SequenceOrder(y, z)
        ensures SequenceOrder(x, z) {
      SequenceTransitive(x, y, z);
    }
    forall x: seq<TemplateId>, y: seq<TemplateId>
        ensures x == y || SequenceOrder(x, y) || SequenceOrder(y, x) { SequenceTrichotomy(x, y); }
    forall x: RateChange ensures !RateOrder(x, x) { SequenceIrreflexive(x.sequence); }
    forall x: RateChange, y: RateChange, z: RateChange | RateOrder(x, y) && RateOrder(y, z) ensures RateOrder(x, z) {
      if Distance(x.delta) == Distance(y.delta) == Distance(z.delta)
          { SequenceTransitive(x.sequence, y.sequence, z.sequence); }
    }
  }

  // ---------------------------------------------------------------- templates

  /** The counts of top_k; the first entry of a template is the one kept. */
  function CountedIn(entries: seq<TopKEntry>): map<TemplateId, nat> {
    if entries == [] then map[]
    else
      var counts, last := CountedIn(entries[..|entries| - 1]), entries[|entries| - 1];
      if last.id in counts then counts else counts[last.id := last.count]
  }

  function CountIn(counts: map<TemplateId, nat>, id: TemplateId): nat { if id in counts then counts[id] else 0 }

  function TemplateRow(prev: map<TemplateId, nat>, cur: map<TemplateId, nat>, id: TemplateId): TemplateDelta {
    TemplateDelta(id, CountIn(prev, id), CountIn(cur, id), CountIn(cur, id) - CountIn(prev, id))
  }

  ghost function TemplateRows(prev: map<TemplateId, nat>, cur: map<TemplateId, nat>): set<TemplateDelta> {
    set id | id in prev.Keys + cur.Keys :: TemplateRow(prev, cur, id)
  }

  /** Templates counted by one side only. */
  ghost function OnlyIn(counts: map<TemplateId, nat>, other: map<TemplateId, nat>): set<TemplateId> {
    set id | id in counts && counts[id] > 0 && CountIn(other, id) == 0
  }

  ghost predicate TemplatesCompared(d: MetaLogDiff, prev: map<TemplateId, nat>, cur: map<TemplateId, nat>) {
    && IsRanked(DeltaOrder, d.templates, TemplateRows(prev, cur))
    && IsRanked(IdOrder, d.emerged, OnlyIn(cur, prev)) && IsRanked(IdOrder, d.vanished, OnlyIn(prev, cur))
  }

  // ---------------------------------------------------------------- branching

  /** The last row of a template is the one kept. */
  function BitsOf(rows: seq<BranchingRow>): map<TemplateId, real> {
    if rows == [] then map[] else BitsOf(rows[..|rows| - 1])[rows[|rows| - 1].id := rows[|rows| - 1].bits]
  }

  predicate Branches(s: Side) { s.document.behavior.Some? && s.branching.Some? && s.branching.value != [] }

  function BranchRow(prev: map<TemplateId, real>, row: BranchingRow): BranchingDelta
    requires row.id in prev
  {
    BranchingDelta(row.id, prev[row.id], row.bits, row.bits - prev[row.id])
  }

  ghost function BranchRows(prev: map<TemplateId, real>, rows: seq<BranchingRow>): set<BranchingDelta> {
    set row | row in rows && row.id in prev :: BranchRow(prev, row)
  }

  /** One row for every listed template the other side branches on, in the order listed. */
  function BranchList(prev: map<TemplateId, real>, rows: seq<BranchingRow>): seq<BranchingDelta> {
    if rows == [] then []
    else
      var last := rows[|rows| - 1];
      BranchList(prev, rows[..|rows| - 1]) + if last.id in prev then [BranchRow(prev, last)] else []
  }

  lemma BranchRowsSnoc(prev: map<TemplateId, real>, front: seq<BranchingRow>, row: BranchingRow)
    ensures BranchRows(prev, front + [row])
        == BranchRows(prev, front) + if row.id in prev then {BranchRow(prev, row)} else {}
  {
    assert forall x :: x in front + [row] <==> x in front || x == row;
  }

  ghost predicate AnyMoved(rows: set<BranchingDelta>) { exists row :: row in rows && row.delta != 0.0 }

  /** Templates both sides branch on; the whole list only when some entropy moved. */
  ghost predicate IsBranching(branching: seq<BranchingDelta>, a: Side, b: Side) {
    if !Branches(a) || !Branches(b) then branching == []
    else
      var bits, rows := BitsOf(a.branching.value), b.branching.value;
      if AnyMoved(BranchRows(bits, rows)) then IsSorting(BranchOrder, branching, BranchList(bits, rows))
      else branching == []
  }

  // ---------------------------------------------------------------- n-grams

  /** N-grams by their scalar id; the last under an id is the one kept. */
  function RatedBy(entries: seq<NGram>, idOf: IdOf): map<NGramId, RatedNGram> {
    if entries == [] then map[]
    else
      var last := entries[|entries| - 1];
      RatedBy(entries[..|entries| - 1], idOf)[idOf(last.sequence) := RatedNGram(last.sequence, last.probability)]
  }

  ghost function SequencesOnlyIn(rated: map<NGramId, RatedNGram>, other: map<NGramId,
                                 RatedNGram>): set<seq<TemplateId>> {
    set id | id in rated && id !in other :: rated[id].sequence
  }

  function RateRow(prev: RatedNGram, cur: RatedNGram): RateChange {
    RateChange(cur.sequence, prev.probability, cur.probability, cur.probability - prev.probability)
  }

  ghost function RateRows(prev: map<NGramId, RatedNGram>, cur: map<NGramId, RatedNGram>): set<RateChange> {
    set id | id in cur && id in prev && cur[id].probability != prev[id].probability :: RateRow(prev[id], cur[id])
  }

  /** N-grams of one order: new, vanished and re-rated ones, and no block when there is none of them. */
  ghost predicate NGramsAre(ngrams: Option<NGramDelta>, size: nat, prev: map<NGramId, RatedNGram>, cur: map<NGramId,
                            RatedNGram>) {
    if SequencesOnlyIn(cur, prev) == {} && SequencesOnlyIn(prev, cur) == {}
        && RateRows(prev, cur) == {} then ngrams.None?
    else
      && ngrams.Some? && ngrams.value.size == size
          && IsRanked(SequenceOrder, ngrams.value.emerged, SequencesOnlyIn(cur, prev))
      && IsRanked(SequenceOrder, ngrams.value.vanished, SequencesOnlyIn(prev, cur))
          && IsRanked(RateOrder, ngrams.value.changed, RateRows(prev, cur))
  }

  ghost predicate AreNGrams(ngrams: Option<NGramDelta>, mismatch: Option<OrderMismatch>, a: Side, b: Side, idOf: IdOf) {
    if a.document.behavior.None? || b.document.behavior.None? then ngrams.None? && mismatch.None?
    else if a.document.behavior.value.ngramSize != b.document.behavior.value.ngramSize then
      ngrams.None? && mismatch == Some(OrderMismatch(a.document.behavior.value.ngramSize,
                                                     b.document.behavior.value.ngramSize))
    else
      && mismatch.None?
      && NGramsAre(ngrams, b.document.behavior.value.ngramSize, RatedBy(Entries(a.document.behavior), idOf),
                   RatedBy(Entries(b.document.behavior), idOf))
  }

  // ---------------------------------------------------------------- field histograms

  /** The last entry of each template that carries histograms. */
  function TrackedOf(entries: seq<TopKEntry>): map<TemplateId, TopKEntry> {
    if entries == [] then map[]
    else
      var tracked, last := TrackedOf(entries[..|entries| - 1]), entries[|entries| - 1];
      if last.histograms == [] then tracked else tracked[last.id := last]
  }

  /** The first slot with an index. */
  function ParameterSlot(histograms: seq<FieldHistogram>, index: nat): Option<FieldHistogram> {
    if histograms == [] then None else if histograms[0].index == index then Some(histograms[0])
        else ParameterSlot(histograms[1..], index)
  }

  ghost function HistogramJs(prev: FieldHistogram, cur: FieldHistogram, fixed: Fixed): real {
    TextOrderIsTotal();
    DivergenceOf(TextOrder, prev.values, prev.total, cur.values, cur.total, fixed).js
  }

  ghost function HistogramRow(id: TemplateId, prev: FieldHistogram, cur: FieldHistogram,
                              measures: Measures): HistogramDelta {
    HistogramDelta(id, cur.index, measures.bits(prev.entropy), measures.bits(cur.entropy),
                   HistogramJs(prev, cur, measures.fixed),
                   prev.total, cur.total, prev.cardinality, cur.cardinality, cur.cardinality - prev.cardinality)
  }

  ghost function HistogramRows(prev: map<TemplateId, TopKEntry>, entries: seq<TopKEntry>,
                               measures: Measures): set<HistogramDelta> {
    set e, c | e in entries && c in e.histograms && e.id in prev && ParameterSlot(prev[e.id].histograms, c.index).Some?
      :: HistogramRow(e.id, ParameterSlot(prev[e.id].histograms, c.index).value, c, measures)
  }

  /** The paired slots of one entry, in the order they stand. */
  ghost function SlotList(prev: TopKEntry, id: TemplateId, slots: seq<FieldHistogram>,
                          measures: Measures): seq<HistogramDelta> {
    if slots == [] then []
    else
      var front, last := slots[..|slots| - 1], slots[|slots| - 1];
      var found := ParameterSlot(prev.histograms, last.index);
      SlotList(prev, id, front, measures) + if found.Some? then [HistogramRow(id, found.value, last, measures)] else []
  }

  ghost function HistogramList(prev: map<TemplateId, TopKEntry>, entries: seq<TopKEntry>,
                               measures: Measures): seq<HistogramDelta> {
    if entries == [] then []
    else
      var front, last := entries[..|entries| - 1], entries[|entries| - 1];
      HistogramList(prev, front, measures)
      + if last.id in prev then SlotList(prev[last.id], last.id, last.histograms, measures) else []
  }

  ghost predicate HistogramsCompared(d: MetaLogDiff, a: Side, b: Side, measures: Measures) {
    IsSorting(HistogramOrder, d.histograms,
              HistogramList(TrackedOf(a.document.stats.topK), b.document.stats.topK, measures))
  }

  // ---------------------------------------------------------------- tail

  function RateOf(t: TailSummary): real { if t.lines == 0 then 0.0 else t.maxCount as real / t.lines as real }

  function TailRow(prev: TailSummary, cur: TailSummary, bits: Entropy -> real): TailDelta {
    TailDelta(prev.templates, cur.templates, cur.templates - prev.templates, bits(prev.entropy), bits(cur.entropy),
              bits(cur.entropy) - bits(prev.entropy),
              RateOf(prev), RateOf(cur), RateOf(cur) - RateOf(prev))
  }

  function TailCompared(prev: Option<TailSummary>, cur: Option<TailSummary>, bits: Entropy -> real): Option<TailDelta> {
    if prev.Some? && cur.Some? then Some(TailRow(prev.value, cur.value, bits)) else None
  }

  // ---------------------------------------------------------------- reservoir

  datatype Memory = Memory(level: Option<EventLevel>, count: nat)

  function AddTopK(memory: map<TemplateId, Memory>, entries: seq<TopKEntry>): map<TemplateId, Memory> {
    if entries == [] then memory
    else
      var m, last := AddTopK(memory, entries[..|entries| - 1]), entries[|entries| - 1];
      if last.id in m then m else m[last.id := Memory(last.level, last.count)]
  }

  function AddReservoir(memory: map<TemplateId, Memory>, entries: seq<ReservoirEntry>): map<TemplateId, Memory> {
    if entries == [] then memory
    else
      var m, last := AddReservoir(memory, entries[..|entries| - 1]), entries[|entries| - 1];
      if last.id in m then m else m[last.id := Memory(last.level, last.count)]
  }

  /** What a document remembers by name: top_k, then reservoir, the first entry of a template kept. */
  function MemoryOf(s: Stats): map<TemplateId, Memory> { AddReservoir(AddTopK(map[], s.topK), s.reservoir) }

  function Snapshot(e: ReservoirEntry): Salient { Salient(e.id, e.level, e.role, e.salience, e.count, e.axis) }

  /** The salient templates of one side that the other does not remember at all. */
  ghost function SalientOnlyIn(entries: seq<ReservoirEntry>, other: map<TemplateId, Memory>): set<Salient> {
    set e | e in entries && e.id !in other :: Snapshot(e)
  }

  function SalientList(entries: seq<ReservoirEntry>, other: map<TemplateId, Memory>): seq<Salient> {
    if entries == [] then []
    else
      var last := entries[|entries| - 1];
      SalientList(entries[..|entries| - 1], other) + if last.id !in other then [Snapshot(last)] else []
  }

  predicate Crosses(prev: Memory, cur: Memory) { IsFailureLevel(prev.level) != IsFailureLevel(cur.level) }

  function CrossingRow(id: TemplateId, prev: Memory, cur: Memory): Crossing {
    Crossing(id, if IsFailureLevel(cur.level) then IntoFailure else OutOfFailure, prev.level, cur.level, prev.count,
             cur.count)
  }

  ghost function CrossingRows(prev: map<TemplateId, Memory>, cur: map<TemplateId, Memory>): set<Crossing> {
    set id | id in cur && id in prev && Crosses(prev[id], cur[id]) :: CrossingRow(id, prev[id], cur[id])
  }

  ghost predicate IsReservoir(reservoir: ReservoirDelta, a: Side, b: Side) {
    var prev, cur := MemoryOf(a.document.stats), MemoryOf(b.document.stats);
    && IsSorting(SalientOrder, reservoir.emerged, SalientList(b.document.stats.reservoir, prev))
    && IsSorting(SalientOrder, reservoir.vanished, SalientList(a.document.stats.reservoir, cur))
    && IsRanked(CrossingOrder, reservoir.crossings, CrossingRows(prev, cur))
  }

  // ---------------------------------------------------------------- divergences

  ghost predicate AreDivergences(kl: Option<real>, js: Option<real>, stability: Option<real>, prev: map<TemplateId,
                                 nat>, prevLines: nat,
                                 cur: map<TemplateId, nat>, curLines: nat, fixed: Fixed) {
    OrdersArePartial();
    var r := DivergenceOf(IdOrder, cur, curLines, prev, prevLines, fixed);
    if curLines > 0 && prevLines > 0 then kl == Some(r.kl) && js == Some(r.js) && stability == Some(Clamped(1.0 - r.js))
    else kl.None? && js.None? && stability.None?
  }

  ghost predicate DivergencesCompared(d: MetaLogDiff, a: Side, b: Side, fixed: Fixed) {
    AreDivergences(d.kl, d.js, d.stability, CountedIn(a.document.stats.topK), a.document.lines,
                   CountedIn(b.document.stats.topK), b.document.lines, fixed)
  }

  // ---------------------------------------------------------------- cubes

  function DurationsOf(s: Side, schedule: Text): map<Text, Latency.Durations> {
    Latency.DurationsIn(s.document.stats.topK, s.ordinals, schedule, |s.document.stats.topK|)
  }

  function ShiftsOf(a: Side, b: Side, schedule: Text): map<Text, CubeDiff.Drift> {
    Latency.ShiftsBetween(DurationsOf(a, schedule), DurationsOf(b, schedule))
  }

  /** The cubes are compared whenever both sides carry one, the current side pinned with its latency shifts. */
  ghost predicate IsCube(cube: Option<CubeDiff.CubeDiff>, a: Side, b: Side, schedule: Text)
    requires CubesCompose(a.document, b.document)
  {
    if a.document.cube.Some? && b.document.cube.Some?
    then cube == Some(CubeDiff.DiffBlocks(a.document.cube.value, b.document.cube.value, ShiftsOf(a, b, schedule)))
        else cube.None?
  }

  // ---------------------------------------------------------------- the whole comparison

  /** What a comparison of two documents says. */
  ghost predicate IsDiff(d: MetaLogDiff, a: Side, b: Side, measures: Measures)
    requires CubesCompose(a.document, b.document)
  {
    && DivergencesCompared(d, a, b, measures.fixed)
    && TemplatesCompared(d, CountedIn(a.document.stats.topK), CountedIn(b.document.stats.topK))
    && IsBranching(d.branching, a, b) && AreNGrams(d.ngrams, d.mismatch, a, b, measures.idOf)
        && HistogramsCompared(d, a, b, measures)
    && d.tail == TailCompared(a.document.stats.tailSummary, b.document.stats.tailSummary, measures.bits)
    && IsReservoir(d.reservoir, a, b) && IsCube(d.cube, a, b, measures.durations)
  }

  lemma DiffIs(d: MetaLogDiff, a: Side, b: Side, measures: Measures)
    requires CubesCompose(a.document, b.document)
    requires AreDivergences(d.kl, d.js, d.stability, CountedIn(a.document.stats.topK), a.document.lines,
                            CountedIn(b.document.stats.topK), b.document.lines, measures.fixed)
    requires IsRanked(DeltaOrder, d.templates,
                      TemplateRows(CountedIn(a.document.stats.topK), CountedIn(b.document.stats.topK)))
    requires IsRanked(IdOrder, d.emerged, OnlyIn(CountedIn(b.document.stats.topK), CountedIn(a.document.stats.topK)))
    requires IsRanked(IdOrder, d.vanished, OnlyIn(CountedIn(a.document.stats.topK), CountedIn(b.document.stats.topK)))
    requires IsBranching(d.branching, a, b) && AreNGrams(d.ngrams, d.mismatch, a, b, measures.idOf)
    requires HistogramsCompared(d, a, b, measures)
    requires d.tail == TailCompared(a.document.stats.tailSummary, b.document.stats.tailSummary, measures.bits)
    requires IsReservoir(d.reservoir, a, b) && IsCube(d.cube, a, b, measures.durations)
    ensures IsDiff(d, a, b, measures)
  {
    hide AreDivergences, CountedIn, IsRanked, TemplateRows, OnlyIn, IsBranching, AreNGrams,
        HistogramsCompared, IsReservoir, IsCube, CubesCompose;
  }

  // ---------------------------------------------------------------- the outcome

  predicate HistogramMoved(row: HistogramDelta)
      { row.js != 0.0 || row.previousBits != row.currentBits || row.cardinalityDelta != 0 }

  /** A moved histogram row that no document carries. */
  predicate WithholdsHistograms(d: MetaLogDiff)
      { exists i :: 0 <= i < |d.histograms| && HistogramMoved(d.histograms[i]) }

  predicate BorderFound(border: Option<Border.CubeBorder>)
      { border.Some? && (border.value.lower != [] || border.value.upper != []) }

  /** A comparison is changed when some property witnesses it: a divergence off its vacuous value, a row that
      moved, a list that is not empty, a border, or a withheld row. */
  predicate Changed(d: MetaLogDiff) {
    || (d.kl.Some? && d.kl.value != 0.0) || (d.js.Some? && d.js.value != 0.0)
        || (d.stability.Some? && d.stability.value != 1.0)
    || (exists i :: 0 <= i < |d.templates| && d.templates[i].delta != 0)
    || d.emerged != [] || d.vanished != [] || d.branching != []
    || (d.ngrams.Some? && (d.ngrams.value.emerged != [] || d.ngrams.value.vanished != []
        || d.ngrams.value.changed != []))
    || (d.tail.Some? && (d.tail.value.templatesDelta != 0 || d.tail.value.bitsDelta != 0.0
        || d.tail.value.rateDelta != 0.0))
    || (d.cube.Some? && (BorderFound(d.cube.value.emerging) || BorderFound(d.cube.value.vanishing)))
    || d.reservoir.emerged != [] || d.reservoir.vanished != [] || d.reservoir.crossings != []
    || WithholdsHistograms(d)
  }
}
