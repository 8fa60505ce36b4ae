/** Composing the statistics of two documents: merged counts in one order, cut into top_k, reservoir
    and tail, with nothing lost between them. */
module ComposeStats {
  import opened Options
  import opened Identifiers
  import opened Orders
  import opened Bytes
  import opened Blocks
  import opened ComposeLabels
  import opened Histograms
  import opened ChurnAlgebra

  datatype TopKEntry = TopKEntry(id: TemplateId, count: nat, level: Option<EventLevel>, component: Option<Text>,
                                 histograms: seq<FieldHistogram>, churn: Churn)

  datatype ReservoirEntry = ReservoirEntry(id: TemplateId, count: nat, level: Option<EventLevel>,
                                           component: Option<Text>,
                                           role: Option<Text>, surprise: nat, novelty: nat, salience: nat, axis: nat,
                                           coord: Option<CubeCoord>, churn: Churn)

  /** The tail's shape: its size, the entropy's arguments, its loudest count and the window's lines. */
  datatype TailSummary = TailSummary(templates: nat, entropy: Entropy, maxCount: nat, lines: nat)

  datatype Stats = Stats(topK: seq<TopKEntry>, reservoir: seq<ReservoirEntry>, tailCount: nat, tailUnique: nat,
                         uniqueTemplates: nat, topKSize: nat, reservoirSize: Option<nat>, histogramSize: Option<nat>,
                         valueSize: Option<nat>, tailSummary: Option<TailSummary>, entropy: Option<Entropy>)

  const DEFAULT_MAX_HISTOGRAM_VALUES: nat := 64

  /** A salience verdict: score and retention axis, of a level, a role, a count, the lines, a surprise and a novelty. */
  type Salience = (Option<LevelId>, Option<Text>, nat, nat, nat, nat) -> (nat, nat)

  // ---------------------------------------------------------------- one input's view

  function TopKView(entries: seq<TopKEntry>, id: TemplateId): InputTemplate {
    if entries == [] then NOT_CARRIED
    else
      var view, e := TopKView(entries[..|entries| - 1], id), entries[|entries| - 1];
      if e.id != id then view else view.(count := view.count + e.count, level := e.level, component := e.component)
  }

  function WherePath(e: ReservoirEntry): Option<seq<Text>> {
    if e.coord.Some? && e.coord.value.path.Some? && e.coord.value.path.value != [] then e.coord.value.path else None
  }

  function AbsorbReservoir(view: InputTemplate, e: ReservoirEntry): InputTemplate {
    InputTemplate(view.count + e.count, e.level, e.component, e.role, if WherePath(e).Some? then WherePath(e)
        else view.where)
  }

  function ReservoirView(start: InputTemplate, entries: seq<ReservoirEntry>, id: TemplateId): InputTemplate {
    if entries == [] then start
    else
      var view, e := ReservoirView(start, entries[..|entries| - 1], id), entries[|entries| - 1];
      if e.id != id then view else AbsorbReservoir(view, e)
  }

  function ViewOf(s: Stats, id: TemplateId): InputTemplate { ReservoirView(TopKView(s.topK, id), s.reservoir, id) }

  ghost function TopKIds(s: Stats): set<TemplateId> { set e | e in s.topK :: e.id }

  ghost function ReservoirIds(s: Stats): set<TemplateId> { set e | e in s.reservoir :: e.id }

  ghost function Ids(s: Stats): set<TemplateId> { TopKIds(s) + ReservoirIds(s) }

  // ---------------------------------------------------------------- the merged order

  datatype Counted = Counted(id: TemplateId, count: nat)

  /** Count descending, then id ascending: the order that also decides the last top_k slot. */
  const CountedOrder: (Counted, Counted) -> bool := (a: Counted, b: Counted) => a.count > b.count
      || (a.count == b.count && a.id < b.id)

  lemma CountedOrderIsTotal()
    ensures StrictTotal(CountedOrder)
  {
    forall x, y, z | CountedOrder(x, y) && CountedOrder(y, z) ensures CountedOrder(x, z) {}
    forall x, y ensures x == y || CountedOrder(x, y) || CountedOrder(y, x) {}
  }

  function MergedCount(a: Stats, b: Stats, id: TemplateId): nat { ViewOf(a, id).count + ViewOf(b, id).count }

  ghost function CountedOf(a: Stats, b: Stats): set<Counted> {
    set id | id in Ids(a) + Ids(b) :: Counted(id, MergedCount(a, b, id))
  }

  ghost function Ordered(a: Stats, b: Stats): (r: seq<Counted>)
    ensures Ascending(CountedOrder, r) && Elements(r) == CountedOf(a, b)
  {
    CountedOrderIsTotal();
    SortedOf(CountedOrder, CountedOf(a, b))
  }

  function LabelsFor(a: Stats, b: Stats, id: TemplateId): Labels { ResolveLabels(ViewOf(a, id), ViewOf(b, id)) }

  // ---------------------------------------------------------------- caps

  /** The minimum over the caps declared; an input that declares none is skipped. */
  function MinDeclaredCap(a: Option<nat>, b: Option<nat>): Option<nat> {
    if a.None? then b else if b.None? then a else Some(Min(a.value, b.value))
  }

  function ValueCap(a: Stats, b: Stats): nat {
    match MinDeclaredCap(a.valueSize, b.valueSize) case None => DEFAULT_MAX_HISTOGRAM_VALUES case Some(n) => n
  }

  ghost function TopKCut(a: Stats, b: Stats): nat { Min(Min(a.topKSize, b.topKSize), |Ordered(a, b)|) }

  // ---------------------------------------------------------------- top_k

  /** The histograms of the first top_k entry with this id. */
  function HistogramsOf(entries: seq<TopKEntry>, id: TemplateId): seq<FieldHistogram> {
    if entries == [] then [] else if entries[0].id == id then entries[0].histograms else HistogramsOf(entries[1..], id)
  }

  ghost function ComposedHistograms(a: Stats, b: Stats, id: TemplateId): seq<FieldHistogram> {
    var lhs, rhs := HistogramsOf(a.topK, id), HistogramsOf(b.topK, id);
    if lhs == [] && rhs == [] then []
        else MergedHistograms(lhs, rhs, MinDeclaredCap(a.histogramSize, b.histogramSize), ValueCap(a, b))
  }

  ghost function ComposedTopKEntry(a: Stats, b: Stats, c: Counted): TopKEntry {
    TopKEntry(c.id, c.count, LabelsFor(a, b, c.id).level, LabelsFor(a, b, c.id).component,
              ComposedHistograms(a, b, c.id), NO_CHURN)
  }

  ghost function ComposedTopK(a: Stats, b: Stats): (r: seq<TopKEntry>)
    ensures |r| == TopKCut(a, b) && forall i :: 0 <= i < |r| ==> r[i] == ComposedTopKEntry(a, b, Ordered(a, b)[i])
  {
    seq(TopKCut(a, b), i requires 0 <= i < TopKCut(a, b) => ComposedTopKEntry(a, b, Ordered(a, b)[i]))
  }

  ghost function ComposedTopKIds(a: Stats, b: Stats): set<TemplateId> { set e | e in ComposedTopK(a, b) :: e.id }

  // ---------------------------------------------------------------- reservoir

  /** The greatest structural surprise and novelty a reservoir carried for an id. */
  function SurpriseIn(entries: seq<ReservoirEntry>, id: TemplateId): nat {
    if entries == [] then 0
    else
      var best, e := SurpriseIn(entries[..|entries| - 1], id), entries[|entries| - 1];
      if e.id == id then Max(best, e.surprise) else best
  }

  function NoveltyIn(entries: seq<ReservoirEntry>, id: TemplateId): nat {
    if entries == [] then 0
    else
      var best, e := NoveltyIn(entries[..|entries| - 1], id), entries[|entries| - 1];
      if e.id == id then Max(best, e.novelty) else best
  }

  function Surprise(a: Stats, b: Stats, id: TemplateId): nat
      { Max(SurpriseIn(a.reservoir, id), SurpriseIn(b.reservoir, id)) }

  function Novelty(a: Stats, b: Stats, id: TemplateId): nat
      { Max(NoveltyIn(a.reservoir, id), NoveltyIn(b.reservoir, id)) }

  function Verdict(a: Stats, b: Stats, lines: nat, salience: Salience, id: TemplateId): (nat, nat) {
    var labels := LabelsFor(a, b, id);
    salience(if labels.level.Some? then Some(labels.level.value.value) else None, labels.role, MergedCount(a, b, id),
             lines,
             Surprise(a, b, id), Novelty(a, b, id))
  }

  ghost function CandidateIds(a: Stats, b: Stats, lines: nat, salience: Salience): set<TemplateId> {
    set id | id in ReservoirIds(a) + ReservoirIds(b) && id !in ComposedTopKIds(a, b)
        && Verdict(a, b, lines, salience, id).0 > 0
  }

  datatype Candidate = Candidate(id: TemplateId, salience: nat, surprise: nat, novelty: nat, axis: nat)

  function CandidateOf(a: Stats, b: Stats, lines: nat, salience: Salience, id: TemplateId): Candidate {
    var verdict := Verdict(a, b, lines, salience, id);
    Candidate(id, verdict.0, Surprise(a, b, id), Novelty(a, b, id), verdict.1)
  }

  /** Salience descending, then id ascending. */
  const CandidateOrder: (Candidate, Candidate) -> bool :=
    (a: Candidate, b: Candidate) => a.salience > b.salience || (a.salience == b.salience && a.id < b.id)

  /** The same order as ids see it: total, because a candidate is a function of its id. */
  function SalienceOrder(a: Stats, b: Stats, lines: nat, salience: Salience): (TemplateId, TemplateId) -> bool {
    (x: TemplateId, y: TemplateId) =>
      CandidateOrder(CandidateOf(a, b, lines, salience, x), CandidateOf(a, b, lines, salience, y))
  }

  lemma SalienceOrderIsTotal(a: Stats, b: Stats, lines: nat, salience: Salience)
    ensures StrictTotal(SalienceOrder(a, b, lines, salience))
  {
    CandidateOrderIsPartial();
    var less := SalienceOrder(a, b, lines, salience);
    forall x ensures !less(x, x) {}
    forall x, y, z | less(x, y) && less(y, z) ensures less(x, z) {
      CandidateTransitive(CandidateOf(a, b, lines, salience, x), CandidateOf(a, b, lines, salience, y),
                          CandidateOf(a, b, lines, salience, z));
    }
    forall x, y ensures x == y || less(x, y) || less(y, x) {
      assert CandidateOf(a, b, lines, salience, x).id == x && CandidateOf(a, b, lines, salience, y).id == y;
    }
  }

  lemma CandidateTransitive(x: Candidate, y: Candidate, z: Candidate)
    requires CandidateOrder(x, y) && CandidateOrder(y, z)
    ensures CandidateOrder(x, z)
  {}

  lemma CandidateOrderIsPartial()
    ensures StrictPartial(CandidateOrder)
  {}

  ghost function RankedCandidates(a: Stats, b: Stats, lines: nat, salience: Salience): (r: seq<TemplateId>)
    ensures Ascending(SalienceOrder(a, b, lines, salience), r) && Elements(r) == CandidateIds(a, b, lines, salience)
  {
    SalienceOrderIsTotal(a, b, lines, salience);
    SortedOf(SalienceOrder(a, b, lines, salience), CandidateIds(a, b, lines, salience))
  }

  ghost function Admitted(a: Stats, b: Stats, lines: nat, salience: Salience): seq<TemplateId> {
    var ranked := RankedCandidates(a, b, lines, salience);
    match MinDeclaredCap(a.reservoirSize, b.reservoirSize) case None => ranked case Some(n) =>
        ranked[..Min(n, |ranked|)]
  }

  /** A location carries level and where only. */
  function Location(level: Option<LevelId>, component: Text): CubeCoord {
    CubeCoord(if level.Some? then Some(level.value) else None, if component != [] then Some([component]) else None,
              None, None)
  }

  function ComposedReservoirEntry(a: Stats, b: Stats, lines: nat, salience: Salience, cubes: bool,
                                  id: TemplateId): ReservoirEntry {
    var labels, c := LabelsFor(a, b, id), CandidateOf(a, b, lines, salience, id);
    ReservoirEntry(id, MergedCount(a, b, id), labels.level, labels.component, labels.role, c.surprise, c.novelty,
                   c.salience, c.axis,
                   if !cubes then None
                   else Some(Location(if labels.level.Some? then Some(labels.level.value.value) else None,
                                      if labels.where.Some? && labels.where.value != []
                                          then labels.where.value[|labels.where.value| - 1] else [])),
                   NO_CHURN)
  }

  ghost function ComposedReservoir(a: Stats, b: Stats, lines: nat, salience: Salience,
                                   cubes: bool): (r: seq<ReservoirEntry>)
    ensures |r| == |Admitted(a, b, lines, salience)|
    ensures forall i :: 0 <= i < |r| ==>
        r[i] == ComposedReservoirEntry(a, b, lines, salience, cubes, Admitted(a, b, lines, salience)[i])
  {
    var ids := Admitted(a, b, lines, salience);
    seq(|ids|, i requires 0 <= i < |ids| => ComposedReservoirEntry(a, b, lines, salience, cubes, ids[i]))
  }

  // ---------------------------------------------------------------- tail and entropy

  /** The counts of `ordered` whose id is not reserved. */
  ghost function Unreserved(ordered: seq<Counted>, reserved: set<TemplateId>): seq<nat> {
    if ordered == [] then []
    else
      var front, last := Unreserved(ordered[..|ordered| - 1], reserved), ordered[|ordered| - 1];
      if last.id in reserved then front else front + [last.count]
  }

  ghost function TailCounts(a: Stats, b: Stats, lines: nat, salience: Salience): seq<nat> {
    Unreserved(Ordered(a, b)[TopKCut(a, b)..], Elements(Admitted(a, b, lines, salience)))
  }

  function Largest(counts: seq<nat>): nat
      { if counts == [] then 0 else Max(Largest(counts[..|counts| - 1]), counts[|counts| - 1]) }

  const Itself: nat -> nat := (n: nat) => n

  function Total(counts: seq<nat>): nat { Sum(counts, Itself) }

  /** A residual bucket enters an entropy only when it holds something. */
  function WithResidual(counts: multiset<nat>, residual: nat): multiset<nat>
      { if residual > 0 then counts + multiset{residual} else counts }

  ghost function CountList(ordered: seq<Counted>): (r: seq<nat>)
    ensures |r| == |ordered| && forall i :: 0 <= i < |r| ==> r[i] == ordered[i].count
  {
    seq(|ordered|, i requires 0 <= i < |ordered| => ordered[i].count)
  }

  ghost function ComposedTailSummary(a: Stats, b: Stats, lines: nat, salience: Salience): Option<TailSummary> {
    var tail, residual := TailCounts(a, b, lines, salience), a.tailCount + b.tailCount;
    if |tail| == 0 || lines == 0 then None
    else
        Some(TailSummary(|tail|, Entropy(WithResidual(multiset(tail), residual), Total(tail) + residual),
                         Largest(tail), lines))
  }

  ghost function ComposedEntropy(a: Stats, b: Stats, lines: nat): Option<Entropy> {
    if lines == 0 then None
    else Some(Entropy(WithResidual(multiset(CountList(Ordered(a, b))), a.tailCount + b.tailCount), lines))
  }

  ghost function ComposedStats(a: Stats, b: Stats, lines: nat, salience: Salience, cubes: bool): Stats {
    var tail := TailCounts(a, b, lines, salience);
    Stats(ComposedTopK(a, b), ComposedReservoir(a, b, lines, salience, cubes),
          Total(tail) + a.tailCount + b.tailCount, |tail|,
          |Ordered(a, b)|, Min(a.topKSize, b.topKSize), MinDeclaredCap(a.reservoirSize, b.reservoirSize),
          MinDeclaredCap(a.histogramSize, b.histogramSize), Some(ValueCap(a, b)),
          ComposedTailSummary(a, b, lines, salience), ComposedEntropy(a, b, lines))
  }
}
