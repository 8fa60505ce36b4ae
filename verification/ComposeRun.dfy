/** compose itself: the gates, the builders in their order, and the churn fold over what they kept. */
module ComposeRun {
  import opened Options
  import opened Orders
  import opened Bytes
  import opened Blocks
  import opened Composition
  import opened CanonicalKeys
  import opened Provenance
  import opened ChurnAlgebra
  import opened ComposeStats
  import opened StatsBuilders
  import opened Envelopes
  import opened Behaviors
  import opened ComposeDocument

  datatype Tally = Tally(withChurn: nat, transitions: nat, indeterminate: nat)

  function TallyOf(rows: seq<Churn>): Tally
      { Tally(Sum(rows, HasChurn), Sum(rows, Transitions), Sum(rows, Indeterminate)) }

  function Counted(t: Tally, c: Churn): Tally {
    Tally(t.withChurn + (if c.transitions > 0 then 1 else 0), t.transitions + c.transitions,
          t.indeterminate + c.indeterminate)
  }

  lemma TallySnoc(rows: seq<Churn>, c: Churn)
    ensures TallyOf(rows + [c]) == Counted(TallyOf(rows), c)
  {
    SumSnoc(rows, c, HasChurn);
    SumSnoc(rows, c, Transitions);
    SumSnoc(rows, c, Indeterminate);
  }

  method FoldTopKRows(entries: seq<TopKEntry>, a: Document, b: Document, order: WindowOrder, start: Tally,
                      ghost before: seq<Churn>)
    returns (rows: seq<TopKEntry>, tally: Tally)
    requires start == TallyOf(before)
    ensures rows == FoldTopK(entries, a, b, order) && tally == TallyOf(before + MapSeq(rows, TopKChurnOf))
  {
    hide FoldElements, TallyOf;
    rows, tally := [], start;
    assert before + MapSeq(rows, TopKChurnOf) == before;
    for i := 0 to |entries|
      invariant rows == FoldTopK(entries[..i], a, b, order) && tally == TallyOf(before + MapSeq(rows, TopKChurnOf))
    {
      var folded := FoldElements(a, b, order, entries[i].id);
      var row := entries[i].(churn := folded);
      TallySnoc(before + MapSeq(rows, TopKChurnOf), folded);
      assert before + MapSeq(rows + [row], TopKChurnOf) == before + MapSeq(rows, TopKChurnOf) + [folded];
      rows, tally := rows + [row], Counted(tally, folded);
    }
    assert entries[..|entries|] == entries;
  }

  method FoldReservoirRows(entries: seq<ReservoirEntry>, a: Document, b: Document, order: WindowOrder, start: Tally,
                           ghost before: seq<Churn>)
    returns (rows: seq<ReservoirEntry>, tally: Tally)
    requires start == TallyOf(before)
    ensures rows == FoldReservoir(entries, a, b, order) && tally == TallyOf(before + MapSeq(rows, ReservoirChurnOf))
  {
    hide FoldElements, TallyOf;
    rows, tally := [], start;
    assert before + MapSeq(rows, ReservoirChurnOf) == before;
    for i := 0 to |entries|
      invariant rows == FoldReservoir(entries[..i], a, b, order)
          && tally == TallyOf(before + MapSeq(rows, ReservoirChurnOf))
    {
      var folded := FoldElements(a, b, order, entries[i].id);
      var row := entries[i].(churn := folded);
      TallySnoc(before + MapSeq(rows, ReservoirChurnOf), folded);
      assert before + MapSeq(rows + [row], ReservoirChurnOf) == before + MapSeq(rows, ReservoirChurnOf) + [folded];
      rows, tally := rows + [row], Counted(tally, folded);
    }
    assert entries[..|entries|] == entries;
  }

  /** Both row loops: the folded rows, and their tally. */
  method FoldRows(stats: Stats, a: Document, b: Document, order: WindowOrder) returns (folded: Stats, tally: Tally)
    ensures folded == stats.(topK := FoldTopK(stats.topK, a, b, order),
                             reservoir := FoldReservoir(stats.reservoir, a, b, order))
    ensures tally == TallyOf(RowChurns(folded))
  {
    hide FoldElements, TallyOf;
    assert TallyOf([]) == Tally(0, 0, 0) by { EmptyTally(); }
    var topK: seq<TopKEntry>;
    topK, tally := FoldTopKRows(stats.topK, a, b, order, Tally(0, 0, 0), []);
    assert [] + MapSeq(topK, TopKChurnOf) == MapSeq(topK, TopKChurnOf);
    var reservoir: seq<ReservoirEntry>;
    reservoir, tally := FoldReservoirRows(stats.reservoir, a, b, order, tally, MapSeq(topK, TopKChurnOf));
    folded := stats.(topK := topK, reservoir := reservoir);
  }

  lemma EmptyTally()
    ensures TallyOf([]) == Tally(0, 0, 0)
  {}

  method FoldPresenceChurn(out: Document, a: Document, b: Document, order: WindowOrder) returns (d: Document)
    ensures d == FoldPresence(out, a, b, order)
  {
    if SpanOf(a) == 0 && SpanOf(b) == 0 {
      return out;
    }
    hide RowChurns, FoldElements;
    var stats, tally := FoldRows(out.stats, a, b, order);
    hide FoldTopK, FoldReservoir;
    var span := if order == Unordered then Max(SpanOf(a), SpanOf(b)) else SpanOf(a) + SpanOf(b);
    d := out.(stats := stats, churn :=
        Some(ChurnSummary(span, tally.withChurn, tally.transitions, tally.indeterminate)));
  }

  method MergeLists(a: Document, b: Document, ctx: Context)
    returns (provenance: seq<Entry>, coordinate: Option<Coordinate>, behavior: Option<Behavior>)
    ensures provenance == MergedProvenance(InputOf(a), InputOf(b), ctx.ecma)
    ensures coordinate == MergedCoordinate(a.coordinate, b.coordinate, ctx.ecma)
    ensures behavior == MergedBehavior(a.behavior, b.behavior, ctx.idOf)
  {
    hide *;
    provenance := MergeProvenance(InputOf(a), InputOf(b), ctx.ecma);
    coordinate := MergeCoordinate(a.coordinate, b.coordinate, ctx.ecma);
    behavior := MergeBehavior(a.behavior, b.behavior, ctx.idOf);
  }

  method MergeParts(a: Document, b: Document, ctx: Context) returns (parts: Parts)
    requires Accepted(a.envelope) && Accepted(b.envelope) && CubesCompose(a, b)
    requires SlotsAreDistinct(a.stats) && SlotsAreDistinct(b.stats)
    ensures parts == MergedParts(a, b, ctx)
  {
    hide *;
    var stats := ComposeStatistics(a.stats, b.stats, a.lines + b.lines, ctx.salience, a.cube.Some? && b.cube.Some?);
    var cube := BuildCube(a, b);
    var provenance, coordinate, behavior := MergeLists(a, b, ctx);
    var envelope := ComposedEnvelope(a.envelope, b.envelope);
    parts := Parts(envelope, MergeRuleset(a.ruleset, b.ruleset), CommonSource(a.source, b.source), stats, provenance,
                   coordinate, behavior, cube);
    SameParts(parts, MergedParts(a, b, ctx));
  }

  method BuildCube(a: Document, b: Document) returns (cube: Option<CubeBlock>)
    requires CubesCompose(a, b)
    ensures cube == MergedCube(a, b)
  {
    hide Composable, ComposeBlock;
    if a.cube.Some? && b.cube.Some? {
      var block := ComposeCubes(a.cube.value, b.cube.value);
      return Some(block);
    }
    return None;
  }

  method ComposeDocuments(a: Document, b: Document, ctx: Context) returns (outcome: Outcome)
    requires CubesCompose(a, b) && SlotsAreDistinct(a.stats) && SlotsAreDistinct(b.stats)
    ensures outcome == Compose(a, b, ctx)
  {
    hide Gate, CubesCompose, SlotsAreDistinct, FoldPresence, Assemble, OrderOf, Accepted;
    var gate := Gate(a, b);
    if gate.Some? {
      return Refused(gate.value);
    }
    GateAccepts(a, b);
    var parts := MergeParts(a, b, ctx);
    var out := Assemble(a, b, parts, ctx.composer);
    var folded := FoldPresenceChurn(out, a, b, OrderOf(a.envelope, b.envelope));
    outcome := Composed(folded);
  }
}
