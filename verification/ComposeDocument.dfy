/** Composing two whole documents: section 12 of the MetaLog specification. */
module ComposeDocument {
  import opened Options
  import opened Identifiers
  import opened Orders
  import opened Bytes
  import opened Blocks
  import opened Interning
  import opened Composition
  import opened CubeLines
  import opened CanonicalKeys
  import opened Provenance
  import opened ChurnAlgebra
  import opened ComposeStats
  import opened StatsBuilders
  import opened StatsLaws
  import opened Rfc3339
  import opened Envelopes
  import opened Behaviors

  datatype Ruleset = Ruleset(semanticIdentity: Text, packages: seq<(Text, Text)>)

  datatype ChurnSummary = ChurnSummary(span: nat, withChurn: nat, transitions: nat, indeterminate: nat)

  datatype Document = Document(maxTextBytes: Option<nat>, producer: Text, canonicalizationVersion: Option<Text>,
                               retentionProfile: Option<Text>,
                               ruleset: Option<Ruleset>, transport: Option<seq<Text>>, envelope: Option<Envelope>,
                                   lines: nat, source: Source,
                               stats: Stats, churn: Option<ChurnSummary>, provenance: Option<seq<Entry>>,
                                   coordinate: Option<Coordinate>,
                               behavior: Option<Behavior>, cube: Option<CubeBlock>)

  datatype Refusal = TextCap | Canonicalization | Retention | SemanticIdentity | Bound

  datatype Outcome = Refused(why: Refusal) | Composed(document: Document)

  // ---------------------------------------------------------------- gates

  predicate Clash(a: Option<Text>, b: Option<Text>) { a.Some? && b.Some? && a.value != b.value }

  function IdentityOf(d: Document): Option<Text>
      { if d.ruleset.Some? then Some(d.ruleset.value.semanticIdentity) else None }

  /** The first processing contract the pair does not share, in the order they are checked. */
  function ContractGate(a: Document, b: Document): Option<Refusal> {
    if a.maxTextBytes != b.maxTextBytes then Some(TextCap)
    else if Clash(a.canonicalizationVersion, b.canonicalizationVersion) then Some(Canonicalization)
    else if Clash(a.retentionProfile, b.retentionProfile) then Some(Retention)
    else if Clash(IdentityOf(a), IdentityOf(b)) then Some(SemanticIdentity)
    else None
  }

  /** The first gate a composition fails: a contract, then a bound that is no instant. */
  function Gate(a: Document, b: Document): Option<Refusal> {
    if ContractGate(a, b).Some? then ContractGate(a, b)
    else if !Accepted(a.envelope) || !Accepted(b.envelope) then Some(Bound)
    else None
  }

  lemma GateAccepts(a: Document, b: Document)
    requires Gate(a, b).None?
    ensures Accepted(a.envelope) && Accepted(b.envelope)
  {
    hide Accepted;
  }

  function CarryIdentifier(a: Option<Text>, b: Option<Text>): Option<Text> { if a.Some? && a == b then a else None }

  // ---------------------------------------------------------------- source and ruleset

  function Agreed<T(==)>(a: Option<T>, b: Option<T>): Option<T> { if a == b then a else None }

  function CommonTags(a: map<Text, Text>, b: map<Text, Text>): map<Text, Text>
      { map k | k in a && k in b && a[k] == b[k] :: a[k] }

  function CommonSource(a: Source, b: Source): Source {
    if a == b then a
    else Source(Agreed(a.service, b.service), Agreed(a.fleet, b.fleet),
                if a.hostCount.Some? && b.hostCount.Some? then Some(a.hostCount.value + b.hostCount.value) else None,
                Agreed(a.host, b.host), CommonTags(a.tags, b.tags))
  }

  predicate PackageLess(a: (Text, Text), b: (Text, Text))
      { if a.0 != b.0 then LexLess(a.0, b.0) else LexLess(a.1, b.1) }

  predicate PackagesLess(a: seq<(Text, Text)>, b: seq<(Text, Text)>) {
    if b == [] then false
    else if a == [] then true
    else if a[0] != b[0] then PackageLess(a[0], b[0])
    else PackagesLess(a[1..], b[1..])
  }

  function MergeRuleset(a: Option<Ruleset>, b: Option<Ruleset>): Option<Ruleset> {
    if a.None? || b.None? then None else if PackagesLess(b.value.packages, a.value.packages) then b else a
  }

  lemma PackageTrichotomy(a: (Text, Text), b: (Text, Text))
    ensures a == b || PackageLess(a, b) || PackageLess(b, a)
    ensures !(PackageLess(a, b) && PackageLess(b, a))
  {
    hide LexLess;
    LexTrichotomy(a.0, b.0);
    LexTrichotomy(a.1, b.1);
    LexAsymmetric(a.0, b.0);
    LexAsymmetric(a.1, b.1);
    assert a == (a.0, a.1) && b == (b.0, b.1);
  }

  lemma {:induction false} PackagesTrichotomy(a: seq<(Text, Text)>, b: seq<(Text, Text)>)
    ensures a == b || PackagesLess(a, b) || PackagesLess(b, a)
    ensures !(PackagesLess(a, b) && PackagesLess(b, a))
  {
    hide PackageLess;
    if a != [] && b != [] {
      PackageTrichotomy(a[0], b[0]);
      if a[0] == b[0] {
        PackagesTrichotomy(a[1..], b[1..]);
        assert a == [a[0]] + a[1..] && b == [b[0]] + b[1..];
      }
    }
  }

  // ---------------------------------------------------------------- presence churn

  function SpanOf(d: Document): nat { if d.churn.Some? then d.churn.value.span else 0 }

  predicate Exhaustive(s: Stats) { s.tailCount == 0 && s.tailUnique == 0 }

  function TopKChurn(entries: seq<TopKEntry>, id: TemplateId): Option<Churn> {
    if entries == [] then None else if entries[0].id == id then Some(entries[0].churn) else TopKChurn(entries[1..], id)
  }

  function ReservoirChurn(entries: seq<ReservoirEntry>, id: TemplateId): Option<Churn> {
    if entries == [] then None else if entries[0].id == id then Some(entries[0].churn)
        else ReservoirChurn(entries[1..], id)
  }

  /** A template's churn in a document: as retained, or what its absence says over the document's span. */
  function ElementOf(d: Document, id: TemplateId): Churn {
    var top, res := TopKChurn(d.stats.topK, id), ReservoirChurn(d.stats.reservoir, id);
    if top.Some? then top.value else if res.Some? then res.value else UnretainedRange(SpanOf(d), Exhaustive(d.stats))
  }

  /** The time-ordered product over a disjoint pair, the symmetric join otherwise. */
  function FoldElements(a: Document, b: Document, order: WindowOrder, id: TemplateId): Churn {
    match order
    case LhsEarlier => ComposeChurn(ElementOf(a, id), ElementOf(b, id))
    case RhsEarlier => ComposeChurn(ElementOf(b, id), ElementOf(a, id))
    case Unordered => JoinChurn(ElementOf(a, id), ElementOf(b, id))
  }

  function FoldTopK(entries: seq<TopKEntry>, a: Document, b: Document, order: WindowOrder): (r: seq<TopKEntry>)
    ensures |r| == |entries| && forall i :: 0 <= i < |r| ==>
        r[i] == entries[i].(churn := FoldElements(a, b, order, entries[i].id))
  {
    seq(|entries|, i requires 0 <= i < |entries| => entries[i].(churn := FoldElements(a, b, order, entries[i].id)))
  }

  function FoldReservoir(entries: seq<ReservoirEntry>, a: Document, b: Document,
                         order: WindowOrder): (r: seq<ReservoirEntry>)
    ensures |r| == |entries| && forall i :: 0 <= i < |r| ==>
        r[i] == entries[i].(churn := FoldElements(a, b, order, entries[i].id))
  {
    seq(|entries|, i requires 0 <= i < |entries| => entries[i].(churn := FoldElements(a, b, order, entries[i].id)))
  }

  const Transitions: Churn -> nat := (c: Churn) => c.transitions

  const Indeterminate: Churn -> nat := (c: Churn) => c.indeterminate

  const HasChurn: Churn -> nat := (c: Churn) => if c.transitions > 0 then 1 else 0

  const TopKChurnOf: TopKEntry -> Churn := (e: TopKEntry) => e.churn

  const ReservoirChurnOf: ReservoirEntry -> Churn := (e: ReservoirEntry) => e.churn

  function RowChurns(s: Stats): seq<Churn> { MapSeq(s.topK, TopKChurnOf) + MapSeq(s.reservoir, ReservoirChurnOf) }

  function Summary(s: Stats, a: Document, b: Document, order: WindowOrder): ChurnSummary {
    var rows := RowChurns(s);
    ChurnSummary(if order == Unordered then Max(SpanOf(a), SpanOf(b)) else SpanOf(a) + SpanOf(b),
                 Sum(rows, HasChurn), Sum(rows, Transitions), Sum(rows, Indeterminate))
  }

  function FoldPresence(out: Document, a: Document, b: Document, order: WindowOrder): Document {
    if SpanOf(a) == 0 && SpanOf(b) == 0 then out
    else
      var stats := out.stats.(topK := FoldTopK(out.stats.topK, a, b, order),
                              reservoir := FoldReservoir(out.stats.reservoir, a, b, order));
      out.(stats := stats, churn := Some(Summary(stats, a, b, order)))
  }

  // ---------------------------------------------------------------- the document

  function InputOf(d: Document): Input {
    Input(d.provenance, if d.envelope.Some?
        then Some(WindowBounds(d.envelope.value.startIso, d.envelope.value.endIso)) else None,
          d.source, d.lines, d.coordinate)
  }

  /** Everything compose leaves to others: salience, n-gram ids and the rounded number text. */
  datatype Context = Context(composer: Text, salience: Salience, idOf: IdOf, ecma: nat -> Text)

  ghost predicate CubesCompose(a: Document, b: Document)
      { a.cube.Some? && b.cube.Some? ==> Composable(a.cube.value, b.cube.value) }

  /** The members merged by their own rules. */
  datatype Parts = Parts(envelope: Option<Envelope>, ruleset: Option<Ruleset>, source: Source, stats: Stats,
                         provenance: seq<Entry>,
                         coordinate: Option<Coordinate>, behavior: Option<Behavior>, cube: Option<CubeBlock>)

  ghost function MergedCube(a: Document, b: Document): Option<CubeBlock>
    requires CubesCompose(a, b)
  {
    if a.cube.Some? && b.cube.Some? then Some(ComposeBlock(a.cube.value, b.cube.value)) else None
  }

  ghost function MergedParts(a: Document, b: Document, ctx: Context): (p: Parts)
    requires Accepted(a.envelope) && Accepted(b.envelope) && CubesCompose(a, b)
    ensures p.envelope == ComposedEnvelope(a.envelope, b.envelope) && p.ruleset == MergeRuleset(a.ruleset, b.ruleset)
    ensures p.source == CommonSource(a.source, b.source)
    ensures p.stats == ComposedStats(a.stats, b.stats, a.lines + b.lines, ctx.salience, a.cube.Some? && b.cube.Some?)
    ensures p.provenance == MergedProvenance(InputOf(a), InputOf(b), ctx.ecma)
    ensures p.coordinate == MergedCoordinate(a.coordinate, b.coordinate, ctx.ecma)
    ensures p.behavior == MergedBehavior(a.behavior, b.behavior, ctx.idOf) && p.cube == MergedCube(a, b)
  {
    Parts(ComposedEnvelope(a.envelope, b.envelope), MergeRuleset(a.ruleset, b.ruleset),
          CommonSource(a.source, b.source),
          ComposedStats(a.stats, b.stats, a.lines + b.lines, ctx.salience, a.cube.Some? && b.cube.Some?),
          MergedProvenance(InputOf(a), InputOf(b), ctx.ecma), MergedCoordinate(a.coordinate, b.coordinate, ctx.ecma),
          MergedBehavior(a.behavior, b.behavior, ctx.idOf), MergedCube(a, b))
  }

  function Assemble(a: Document, b: Document, parts: Parts, composer: Text): Document {
    Document(a.maxTextBytes, composer, CarryIdentifier(a.canonicalizationVersion, b.canonicalizationVersion),
             CarryIdentifier(a.retentionProfile, b.retentionProfile), parts.ruleset,
             if a.transport.Some? && a.transport == b.transport then a.transport else None,
             parts.envelope, a.lines + b.lines, parts.source, parts.stats, None, Some(parts.provenance),
                 parts.coordinate,
             parts.behavior, parts.cube)
  }

  ghost function Assembled(a: Document, b: Document, ctx: Context): Document
    requires Accepted(a.envelope) && Accepted(b.envelope) && CubesCompose(a, b)
  {
    Assemble(a, b, MergedParts(a, b, ctx), ctx.composer)
  }

  ghost function Compose(a: Document, b: Document, ctx: Context): Outcome
    requires CubesCompose(a, b)
  {
    if Gate(a, b).Some? then Refused(Gate(a, b).value)
    else Composed(WithPresence(a, b, ctx))
  }

  ghost function WithPresence(a: Document, b: Document, ctx: Context): Document
    requires Gate(a, b).None? && CubesCompose(a, b)
  {
    GateAccepts(a, b);
    FoldPresence(Assembled(a, b, ctx), a, b, OrderOf(a.envelope, b.envelope))
  }

  // ---------------------------------------------------------------- commutativity

  lemma GateCommutes(a: Document, b: Document)
    ensures Gate(a, b) == Gate(b, a)
  {
    hide Accepted;
  }

  lemma SourcesCommute(a: Source, b: Source)
    ensures CommonSource(a, b) == CommonSource(b, a)
  {
    assert CommonTags(a.tags, b.tags) == CommonTags(b.tags, a.tags);
  }

  lemma RulesetsCommute(a: Document, b: Document)
    requires Gate(a, b).None?
    ensures MergeRuleset(a.ruleset, b.ruleset) == MergeRuleset(b.ruleset, a.ruleset)
  {
    hide Accepted, PackagesLess;
    if a.ruleset.Some? && b.ruleset.Some? {
      PackagesTrichotomy(a.ruleset.value.packages, b.ruleset.value.packages);
    }
  }

  lemma CubesCommute(a: Document, b: Document)
    requires CubesCompose(a, b)
    ensures CubesCompose(b, a)
    ensures a.cube.Some? && b.cube.Some?
        ==> ComposeBlock(a.cube.value, b.cube.value) == ComposeBlock(b.cube.value, a.cube.value)
  {
    hide Composable, ComposeBlock;
    if a.cube.Some? && b.cube.Some? { ComposeCommutes(a.cube.value, b.cube.value); }
  }

  /** The members merged one by one, apart from the statistics and the cube. */
  lemma MembersCommute(a: Document, b: Document, ctx: Context)
    requires Gate(a, b).None?
    ensures Accepted(a.envelope) && Accepted(b.envelope)
        && ComposedEnvelope(a.envelope, b.envelope) == ComposedEnvelope(b.envelope, a.envelope)
    ensures MergeRuleset(a.ruleset, b.ruleset) == MergeRuleset(b.ruleset, a.ruleset)
    ensures CommonSource(a.source, b.source) == CommonSource(b.source, a.source)
    ensures MergedProvenance(InputOf(a), InputOf(b), ctx.ecma) == MergedProvenance(InputOf(b), InputOf(a), ctx.ecma)
    ensures MergedCoordinate(a.coordinate, b.coordinate, ctx.ecma)
        == MergedCoordinate(b.coordinate, a.coordinate, ctx.ecma)
    ensures MergedBehavior(a.behavior, b.behavior, ctx.idOf) == MergedBehavior(b.behavior, a.behavior, ctx.idOf)
            <==> BehaviorsAgree(a.behavior, b.behavior, ctx.idOf)
  {
    hide *;
    GateAccepts(a, b);
    RulesetsCommute(a, b);
    SourcesCommute(a.source, b.source);
    EnvelopesCommute(a.envelope, b.envelope);
    ProvenanceCommutes(InputOf(a), InputOf(b), ctx.ecma);
    CoordinatesCommute(a.coordinate, b.coordinate, ctx.ecma);
    BehaviorsCommuteExactly(a.behavior, b.behavior, ctx.idOf);
  }

  lemma SameParts(p: Parts, q: Parts)
    requires p.envelope == q.envelope && p.ruleset == q.ruleset && p.source == q.source && p.stats == q.stats
    requires p.provenance == q.provenance && p.coordinate == q.coordinate && p.behavior == q.behavior
        && p.cube == q.cube
    ensures p == q
  {}

  lemma PartsCommute(a: Document, b: Document, ctx: Context)
    requires Gate(a, b).None? && Accepted(a.envelope) && Accepted(b.envelope)
    requires CubesCompose(a, b) && CubesCompose(b, a)
    ensures MergedParts(a, b, ctx) == MergedParts(b, a, ctx) <==> BehaviorsAgree(a.behavior, b.behavior, ctx.idOf)
  {
    hide *;
    MembersCommute(a, b, ctx);
    MergedCubesCommute(a, b);
    StatsCommute(a.stats, b.stats, a.lines + b.lines, ctx.salience, a.cube.Some? && b.cube.Some?);
    if BehaviorsAgree(a.behavior, b.behavior, ctx.idOf) { SameParts(MergedParts(a, b, ctx), MergedParts(b, a, ctx)); }
  }

  lemma MergedCubesCommute(a: Document, b: Document)
    requires CubesCompose(a, b) && CubesCompose(b, a)
    ensures MergedCube(a, b) == MergedCube(b, a)
  {
    CubesCommute(a, b);
    hide ComposeBlock, Composable;
  }

  lemma AssemblyCommutes(a: Document, b: Document, parts: Parts, composer: Text)
    requires a.maxTextBytes == b.maxTextBytes
    ensures Assemble(a, b, parts, composer) == Assemble(b, a, parts, composer)
  {}

  lemma AssembledCommutes(a: Document, b: Document, ctx: Context)
    requires Gate(a, b).None? && Accepted(a.envelope) && Accepted(b.envelope)
    requires CubesCompose(a, b) && CubesCompose(b, a)
    ensures Assembled(a, b, ctx).behavior == MergedParts(a, b, ctx).behavior
        && Assembled(b, a, ctx).behavior == MergedParts(b, a, ctx).behavior
    ensures MergedParts(a, b, ctx) == MergedParts(b, a, ctx) ==> Assembled(a, b, ctx) == Assembled(b, a, ctx)
  {
    GateEqualText(a, b);
    AssemblyCommutes(a, b, MergedParts(a, b, ctx), ctx.composer);
    AssembledBehavior(a, b, MergedParts(a, b, ctx), ctx.composer);
    AssembledBehavior(b, a, MergedParts(b, a, ctx), ctx.composer);
    hide Gate, CubesCompose, MergedParts, Assemble, Accepted;
  }

  lemma AssembledBehavior(a: Document, b: Document, parts: Parts, composer: Text)
    ensures Assemble(a, b, parts, composer).behavior == parts.behavior
  {}

  lemma GateEqualText(a: Document, b: Document)
    requires Gate(a, b).None?
    ensures a.maxTextBytes == b.maxTextBytes
  {
    hide Accepted;
  }

  lemma ElementsCommute(a: Document, b: Document, order: WindowOrder, id: TemplateId)
    ensures FoldElements(a, b, order, id) == FoldElements(b, a, Flipped(order), id)
  {
    hide ElementOf, ComposeChurn;
    JoinIsCommutativeMonoid(ElementOf(a, id), ElementOf(b, id), NO_CHURN);
  }

  lemma PresenceCommutes(out: Document, a: Document, b: Document, order: WindowOrder)
    ensures FoldPresence(out, a, b, order) == FoldPresence(out, b, a, Flipped(order))
  {
    hide FoldElements;
    forall id ensures FoldElements(a, b, order, id) == FoldElements(b, a, Flipped(order), id)
        { ElementsCommute(a, b, order, id); }
    assert FoldTopK(out.stats.topK, a, b, order) == FoldTopK(out.stats.topK, b, a, Flipped(order));
    assert FoldReservoir(out.stats.reservoir, a, b, order) == FoldReservoir(out.stats.reservoir, b, a, Flipped(order));
    hide RowChurns;
  }

  /** Composition is commutative as a whole document: the pair is refused by the same gate either way round,
      or composes to the same document exactly when no n-gram the merge keeps is under a collided id. */
  lemma DocumentsCommute(a: Document, b: Document, ctx: Context)
    requires CubesCompose(a, b)
    ensures CubesCompose(b, a) && Gate(a, b) == Gate(b, a)
    ensures Compose(a, b, ctx) == Compose(b, a, ctx) <==>
        Gate(a, b).Some? || BehaviorsAgree(a.behavior, b.behavior, ctx.idOf)
  {
    GateCommutes(a, b);
    CubesCommute(a, b);
    if Gate(a, b).None? { PresentCommutes(a, b, ctx); }
    hide Gate, WithPresence, CubesCompose, BehaviorsAgree;
  }

  /** Documents whose n-gram tables share no collided id compose to the same document either way round. */
  lemma CollisionFreeDocumentsCommute(a: Document, b: Document, ctx: Context)
    requires CubesCompose(a, b) && NoCollision(Entries(a.behavior), Entries(b.behavior), ctx.idOf)
    ensures CubesCompose(b, a) && Compose(a, b, ctx) == Compose(b, a, ctx)
  {
    hide *;
    BehaviorsCommute(a.behavior, b.behavior, ctx.idOf);
    DocumentsCommute(a, b, ctx);
  }

  lemma PresentCommutes(a: Document, b: Document, ctx: Context)
    requires Gate(a, b).None? && Gate(b, a).None? && CubesCompose(a, b) && CubesCompose(b, a)
    ensures WithPresence(a, b, ctx) == WithPresence(b, a, ctx) <==> BehaviorsAgree(a.behavior, b.behavior, ctx.idOf)
  {
    GateAccepts(a, b);
    PartsCommute(a, b, ctx);
    AssembledCommutes(a, b, ctx);
    MembersCommute(a, b, ctx);
    MergedBehaviorIs(a, b, ctx);
    MergedBehaviorIs(b, a, ctx);
    hide Gate, CubesCompose, Assembled, FoldPresence, Accepted, OrderOf, BehaviorsAgree, MergedParts, MergedBehavior;
    OrderFlips(a.envelope, b.envelope);
    PresenceCommutes(Assembled(a, b, ctx), a, b, OrderOf(a.envelope, b.envelope));
    PresenceKeepsMass(Assembled(a, b, ctx), a, b, OrderOf(a.envelope, b.envelope));
    PresenceKeepsMass(Assembled(b, a, ctx), b, a, OrderOf(b.envelope, a.envelope));
  }

  lemma MergedBehaviorIs(a: Document, b: Document, ctx: Context)
    requires Accepted(a.envelope) && Accepted(b.envelope) && CubesCompose(a, b)
    ensures MergedParts(a, b, ctx).behavior == MergedBehavior(a.behavior, b.behavior, ctx.idOf)
  {
    hide MergedBehavior, CubesCompose, Accepted;
  }

  // ---------------------------------------------------------------- conservation

  /** Folding presence churn moves no count. */
  lemma PresenceKeepsMass(out: Document, a: Document, b: Document, order: WindowOrder)
    ensures Mass(FoldPresence(out, a, b, order).stats) == Mass(out.stats)
        && FoldPresence(out, a, b, order).lines == out.lines
    ensures FoldPresence(out, a, b, order).cube == out.cube && FoldPresence(out, a, b, order).behavior == out.behavior
  {
    hide FoldElements, RowChurns;
    SameSums(FoldTopK(out.stats.topK, a, b, order), out.stats.topK, TopKCount, TopKCount);
    SameSums(FoldReservoir(out.stats.reservoir, a, b, order), out.stats.reservoir, ReservoirCount, ReservoirCount);
  }

  ghost predicate CubeCounts(cube: Option<CubeBlock>, lines: nat) {
    cube.Some? ==> BlockInRange(cube.value) && ApexCount(cube.value) == lines
  }

  ghost predicate CountsEveryLine(d: Document) { Mass(d.stats) == d.lines && CubeCounts(d.cube, d.lines) }

  /** A composed document counts every line its inputs counted, as lines observed, as the sum of top_k,
      reservoir and tail, and at the all-star cell of its cube. */
  lemma ComposedCountsEveryLine(a: Document, b: Document, ctx: Context)
    requires CubesCompose(a, b) && Compose(a, b, ctx).Composed? && CountsEveryLine(a) && CountsEveryLine(b)
    ensures CountsEveryLine(Compose(a, b, ctx).document) && Compose(a, b, ctx).document.lines == a.lines + b.lines
  {
    hide Gate, CubesCompose, WithPresence, Mass, CubeCounts;
    PresentCounts(a, b, ctx);
  }

  lemma MergedCubeCounts(a: Document, b: Document)
    requires CubesCompose(a, b) && CubeCounts(a.cube, a.lines) && CubeCounts(b.cube, b.lines)
    ensures CubeCounts(MergedCube(a, b), a.lines + b.lines)
  {
    hide ApexCount, BlockInRange, ComposeBlock, Composable;
    if a.cube.Some? && b.cube.Some? { ComposedCountsLines(a.cube.value, b.cube.value); }
  }

  lemma PresentCounts(a: Document, b: Document, ctx: Context)
    requires Gate(a, b).None? && CubesCompose(a, b) && CubeCounts(a.cube, a.lines) && CubeCounts(b.cube, b.lines)
    ensures var d := WithPresence(a, b, ctx);
            Mass(d.stats) == Mass(a.stats) + Mass(b.stats) && d.lines == a.lines + b.lines
                && CubeCounts(d.cube, a.lines + b.lines)
  {
    GateAccepts(a, b);
    AssembledCounts(a, b, ctx);
    MergedCubeCounts(a, b);
    hide Gate, CubesCompose, Assembled, FoldPresence, Accepted, OrderOf, Mass, CubeCounts, MergedCube;
    PresenceKeepsMass(Assembled(a, b, ctx), a, b, OrderOf(a.envelope, b.envelope));
  }

  lemma AssembledCounts(a: Document, b: Document, ctx: Context)
    requires Accepted(a.envelope) && Accepted(b.envelope) && CubesCompose(a, b)
    ensures Mass(Assembled(a, b, ctx).stats) == Mass(a.stats) + Mass(b.stats)
        && Assembled(a, b, ctx).lines == a.lines + b.lines
    ensures Assembled(a, b, ctx).cube == MergedCube(a, b)
  {
    hide *;
    ComposeConserves(a.stats, b.stats, a.lines + b.lines, ctx.salience, a.cube.Some? && b.cube.Some?);
    AssembledStats(a, b, ctx);
  }

  lemma AssembledStats(a: Document, b: Document, ctx: Context)
    requires Accepted(a.envelope) && Accepted(b.envelope) && CubesCompose(a, b)
    ensures Assembled(a, b, ctx).stats == MergedParts(a, b, ctx).stats
        && Assembled(a, b, ctx).lines == a.lines + b.lines
    ensures Assembled(a, b, ctx).cube == MergedCube(a, b)
  {
    hide MergedParts, Accepted, CubesCompose;
  }
}
