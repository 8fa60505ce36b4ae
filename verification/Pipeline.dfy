/** From windows to archives: closed windows as documents, and documents composed in any tree. */
module Pipeline {
  import opened Options
  import opened Identifiers
  import opened Orders
  import opened Blocks
  import opened Interning
  import opened Joints
  import opened Composition
  import opened CubeLines
  import opened ComposeStats
  import opened StatsLaws
  import opened ComposeDocument
  import opened WindowState
  import opened WindowClose
  import opened WindowDocument
  import opened WindowEngine
  import Diff
  import DiffLaws
  import Divergences
  import Latency

  /** A closed window as a document; `rest` brings every member that counts no line. */
  function DocumentOf(closed: ClosedWindow, rest: Document): Document {
    rest.(lines := closed.lines, stats := closed.stats, cube := Some(closed.cube), behavior := closed.behavior)
  }

  /** The document of a window that accounts for its lines counts every one of them. */
  lemma ClosedCountsEveryLine(closed: ClosedWindow, rest: Document, lines: nat, buckets: map<TemplateId, Bucket>)
    requires Accounted(closed, lines, buckets)
    ensures CountsEveryLine(DocumentOf(closed, rest)) && DocumentOf(closed, rest).lines == lines
  {
    hide Mass, BlockInRange, ApexCount, TopKIds, ReservoirIds;
  }

  /** Windows composed pair by pair, in whatever order. */
  datatype Archive = Leaf(closed: ClosedWindow, rest: Document) | Pair(left: Archive, right: Archive)

  ghost predicate Yields(t: Archive, ctx: Context, d: Document) {
    match t
    case Leaf(closed, rest) => d == DocumentOf(closed, rest)
    case Pair(left, right) =>
      exists a, b :: Yields(left, ctx, a) && Yields(right, ctx, b) && Composes(a, b, ctx, d)
  }

  ghost predicate Composes(a: Document, b: Document, ctx: Context, d: Document) {
    CubesCompose(a, b) && Compose(a, b, ctx) == Composed(d)
  }

  /** Every window of it was closed by an engine, which accounts for its lines. */
  ghost predicate Recorded(t: Archive) {
    match t
    case Leaf(closed, _) => exists buckets :: Accounted(closed, closed.lines, buckets)
    case Pair(left, right) => Recorded(left) && Recorded(right)
  }

  function LinesOf(t: Archive): nat {
    match t
    case Leaf(closed, _) => closed.lines
    case Pair(left, right) => LinesOf(left) + LinesOf(right)
  }

  /** However closed windows are composed, the document counts every line they ingested: as lines observed, as
      top_k, reservoir and tail, and at the all-star cell of its cube. */
  lemma {:induction false} EveryIngestedLineCounted(t: Archive, ctx: Context, d: Document)
    requires Yields(t, ctx, d) && Recorded(t)
    ensures CountsEveryLine(d) && d.lines == LinesOf(t)
  {
    hide CountsEveryLine, Compose, CubesCompose, Accounted;
    match t {
      case Leaf(closed, rest) =>
        var buckets :| Accounted(closed, closed.lines, buckets);
        ClosedCountsEveryLine(closed, rest, closed.lines, buckets);
      case Pair(left, right) =>
        var a, b :| Yields(left, ctx, a) && Yields(right, ctx, b) && Composes(a, b, ctx, d);
        EveryIngestedLineCounted(left, ctx, a);
        EveryIngestedLineCounted(right, ctx, b);
        ComposedCountsEveryLine(a, b, ctx);
    }
  }

  // ---------------------------------------------------------------- closed windows compared

  /** A closed window as one side of a comparison. */
  function SideOf(closed: ClosedWindow, rest: Document, ordinals: seq<seq<Latency.OrdinalHistogram>>): Diff.Side {
    Diff.Side(DocumentOf(closed, rest), None, ordinals)
  }

  /** What the engine closes lists every template once: it is well-formed for every comparison. */
  lemma ClosedIsWellFormed(closed: ClosedWindow, w: Window, rest: Document,
                           ordinals: seq<seq<Latency.OrdinalHistogram>>)
    requires closed.stats == ClosedStats(w)
    ensures DiffLaws.WellFormed(SideOf(closed, rest, ordinals))
  {
    TopKListsOnce(w);
    ReservoirListsOnce(w);
    hide ClosedTopK, ClosedReservoir, NoDuplicates;
  }

  lemma TopKListsOnce(w: Window)
    ensures NoDuplicates(MapSeq(ClosedTopK(w), DiffLaws.TopKId))
    ensures forall e :: e in ClosedTopK(w) ==> e.histograms == []
  {
    OrderedIdsAre(w.buckets);
    var ids, all := MapSeq(ClosedTopK(w), DiffLaws.TopKId), IdList(OrderedBuckets(w.buckets));
    hide OrderedBuckets, CutOf;
    forall i, j | 0 <= i < j < |ids| ensures ids[i] != ids[j] { assert all[i] != all[j]; }
  }

  lemma ReservoirListsOnce(w: Window)
    ensures NoDuplicates(MapSeq(ClosedReservoir(w), DiffLaws.ReservoirId))
  {
    AdmittedIds(w);
    hide AdmittedTo;
    assert MapSeq(ClosedReservoir(w), DiffLaws.ReservoirId) == MapSeq(AdmittedTo(w), IdOfCandidate);
  }

  lemma ComposableWithItself(cube: CubeBlock)
    requires BlockInRange(cube)
    ensures Composable(cube, cube)
  {
    InternedInRange(cube);
    var dict := InternedBase(cube).1;
    assert Elements(dict) + Elements(dict) == Elements(dict);
    FewerElements(Elements(dict), dict);
  }

  lemma SidesCompose(closed: ClosedWindow, rest: Document, ordinals: seq<seq<Latency.OrdinalHistogram>>)
    requires Composable(closed.cube, closed.cube)
    ensures CubesCompose(SideOf(closed, rest, ordinals).document, SideOf(closed, rest, ordinals).document)
  {
    hide Composable;
  }

  /** A closed window compared with itself is unchanged, whatever it ingested. */
  lemma ClosedWindowIsSilent(closed: ClosedWindow, w: Window, rest: Document,
                             ordinals: seq<seq<Latency.OrdinalHistogram>>, measures: Diff.Measures)
    requires closed.stats == ClosedStats(w) && BlockInRange(closed.cube) && Divergences.ZeroIsZero(measures.fixed)
    ensures var side := SideOf(closed, rest, ordinals);
            && CubesCompose(side.document, side.document)
            && forall d :: Diff.IsDiff(d, side, side, measures) ==> !Diff.Changed(d) && !Diff.WithholdsHistograms(d)
  {
    hide *;
    ComposableWithItself(closed.cube);
    SidesCompose(closed, rest, ordinals);
    ClosedIsWellFormed(closed, w, rest, ordinals);
    var side := SideOf(closed, rest, ordinals);
    forall d | Diff.IsDiff(d, side, side, measures) ensures !Diff.Changed(d) && !Diff.WithholdsHistograms(d) {
      DiffLaws.SelfDiffIsSilent(d, side, measures);
    }
  }
}
