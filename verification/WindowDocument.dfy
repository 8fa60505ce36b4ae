/** The document of a closed window: text capped, statistics cut, transitions walked and the cube built. */
module WindowDocument {
  import opened Options
  import opened Identifiers
  import opened Orders
  import opened Sums
  import opened Bytes
  import opened Cells
  import opened Blocks
  import opened Interning
  import opened Joints
  import opened Collapse
  import opened Composition
  import opened CubeLines
  import opened BoundedTable
  import opened Streams
  import opened Histograms
  import opened ComposeStats
  import opened StatsLaws
  import opened SalienceScores
  import opened WindowState
  import opened WindowClose
  import opened KeyCap
  import opened Transitions
  import opened WindowBehavior
  import Behaviors
  import DominantPath

  type Joint = WindowState.Joint

  datatype DocumentConfig = DocumentConfig(closing: CloseConfig, topNgrams: nat, pathSteps: nat, isLong: Text -> bool,
                                           capText: Text -> Text)

  datatype ClosedWindow = ClosedWindow(lines: nat, stats: Stats, cube: CubeBlock,
                                       behavior: Option<Behaviors.Behavior>, path: seq<TemplateId>)

  // ---------------------------------------------------------------- capping the working set

  ghost predicate BucketCapped(b: Bucket, move: Text -> Text, r: Bucket) {
    r == b.(components := r.components) && Recapped(b.components, b.components.Keys, move, r.components)
  }

  ghost predicate BucketsCapped(buckets: map<TemplateId, Bucket>, move: Text -> Text, r: map<TemplateId, Bucket>) {
    r.Keys == buckets.Keys && forall id :: id in r ==> BucketCapped(buckets[id], move, r[id])
  }

  method CapBuckets(buckets: map<TemplateId, Bucket>, isLong: Text -> bool, capText: Text -> Text)
      returns (r: map<TemplateId, Bucket>)
    ensures BucketsCapped(buckets, Recap(isLong, capText), r)
  {
    hide Recapped, Recap;
    r := map[];
    var left := buckets.Keys;
    while left != {}
      invariant left <= buckets.Keys && r.Keys == buckets.Keys - left
      invariant forall id :: id in r ==> BucketCapped(buckets[id], Recap(isLong, capText), r[id])
      decreases left
    {
      var id :| id in left;
      var components := CapKeys(buckets[id].components, isLong, capText);
      r := r[id := buckets[id].(components := components)];
      left := left - {id};
    }
  }

  lemma CappedCounts(buckets: map<TemplateId, Bucket>, move: Text -> Text, r: map<TemplateId, Bucket>)
    requires BucketsCapped(buckets, move, r)
    ensures SetSum(r.Keys, BucketCount(r)) == SetSum(buckets.Keys, BucketCount(buckets))
    ensures RolesCounted(buckets) ==> RolesCounted(r)
  {
    hide Recapped;
    SetSumSame(r.Keys, BucketCount(r), BucketCount(buckets));
  }

  lemma CappedUnique(buckets: map<TemplateId, Bucket>, move: Text -> Text, r: map<TemplateId, Bucket>,
                     r': map<TemplateId, Bucket>)
    requires BucketsCapped(buckets, move, r) && BucketsCapped(buckets, move, r')
    ensures r == r'
  {
    forall id | id in r ensures r[id] == r'[id] {
      var components := buckets[id].components;
      RecapUnique(components, move, r[id].components, r'[id].components);
    }
  }

  function LongJoint(isLong: Text -> bool): Joint -> bool { (j: Joint) => isLong(j.component) }

  function CapJoint(capText: Text -> Text): Joint -> Joint { (j: Joint) => j.(component := capText(j.component)) }

  // ---------------------------------------------------------------- the cube's rows

  function RowOf(j: Joint, base: map<Joint, nat>): BaseRow
      { BaseRow(j.level, j.component, j.role, if j in base then base[j] else 0) }

  /** A listing of the joints, each once, with its count. */
  ghost predicate Lists(rows: seq<BaseRow>, joints: seq<Joint>, base: map<Joint, nat>) {
    && NoDuplicates(joints) && Elements(joints) == base.Keys && |rows| == |joints|
    && forall i :: 0 <= i < |rows| ==> rows[i] == RowOf(joints[i], base)
  }

  method RowsOf(base: map<Joint, nat>) returns (rows: seq<BaseRow>, ghost joints: seq<Joint>)
    ensures Lists(rows, joints, base)
  {
    rows, joints := [], [];
    var left := base.Keys;
    while left != {}
      invariant left <= base.Keys && Elements(joints) == base.Keys - left && NoDuplicates(joints) && |rows| == |joints|
      invariant forall i :: 0 <= i < |rows| ==> rows[i] == RowOf(joints[i], base)
      decreases left
    {
      var j :| j in left;
      assert j !in Elements(joints);
      NewItem(joints, j);
      hide NoDuplicates, Elements;
      rows := rows + [RowOf(j, base)];
      joints := joints + [j];
      left := left - {j};
    }
  }

  lemma ListedLines(rows: seq<BaseRow>, joints: seq<Joint>, base: map<Joint, nat>)
    requires Lists(rows, joints, base)
    ensures JointLines(rows) == SetSum(base.Keys, CountOf(base)) && |rows| == |base|
  {
    SequenceSum(joints, CountOf(base));
    assert forall j :: j in joints ==> j in Elements(joints);
    SameSums(rows, joints, RowCount, CountOf(base));
    assert |base| == |base.Keys|;
  }

  lemma {:induction false} ImageSize<T, U>(s: set<T>, g: T -> U)
    ensures |Image(s, g)| <= |s|
    decreases |s|
  {
    if s == {} {
      assert Image(s, g) == {};
    } else {
      var x :| x in s;
      ImageSize(s - {x}, g);
      assert Image(s, g) == Image(s - {x}, g) + {g(x)};
    }
  }

  const ComponentOf: BaseRow -> Text := (r: BaseRow) => r.component

  lemma RowsFit(rows: seq<BaseRow>)
    requires |rows| <= STAR
    ensures FitsIds(rows)
  {
    var components := MapSeq(rows, ComponentOf);
    forall t | t in LabelsOf(rows) ensures t in components {
      var r :| r in rows && r.component == t;
      var i :| 0 <= i < |rows| && rows[i] == r;
      assert components[i] == t;
    }
    FewerElements(LabelsOf(rows), components);
  }

  ghost function CountFor(t: Tuple, base: map<Joint, nat>): Joint -> nat { (j: Joint) => CountAt(t, RowOf(j, base)) }

  lemma ListedJoint(rows: seq<BaseRow>, joints: seq<Joint>, base: map<Joint, nat>, t: Tuple)
    requires Lists(rows, joints, base)
    ensures JointCount(rows, t) == SetSum(base.Keys, CountFor(t, base))
    ensures Names(rows, t) <==> exists j :: j in base && TupleOf(RowOf(j, base)) == t
  {
    SequenceSum(joints, CountFor(t, base));
    SameSums(rows, joints, At(t), CountFor(t, base));
    if Names(rows, t) {
      var i :| 0 <= i < |rows| && TupleOf(rows[i]) == t;
      assert joints[i] in Elements(joints);
    }
    if j :| j in base && TupleOf(RowOf(j, base)) == t {
      assert j in Elements(joints);
      var i :| 0 <= i < |joints| && joints[i] == j;
      assert rows[i] in rows;
    }
  }

  /** Two listings of one table hold one joint, whatever order each was read in. */
  lemma ListingsAgree(rows: seq<BaseRow>, joints: seq<Joint>, rows': seq<BaseRow>, joints': seq<Joint>,
                      base: map<Joint, nat>)
    requires Lists(rows, joints, base) && Lists(rows', joints', base)
    ensures SameJoint(rows, rows')
  {
    hide JointCount, Names, Lists, CountFor;
    forall t ensures JointCount(rows, t) == JointCount(rows', t) && (Names(rows, t) <==> Names(rows', t)) {
      ListedJoint(rows, joints, base, t);
      ListedJoint(rows', joints', base, t);
    }
  }

  /** A window's cube: the closed cube of its joint, components capped. */
  ghost predicate CubeFor(cube: CubeBlock, base: map<Joint, nat>, config: DocumentConfig) {
    exists capped: map<Joint, nat>, joints: seq<Joint>, rows: seq<BaseRow> ::
      Recapped(base, base.Keys, Recap(LongJoint(config.isLong), CapJoint(config.capText)), capped)
          && Lists(rows, joints, capped)
      && FitsIds(rows) && cube == BuildRows(rows, UNCOLLAPSED)
  }

  /** A window's joint has one cube. */
  lemma CubeUnique(cube: CubeBlock, cube': CubeBlock, base: map<Joint, nat>, config: DocumentConfig)
    requires CubeFor(cube, base, config) && CubeFor(cube', base, config)
    ensures cube == cube'
  {
    var move := Recap(LongJoint(config.isLong), CapJoint(config.capText));
    var capped: map<Joint, nat>, joints: seq<Joint>, rows: seq<BaseRow> :|
      Recapped(base, base.Keys, move, capped) && Lists(rows, joints, capped) && FitsIds(rows)
          && cube == BuildRows(rows, UNCOLLAPSED);
    var capped': map<Joint, nat>, joints': seq<Joint>, rows': seq<BaseRow> :|
      Recapped(base, base.Keys, move, capped') && Lists(rows', joints', capped') && FitsIds(rows')
          && cube' == BuildRows(rows', UNCOLLAPSED);
    hide Recapped, Lists, FitsIds, BuildRows, SameJoint;
    RecapUnique(base, move, capped, capped');
    ListingsAgree(rows, joints, rows', joints', capped);
    SameJointSameCube(rows, rows', UNCOLLAPSED);
  }

  lemma CubeIs(cube: CubeBlock, base: map<Joint, nat>, capped: map<Joint, nat>, joints: seq<Joint>,
               rows: seq<BaseRow>, config: DocumentConfig)
    requires Recapped(base, base.Keys, Recap(LongJoint(config.isLong), CapJoint(config.capText)), capped)
        && Lists(rows, joints, capped)
    requires FitsIds(rows) && cube == BuildRows(rows, UNCOLLAPSED)
    ensures CubeFor(cube, base, config)
  {
    hide Recapped, Lists, FitsIds, BuildRows, Recap;
  }

  method BuildCube(base: map<Joint, nat>, config: DocumentConfig) returns (cube: CubeBlock)
    requires |base| <= STAR
    ensures CubeFor(cube, base, config) && BlockInRange(cube) && ApexCount(cube) == SetSum(base.Keys, CountOf(base))
  {
    hide *;
    ghost var move := Recap(LongJoint(config.isLong), CapJoint(config.capText));
    var capped := CapKeys(base, LongJoint(config.isLong), CapJoint(config.capText));
    var rows;
    ghost var joints;
    rows, joints := RowsOf(capped);
    RecapKeepsTotal(base, move, capped);
    ListedLines(rows, joints, capped);
    RecapSize(base, move, capped);
    RowsFit(rows);
    BuiltCountsLines(rows, UNCOLLAPSED);
    cube := BuildClosedCube(rows);
    CubeIs(cube, base, capped, joints, rows, config);
  }

  lemma RecapSize(base: map<Joint, nat>, move: Joint -> Joint, r: map<Joint, nat>)
    requires Recapped(base, base.Keys, move, r)
    ensures |r| <= |base|
  {
    ImageSize(base.Keys, move);
    assert |r| == |r.Keys| && |base| == |base.Keys|;
  }

  // ---------------------------------------------------------------- the transition analysis

  predicate NeedsGraph(total: nat, config: DocumentConfig)
      { (config.closing.caps.size > 0 || config.topNgrams > 0) && total > 0 }

  /** The graph, when it is needed at all. */
  ghost predicate GraphFor(graph: Graph, counts: map<NGramKey, nat>, total: nat, config: DocumentConfig) {
    if NeedsGraph(total, config) then GraphIs(graph, counts, counts.Keys) else graph == map[]
  }

  ghost predicate SurprisesAre(graph: Graph, index: map<TemplateId, InternalId>, needed: bool,
                               surprise: map<TemplateId, nat>) {
    if !needed then surprise == map[]
    else surprise.Keys == index.Keys && forall id :: id in surprise ==> SurpriseIs(graph, index[id], surprise[id])
  }

  lemma {:induction false} SumPositive<T>(s: set<T>, f: T -> nat, x: T)
    requires x in s && f(x) > 0
    ensures SetSum(s, f) > 0
  {
    SetSumRemove(s, x, f);
  }

  lemma GraphPositive(graph: Graph, counts: map<NGramKey, nat>)
    requires GraphIs(graph, counts, counts.Keys) && forall k :: k in counts ==> counts[k] > 0
    ensures Positive(graph)
  {
    forall from, to | from in graph && to in graph[from] ensures graph[from][to] > 0 {
      assert SuccessorsAre(graph[from], counts, counts.Keys, from);
      var key :| key in KeysFrom(counts.Keys, from) && Target(key) == to;
      SumPositive(KeysBetween(counts.Keys, from, to), CountOf(counts), key);
    }
  }

  lemma GraphUnique(graph: Graph, graph': Graph, counts: map<NGramKey, nat>)
    requires GraphIs(graph, counts, counts.Keys) && GraphIs(graph', counts, counts.Keys)
    ensures graph == graph'
  {
    forall from | from in graph ensures graph[from] == graph'[from] {
      assert SuccessorsAre(graph[from], counts, counts.Keys, from)
          && SuccessorsAre(graph'[from], counts, counts.Keys, from);
    }
  }

  method AnalyzeTransitions(counts: map<NGramKey, nat>, total: nat, index: map<TemplateId, InternalId>, nodes: nat,
                            config: DocumentConfig)
    returns (graph: Graph, surprise: map<TemplateId, nat>)
    requires forall id :: id in index ==> index[id] < nodes
    ensures GraphFor(graph, counts, total, config) && SurprisesAre(graph, index, NeedsGraph(total, config), surprise)
  {
    hide SurpriseIs, GraphIs;
    graph, surprise := map[], map[];
    if !NeedsGraph(total, config) {
      return;
    }
    graph := BuildTransitions(counts);
    var incoming := IncomingSurprise(graph, nodes);
    surprise := map id | id in index :: incoming[index[id]];
  }

  // ---------------------------------------------------------------- the dominant path

  /** How often each template of the window occurred, by internal id. */
  function CountsById(buckets: map<TemplateId, Bucket>, templates: seq<TemplateId>): map<InternalId, nat> {
    map i: InternalId | i < |templates| && templates[i] in buckets :: buckets[templates[i]].count
  }

  ghost predicate PathFor(path: seq<TemplateId>, graph: Graph, buckets: map<TemplateId, Bucket>,
                          templates: seq<TemplateId>, total: nat, config: DocumentConfig) {
    if config.topNgrams == 0 || total == 0 || config.pathSteps == 0 || buckets == map[] then path == []
    else exists start: InternalId, ids: seq<InternalId> ::
      IsStart(start, CountsById(buckets, templates))
          && DominantPath.IsDominantPath(ids, graph, |templates|, start, config.pathSteps)
      && IsNamed(path, ids, templates)
  }

  ghost predicate IsStart(start: InternalId, counts: map<InternalId, nat>) {
    if counts == map[] then start == 0 else DominantPath.IsBusiest(counts, start)
  }

  ghost predicate IsNamed(path: seq<TemplateId>, ids: seq<InternalId>, templates: seq<TemplateId>) {
    |path| == |ids| && forall i :: 0 <= i < |ids| ==> ids[i] < |templates| && path[i] == templates[ids[i]]
  }

  method PathOf(graph: Graph, buckets: map<TemplateId, Bucket>, templates: seq<TemplateId>, total: nat,
                config: DocumentConfig) returns (path: seq<TemplateId>)
    requires Positive(graph) && forall id :: id in buckets ==> buckets[id].count > 0
    ensures PathFor(path, graph, buckets, templates, total, config)
  {
    path := [];
    if config.topNgrams == 0 || total == 0 || config.pathSteps == 0 || buckets == map[] {
      return;
    }
    var start := DominantPath.Busiest(CountsById(buckets, templates));
    var ids := DominantPath.BuildDominantPath(graph, |templates|, start, config.pathSteps);
    PathIds(ids, graph, |templates|, start, config.pathSteps);
    for i := 0 to |ids|
      invariant |path| == i && forall j :: 0 <= j < i ==> path[j] == templates[ids[j]]
    {
      path := path + [templates[ids[i]]];
    }
    assert IsStart(start, CountsById(buckets, templates)) && IsNamed(path, ids, templates);
  }

  lemma PathIds(ids: seq<InternalId>, graph: Graph, nodes: nat, start: InternalId, steps: nat)
    requires DominantPath.IsDominantPath(ids, graph, nodes, start, steps)
    ensures forall i :: 0 <= i < |ids| ==> ids[i] < nodes
  {}

  lemma PathUnique(p: seq<TemplateId>, p': seq<TemplateId>, graph: Graph, buckets: map<TemplateId, Bucket>,
                   templates: seq<TemplateId>, total: nat, config: DocumentConfig)
    requires PathFor(p, graph, buckets, templates, total, config)
        && PathFor(p', graph, buckets, templates, total, config)
    ensures p == p'
  {
    if !(config.topNgrams == 0 || total == 0 || config.pathSteps == 0 || buckets == map[]) {
      var counts := CountsById(buckets, templates);
      var start: InternalId, ids: seq<InternalId> :| IsStart(start, counts)
        && DominantPath.IsDominantPath(ids, graph, |templates|, start, config.pathSteps) && IsNamed(p, ids, templates);
      var start': InternalId, ids': seq<InternalId> :| IsStart(start', counts)
        && DominantPath.IsDominantPath(ids', graph, |templates|, start', config.pathSteps)
            && IsNamed(p', ids', templates);
      hide CountsById, DominantPath.IsDominantPath, DominantPath.IsBusiest;
      if counts != map[] { DominantPath.BusiestUnique(counts, start, start'); }
      DominantPath.DominantPathUnique(ids, ids', graph, |templates|, start, config.pathSteps);
    }
  }

  // ---------------------------------------------------------------- the document

  /** The frozen window behind a document: capped buckets, their labels, and the surprise of each template. */
  ghost predicate FrozenAs(w: Window, lines: nat, buckets: map<TemplateId, Bucket>, graph: Graph, total: nat,
                           index: map<TemplateId, InternalId>, config: DocumentConfig) {
    && w.lines == lines && w.config == config.closing
    && BucketsCapped(buckets, Recap(config.isLong, config.capText), w.buckets)
    && BucketLabelsAre(w.buckets, w.labels) && SurprisesAre(graph, index, NeedsGraph(total, config), w.surprise)
  }

  /** One window has one frozen form, so closing it is a function of what it counted. */
  lemma FrozenUnique(w: Window, w': Window, lines: nat, buckets: map<TemplateId, Bucket>, graph: Graph, total: nat,
                     index: map<TemplateId, InternalId>, config: DocumentConfig)
    requires FrozenAs(w, lines, buckets, graph, total, index, config)
        && FrozenAs(w', lines, buckets, graph, total, index, config)
    requires Positive(graph)
    ensures w == w'
  {
    hide BucketsCapped, BucketLabelsAre, SurpriseIs, NeedsGraph, Positive, Recap;
    CappedUnique(buckets, Recap(config.isLong, config.capText), w.buckets, w'.buckets);
    LabelsUnique(w.buckets, w.labels, w'.labels);
    if NeedsGraph(total, config) {
      forall id | id in index ensures w.surprise[id] == w'.surprise[id]
          { SurpriseUnique(graph, index[id], w.surprise[id], w'.surprise[id]); }
    }
  }

  /** No template of a closed window scores above the full scale. */
  lemma ScoresWithinScale(w: Window, lines: nat, buckets: map<TemplateId, Bucket>, graph: Graph, total: nat,
                          index: map<TemplateId, InternalId>, config: DocumentConfig, id: TemplateId)
    requires FrozenAs(w, lines, buckets, graph, total, index, config)
    ensures ScoreAt(w, id).score <= SALIENCE_FULL_SCALE
  {
    hide BucketsCapped, BucketLabelsAre, NeedsGraph, Recap, SalienceOf, BucketAt, EvidenceAt;
    SurpriseWithin(0, 0, BucketAt(w, id).firstSeen, w.lines, BucketAt(w, id).count);
    if id in w.surprise {
      assert SurpriseIs(graph, index[id], w.surprise[id]);
      var best: Edge :| w.surprise[id] == SurpriseBand(best.count, best.outgoing);
      SurpriseWithin(best.count, best.outgoing, 0, 0, 0);
    }
    EvidenceIs(w, id);
    SalienceIsSoftMax(EvidenceAt(w, id), BucketAt(w, id).count, w.lines);
  }

  lemma EvidenceIs(w: Window, id: TemplateId)
    ensures EvidenceAt(w, id).surprise == SurpriseAt(w, id)
    ensures EvidenceAt(w, id).novelty == NoveltyBand(BucketAt(w, id).firstSeen, w.lines, BucketAt(w, id).count)
  {}

  method CloseDocument(lines: nat, buckets: map<TemplateId, Bucket>, base: map<Joint, nat>,
                       counts: map<NGramKey, nat>, total: nat, dropped: nat, index: map<TemplateId, InternalId>,
                       templates: seq<TemplateId>, ngramSize: nat, config: DocumentConfig)
    returns (doc: ClosedWindow, ghost w: Window, ghost graph: Graph)
    requires |base| <= STAR && RolesCounted(buckets) && (forall id :: id in buckets ==> buckets[id].count > 0)
    requires (forall k :: k in counts ==> counts[k] > 0) && forall id :: id in index ==> index[id] < |templates|
    requires SetSum(buckets.Keys, BucketCount(buckets)) == lines == SetSum(base.Keys, CountOf(base))
    requires Nameable(counts, templates)
    ensures doc.behavior == BehaviorFor(counts, total, dropped, templates, ngramSize, config.topNgrams)
    ensures doc.lines == lines && GraphFor(graph, counts, total, config)
        && FrozenAs(w, lines, buckets, graph, total, index, config)
    ensures doc.stats == ClosedStats(w) && PathFor(doc.path, graph, buckets, templates, total, config)
    ensures CubeFor(doc.cube, base, config)
    ensures Mass(doc.stats) == lines && BlockInRange(doc.cube) && ApexCount(doc.cube) == lines
    ensures TopKIds(doc.stats) !! ReservoirIds(doc.stats)
    ensures doc.stats.uniqueTemplates == |doc.stats.topK| + |doc.stats.reservoir| + doc.stats.tailUnique == |buckets|
  {
    hide *;
    var capped := CapBuckets(buckets, config.isLong, config.capText);
    CappedCounts(buckets, Recap(config.isLong, config.capText), capped);
    var transitions, surprise := AnalyzeTransitions(counts, total, index, |templates|, config);
    graph := transitions;
    var labels := LabelBuckets(capped);
    var window := Window(lines, capped, labels, surprise, config.closing);
    Freezes(window, lines, buckets, graph, total, index, config);
    w := window;
    var stats := CloseStatistics(window);
    ClosedConserves(w);
    CappedKeys(buckets, Recap(config.isLong, config.capText), capped);
    GraphForPositive(graph, counts, total, config);
    var path := PathOf(transitions, buckets, templates, total, config);
    var cube := BuildCube(base, config);
    var behavior := BuildBehavior(counts, total, dropped, templates, ngramSize, config.topNgrams);
    doc := ClosedWindow(lines, stats, cube, behavior, path);
  }

  lemma Freezes(w: Window, lines: nat, buckets: map<TemplateId, Bucket>, graph: Graph, total: nat,
                index: map<TemplateId, InternalId>, config: DocumentConfig)
    requires w.lines == lines && w.config == config.closing
    requires BucketsCapped(buckets, Recap(config.isLong, config.capText), w.buckets)
    requires BucketLabelsAre(w.buckets, w.labels) && SurprisesAre(graph, index, NeedsGraph(total, config), w.surprise)
    ensures FrozenAs(w, lines, buckets, graph, total, index, config)
  {
    hide BucketsCapped, BucketLabelsAre, SurprisesAre, NeedsGraph, Recap;
  }

  lemma CappedKeys(buckets: map<TemplateId, Bucket>, move: Text -> Text, r: map<TemplateId, Bucket>)
    requires BucketsCapped(buckets, move, r)
    ensures |r| == |buckets|
  {
    hide BucketCapped;
    assert |r| == |r.Keys| == |buckets.Keys| == |buckets|;
  }

  lemma GraphForPositive(graph: Graph, counts: map<NGramKey, nat>, total: nat, config: DocumentConfig)
    requires GraphFor(graph, counts, total, config) && forall k :: k in counts ==> counts[k] > 0
    ensures Positive(graph)
  {
    hide GraphIs;
    if NeedsGraph(total, config) { GraphPositive(graph, counts); }
  }
}
