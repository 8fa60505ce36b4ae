/** What composed and closed statistics say to a reader: top_k lists the most frequent templates, the reservoir the most
    salient of the rest, and the tail summary the loudest of what neither lists. */
module StatsReading {
  import opened Options
  import opened Identifiers
  import opened Orders
  import opened Bytes
  import opened ComposeLabels
  import opened ComposeStats
  import opened StatsLaws
  import opened WindowState
  import opened WindowClose

  // ---------------------------------------------------------------- the lines a document lists for a template

  function TopKLines(entries: seq<TopKEntry>, id: TemplateId): nat {
    if entries == [] then 0
    else TopKLines(entries[..|entries| - 1], id)
         + if entries[|entries| - 1].id == id then entries[|entries| - 1].count else 0
  }

  function ReservoirLines(entries: seq<ReservoirEntry>, id: TemplateId): nat {
    if entries == [] then 0
    else ReservoirLines(entries[..|entries| - 1], id)
         + if entries[|entries| - 1].id == id then entries[|entries| - 1].count else 0
  }

  /** The lines two documents list for a template, in top_k and in the reservoir. */
  function ListedLines(a: Stats, b: Stats, id: TemplateId): nat {
    TopKLines(a.topK, id) + ReservoirLines(a.reservoir, id) + TopKLines(b.topK, id) + ReservoirLines(b.reservoir, id)
  }

  lemma {:induction false} TopKViewCounts(entries: seq<TopKEntry>, id: TemplateId)
    ensures TopKView(entries, id).count == TopKLines(entries, id)
  {
    if entries != [] { TopKViewCounts(entries[..|entries| - 1], id); }
  }

  lemma {:induction false} ReservoirViewCounts(start: InputTemplate, entries: seq<ReservoirEntry>, id: TemplateId)
    ensures ReservoirView(start, entries, id).count == start.count + ReservoirLines(entries, id)
  {
    if entries != [] { ReservoirViewCounts(start, entries[..|entries| - 1], id); }
  }

  lemma MergedIsListed(a: Stats, b: Stats, id: TemplateId)
    ensures MergedCount(a, b, id) == ListedLines(a, b, id)
  {
    TopKViewCounts(a.topK, id);
    TopKViewCounts(b.topK, id);
    ReservoirViewCounts(TopKView(a.topK, id), a.reservoir, id);
    ReservoirViewCounts(TopKView(b.topK, id), b.reservoir, id);
  }

  /** The templates two documents list anywhere. */
  ghost function Listed(a: Stats, b: Stats): set<TemplateId> {
    (set e | e in a.topK :: e.id) + (set e | e in a.reservoir :: e.id)
    + (set e | e in b.topK :: e.id) + (set e | e in b.reservoir :: e.id)
  }

  lemma ListedAre(a: Stats, b: Stats)
    ensures Listed(a, b) == Ids(a) + Ids(b)
  {}

  // ---------------------------------------------------------------- the head of a counted order

  ghost predicate Lists(topK: seq<TopKEntry>, id: TemplateId) { exists i :: 0 <= i < |topK| && topK[i].id == id }

  /** A counted order holds each listed template once, with its lines. */
  ghost predicate Holds(ordered: seq<Counted>, ids: set<TemplateId>, count: TemplateId -> nat) {
    && |ordered| == |ids|
    && (forall i :: 0 <= i < |ordered| ==> ordered[i].id in ids && ordered[i].count == count(ordered[i].id))
    && (forall id :: id in ids ==> exists i :: 0 <= i < |ordered| && ordered[i].id == id)
  }

  lemma ListedAt(ordered: seq<Counted>, topK: seq<TopKEntry>, id: TemplateId) returns (k: nat)
    requires |topK| <= |ordered| && exists i :: 0 <= i < |ordered| && ordered[i].id == id
    requires forall i :: 0 <= i < |topK| ==> topK[i].id == ordered[i].id
    ensures k < |ordered| && ordered[k].id == id && (k < |topK| ==> Lists(topK, id))
  {
    k :| 0 <= k < |ordered| && ordered[k].id == id;
    if k < |topK| { assert topK[k].id == id; }
  }

  /** A counted order cut after its first entries: the templates kept are at least as frequent as those that are not,
      and of templates counted alike the smaller ids are kept and come first. */
  lemma HeadIsMostFrequent(ordered: seq<Counted>, topK: seq<TopKEntry>, ids: set<TemplateId>,
                           count: TemplateId -> nat)
    requires Ascending(CountedOrder, ordered) && Holds(ordered, ids, count) && |topK| <= |ordered|
    requires forall i :: 0 <= i < |topK| ==> topK[i].id == ordered[i].id && topK[i].count == ordered[i].count
    ensures forall i :: 0 <= i < |topK| ==> topK[i].id in ids && topK[i].count == count(topK[i].id)
    ensures forall i, j :: 0 <= i < j < |topK| ==>
              topK[i].count > topK[j].count || (topK[i].count == topK[j].count && topK[i].id < topK[j].id)
    ensures forall i, id :: 0 <= i < |topK| && id in ids && !Lists(topK, id) ==>
              count(id) < topK[i].count || (count(id) == topK[i].count && topK[i].id < id)
  {
    forall i, j | 0 <= i < j < |topK|
      ensures topK[i].count > topK[j].count || (topK[i].count == topK[j].count && topK[i].id < topK[j].id)
    {
      assert CountedOrder(ordered[i], ordered[j]);
    }
    forall i, id | 0 <= i < |topK| && id in ids && !Lists(topK, id)
      ensures count(id) < topK[i].count || (count(id) == topK[i].count && topK[i].id < id)
    {
      var k := ListedAt(ordered, topK, id);
      assert CountedOrder(ordered[i], ordered[k]);
    }
  }

  lemma OrderedAt(a: Stats, b: Stats, c: Counted)
    ensures c in Ordered(a, b) <==> c.id in Listed(a, b) && c.count == ListedLines(a, b, c.id)
  {
    ListedAre(a, b);
    MergedIsListed(a, b, c.id);
    hide MergedCount, ListedLines, Ids, Listed;
    assert c in Ordered(a, b) <==> c in Elements(Ordered(a, b));
    assert c in Ordered(a, b) <==> c in CountedOf(a, b);
    if c.id in Ids(a) + Ids(b) { assert Counted(c.id, MergedCount(a, b, c.id)) in CountedOf(a, b); }
  }

  lemma OrderedLength(a: Stats, b: Stats)
    ensures |Ordered(a, b)| == |Listed(a, b)|
  {
    OrderedIds(a, b);
    ListedAre(a, b);
    hide Ordered, Listed;
    DistinctLength(IdList(Ordered(a, b)));
  }

  lemma {:induction false} DistinctLength<T>(s: seq<T>)
    requires NoDuplicates(s)
    ensures |Elements(s)| == |s|
  {
    if s != [] {
      var front, last := s[..|s| - 1], s[|s| - 1];
      assert s == front + [last] && last !in front;
      DistinctLength(front);
      assert Elements(s) == Elements(front) + {last};
    }
  }

  lemma OrderedHolds(a: Stats, b: Stats)
    ensures Holds(Ordered(a, b), Listed(a, b), id => ListedLines(a, b, id))
  {
    var ordered, count := Ordered(a, b), (id: TemplateId) => ListedLines(a, b, id);
    OrderedLength(a, b);
    hide Ordered, ListedLines, Listed;
    forall i | 0 <= i < |ordered| ensures ordered[i].id in Listed(a, b) && ordered[i].count == count(ordered[i].id) {
      OrderedAt(a, b, ordered[i]);
    }
    forall id | id in Listed(a, b) ensures exists i :: 0 <= i < |ordered| && ordered[i].id == id {
      OrderedAt(a, b, Counted(id, ListedLines(a, b, id)));
      var i :| 0 <= i < |ordered| && ordered[i] == Counted(id, ListedLines(a, b, id));
    }
  }

  /** Composition lists the most frequent templates: the counts in top_k are the lines of both documents and never
      increase, ties go to the smaller id, every template left out has fewer lines than one listed or as many and a
      greater id, and the list is as long as the smaller declared size and the number of templates allow. */
  lemma TopKIsMostFrequent(a: Stats, b: Stats, lines: nat, salience: Salience, cubes: bool)
    ensures var topK := ComposedStats(a, b, lines, salience, cubes).topK;
            && |topK| == Min(Min(a.topKSize, b.topKSize), |Listed(a, b)|)
            && (forall i :: 0 <= i < |topK| ==>
                  topK[i].id in Listed(a, b) && topK[i].count == ListedLines(a, b, topK[i].id))
            && (forall i, j :: 0 <= i < j < |topK| ==>
                  topK[i].count > topK[j].count || (topK[i].count == topK[j].count && topK[i].id < topK[j].id))
            && (forall i, id :: 0 <= i < |topK| && id in Listed(a, b) && !Lists(topK, id) ==>
                  ListedLines(a, b, id) < topK[i].count
                  || (ListedLines(a, b, id) == topK[i].count && topK[i].id < id))
  {
    var ordered, topK := Ordered(a, b), ComposedTopK(a, b);
    OrderedHolds(a, b);
    hide ComposedHistograms, LabelsFor, Listed, ListedLines, ComposedReservoir, TailCounts, ComposedTailSummary,
         CountedOrder, Ascending, Elements, ComposedEntropy, CountedOf;
    HeadIsMostFrequent(ordered, topK, Listed(a, b), id => ListedLines(a, b, id));
  }

  lemma OrderedBucketsHold(buckets: map<TemplateId, Bucket>)
    ensures Holds(OrderedBuckets(buckets), buckets.Keys, BucketCount(buckets))
  {
    var ordered := OrderedBuckets(buckets);
    OrderedIdsAre(buckets);
    hide OrderedBuckets;
    DistinctLength(IdList(ordered));
    forall i | 0 <= i < |ordered| ensures ordered[i].id in buckets && ordered[i].count == buckets[ordered[i].id].count {
      assert IdList(ordered)[i] in Elements(IdList(ordered));
      assert ordered[i] in ordered;
    }
    forall id | id in buckets ensures exists i :: 0 <= i < |ordered| && ordered[i].id == id {
      assert id in Elements(IdList(ordered));
      var i :| 0 <= i < |IdList(ordered)| && IdList(ordered)[i] == id;
    }
  }

  /** A closed window lists its most frequent templates, in the same sense, by their bucket counts. */
  lemma ClosedTopKIsMostFrequent(w: Window)
    ensures var topK := ClosedStats(w).topK;
            && |topK| == Min(w.config.topKSize, |w.buckets|)
            && (forall i :: 0 <= i < |topK| ==> topK[i].id in w.buckets && topK[i].count == w.buckets[topK[i].id].count)
            && (forall i, j :: 0 <= i < j < |topK| ==>
                  topK[i].count > topK[j].count || (topK[i].count == topK[j].count && topK[i].id < topK[j].id))
            && (forall i, id :: 0 <= i < |topK| && id in w.buckets && !Lists(topK, id) ==>
                  w.buckets[id].count < topK[i].count || (w.buckets[id].count == topK[i].count && topK[i].id < id))
  {
    OrderedBucketsHold(w.buckets);
    ClosedTopKParts(w);
    var ordered, topK := OrderedBuckets(w.buckets), ClosedStats(w).topK;
    hide ClosedStats, OrderedBuckets, Lists, Ascending, CountedOrder;
    HeadOfBuckets(ordered, topK, w.buckets);
  }

  lemma HeadOfBuckets(ordered: seq<Counted>, topK: seq<TopKEntry>, buckets: map<TemplateId, Bucket>)
    requires Ascending(CountedOrder, ordered) && Holds(ordered, buckets.Keys, BucketCount(buckets))
    requires |topK| <= |ordered|
    requires forall i :: 0 <= i < |topK| ==> topK[i].id == ordered[i].id && topK[i].count == ordered[i].count
    ensures |ordered| == |buckets|
    ensures forall i :: 0 <= i < |topK| ==> topK[i].id in buckets && topK[i].count == buckets[topK[i].id].count
    ensures forall i, j :: 0 <= i < j < |topK| ==>
              topK[i].count > topK[j].count || (topK[i].count == topK[j].count && topK[i].id < topK[j].id)
    ensures forall i, id :: 0 <= i < |topK| && id in buckets && !Lists(topK, id) ==>
              buckets[id].count < topK[i].count || (buckets[id].count == topK[i].count && topK[i].id < id)
  {
    assert |buckets.Keys| == |buckets|;
    hide Lists, Ascending, CountedOrder;
    HeadIsMostFrequent(ordered, topK, buckets.Keys, BucketCount(buckets));
  }

  lemma ClosedTopKParts(w: Window)
    ensures var ordered, topK := OrderedBuckets(w.buckets), ClosedStats(w).topK;
            && Ascending(CountedOrder, ordered) && |topK| == Min(w.config.topKSize, |ordered|)
            && (forall i :: 0 <= i < |topK| ==> topK[i].id == ordered[i].id && topK[i].count == ordered[i].count)
            && (Holds(ordered, w.buckets.Keys, BucketCount(w.buckets)) ==> |ordered| == |w.buckets.Keys|)
            && (|topK| == w.config.topKSize || |topK| == |ordered|)
            && (|topK| <= w.config.topKSize && |topK| <= |ordered|)
  {
    hide LabelAt, OrderedBuckets, CountedOrder, BucketCount;
  }

  // ---------------------------------------------------------------- the reservoir

  /** The templates of either reservoir. */
  ghost function Remembered(a: Stats, b: Stats): set<TemplateId> {
    (set e | e in a.reservoir :: e.id) + (set e | e in b.reservoir :: e.id)
  }

  lemma RememberedAre(a: Stats, b: Stats)
    ensures Remembered(a, b) == ReservoirIds(a) + ReservoirIds(b)
  {}

  lemma ListedTopK(a: Stats, b: Stats, id: TemplateId)
    ensures Lists(ComposedTopK(a, b), id) <==> id in ComposedTopKIds(a, b)
  {
    hide ComposedTopK;
    var topK := ComposedTopK(a, b);
    if id in ComposedTopKIds(a, b) {
      var e :| e in topK && e.id == id;
      var i :| 0 <= i < |topK| && topK[i] == e;
    }
  }

  lemma AdmittedAt(a: Stats, b: Stats, lines: nat, salience: Salience, i: nat)
    requires i < |Admitted(a, b, lines, salience)|
    ensures var id := Admitted(a, b, lines, salience)[i];
            && id in CandidateIds(a, b, lines, salience) && MergedCount(a, b, id) == ListedLines(a, b, id)
            && !Lists(ComposedTopK(a, b), id)
  {
    var ids := Admitted(a, b, lines, salience);
    assert ids[i] in Elements(ids);
    hide *;
    AdmittedAre(a, b, lines, salience);
    CandidatesListed(a, b, lines, salience);
    MergedIsListed(a, b, ids[i]);
    ListedTopK(a, b, ids[i]);
  }

  lemma ReservoirEntryReads(a: Stats, b: Stats, lines: nat, salience: Salience, cubes: bool, id: TemplateId)
    requires id in CandidateIds(a, b, lines, salience)
    ensures var e := ComposedReservoirEntry(a, b, lines, salience, cubes, id);
            && id in Remembered(a, b) && e.id == id && e.count == MergedCount(a, b, id) && e.salience > 0
            && (e.salience, e.axis)
                == salience(if e.level.Some? then Some(e.level.value.value) else None, e.role, e.count, lines,
                            e.surprise, e.novelty)
  {
    hide MergedCount, LabelsFor, Surprise, Novelty, ComposedTopKIds;
  }

  /** What a composed reservoir holds: templates one of the two reservoirs remembered and top_k does not list, with
      their lines in both documents and the verdict salience gives on exactly what the entry shows, strongest first
      and the smaller id first among equals. */
  lemma ReservoirIsMostSalient(a: Stats, b: Stats, lines: nat, salience: Salience, cubes: bool)
    ensures var s := ComposedStats(a, b, lines, salience, cubes);
            var r := s.reservoir;
            && (forall i :: 0 <= i < |r| ==>
                  && r[i].id in Remembered(a, b) && !Lists(s.topK, r[i].id)
                  && r[i].count == ListedLines(a, b, r[i].id)
                  && r[i].salience > 0
                  && (r[i].salience, r[i].axis)
                      == salience(if r[i].level.Some? then Some(r[i].level.value.value) else None, r[i].role,
                                  r[i].count, lines, r[i].surprise, r[i].novelty))
            && (forall i, j :: 0 <= i < j < |r| ==>
                  r[i].salience > r[j].salience || (r[i].salience == r[j].salience && r[i].id < r[j].id))
  {
    var ids, s := Admitted(a, b, lines, salience), ComposedStats(a, b, lines, salience, cubes);
    var r, topK := ComposedReservoir(a, b, lines, salience, cubes), ComposedTopK(a, b);
    assert s.reservoir == r && s.topK == topK && |r| == |ids|;
    assert forall i :: 0 <= i < |r| ==> r[i] == ComposedReservoirEntry(a, b, lines, salience, cubes, ids[i]);
    hide *;
    forall i | 0 <= i < |r|
      ensures r[i].id in Remembered(a, b) && !Lists(topK, r[i].id) && r[i].count == ListedLines(a, b, r[i].id)
          && r[i].salience > 0
      ensures (r[i].salience, r[i].axis)
           == salience(if r[i].level.Some? then Some(r[i].level.value.value) else None, r[i].role, r[i].count, lines,
                       r[i].surprise, r[i].novelty)
    {
      AdmittedAt(a, b, lines, salience, i);
      ReservoirEntryReads(a, b, lines, salience, cubes, ids[i]);
    }
    forall i, j | 0 <= i < j < |r|
      ensures r[i].salience > r[j].salience || (r[i].salience == r[j].salience && r[i].id < r[j].id)
    {
      AdmittedInOrder(a, b, lines, salience, i, j);
      EntriesInOrder(a, b, lines, salience, cubes, ids[i], ids[j]);
    }
  }

  lemma EntriesInOrder(a: Stats, b: Stats, lines: nat, salience: Salience, cubes: bool, x: TemplateId, y: TemplateId)
    requires SalienceOrder(a, b, lines, salience)(x, y)
    ensures var e, f := ComposedReservoirEntry(a, b, lines, salience, cubes, x),
                        ComposedReservoirEntry(a, b, lines, salience, cubes, y);
            e.salience > f.salience || (e.salience == f.salience && e.id < f.id)
  {
    hide Verdict, MergedCount, LabelsFor, Surprise, Novelty;
  }

  lemma AdmittedInOrder(a: Stats, b: Stats, lines: nat, salience: Salience, i: nat, j: nat)
    requires i < j < |Admitted(a, b, lines, salience)|
    ensures var ids := Admitted(a, b, lines, salience); SalienceOrder(a, b, lines, salience)(ids[i], ids[j])
  {
    hide SalienceOrder;
    var ranked := ComposeStats.RankedCandidates(a, b, lines, salience);
    assert SalienceOrder(a, b, lines, salience)(ranked[i], ranked[j]);
  }

  /** A remembered template of some salience is only left out of both lists behind a reservoir filled to its declared
      size with templates that score more, or as much under a smaller id. */
  lemma LeftOutIsWeaker(a: Stats, b: Stats, lines: nat, salience: Salience, cubes: bool, id: TemplateId)
    requires id in Remembered(a, b)
    requires var s := ComposedStats(a, b, lines, salience, cubes);
             !Lists(s.topK, id) && forall i :: 0 <= i < |s.reservoir| ==> s.reservoir[i].id != id
    requires Verdict(a, b, lines, salience, id).0 > 0
    ensures var s, score := ComposedStats(a, b, lines, salience, cubes), Verdict(a, b, lines, salience, id).0;
            && s.reservoirSize == Some(|s.reservoir|)
            && (forall i :: 0 <= i < |s.reservoir| ==>
                  s.reservoir[i].salience > score || (s.reservoir[i].salience == score && s.reservoir[i].id < id))
  {
    var ids, r := Admitted(a, b, lines, salience), ComposedReservoir(a, b, lines, salience, cubes);
    LeftOut(a, b, lines, salience, cubes, id);
    assert |r| == |ids|;
    assert forall i :: 0 <= i < |r| ==> r[i] == ComposedReservoirEntry(a, b, lines, salience, cubes, ids[i]);
    hide *;
    StatsParts(a, b, lines, salience, cubes);
    CandidateCut(a, b, lines, salience, id);
    EntryHasId(a, b, lines, salience, cubes, id);
    forall i | 0 <= i < |r|
      ensures r[i].salience > Verdict(a, b, lines, salience, id).0
           || (r[i].salience == Verdict(a, b, lines, salience, id).0 && r[i].id < id)
    {
      EntriesInOrder(a, b, lines, salience, cubes, ids[i], id);
    }
  }

  lemma StatsParts(a: Stats, b: Stats, lines: nat, salience: Salience, cubes: bool)
    ensures var s := ComposedStats(a, b, lines, salience, cubes);
            && s.reservoir == ComposedReservoir(a, b, lines, salience, cubes) && s.topK == ComposedTopK(a, b)
            && s.reservoirSize == MinDeclaredCap(a.reservoirSize, b.reservoirSize)
  {
    hide ComposedTopK, ComposedReservoir, MinDeclaredCap, TailCounts;
  }

  lemma LeftOut(a: Stats, b: Stats, lines: nat, salience: Salience, cubes: bool, id: TemplateId)
    requires id in Remembered(a, b) && Verdict(a, b, lines, salience, id).0 > 0
    requires var s := ComposedStats(a, b, lines, salience, cubes);
             !Lists(s.topK, id) && forall i :: 0 <= i < |s.reservoir| ==> s.reservoir[i].id != id
    ensures id in CandidateIds(a, b, lines, salience) && id !in Admitted(a, b, lines, salience)
  {
    var ids, r := Admitted(a, b, lines, salience), ComposedReservoir(a, b, lines, salience, cubes);
    StatsParts(a, b, lines, salience, cubes);
    RememberedAre(a, b);
    ListedTopK(a, b, id);
    assert forall i :: 0 <= i < |r| ==> r[i] == ComposedReservoirEntry(a, b, lines, salience, cubes, ids[i]);
    hide ComposedStats, ComposedReservoir, ComposedTopK, Lists, ComposedReservoirEntry, Verdict, Admitted, Remembered,
         ReservoirIds, ComposedTopKIds;
    forall i | 0 <= i < |ids| ensures ids[i] != id { EntryHasId(a, b, lines, salience, cubes, ids[i]); }
  }

  /** The smaller of two declared sizes, the one declared when only one is. */
  lemma SmallerDeclared(a: Option<nat>, b: Option<nat>, n: nat)
    ensures MinDeclaredCap(a, b) == None <==> a == None && b == None
    ensures MinDeclaredCap(a, b).Some? && n > MinDeclaredCap(a, b).value
       <==> (a.Some? && n > a.value) || (b.Some? && n > b.value)
  {}

  /** Every declared size of a composed document is the smaller one declared, and the one declared when only one is:
      a number is beyond it exactly when it is beyond one that was declared. Values are always capped, at sixty-four
      where neither document says. */
  lemma SizesAreSmaller(a: Stats, b: Stats, lines: nat, salience: Salience, cubes: bool, n: nat)
    ensures var s := ComposedStats(a, b, lines, salience, cubes);
            && (n <= s.topKSize <==> n <= a.topKSize && n <= b.topKSize)
            && (s.reservoirSize == None <==> a.reservoirSize == None && b.reservoirSize == None)
            && (s.reservoirSize.Some? && n > s.reservoirSize.value <==>
                  (a.reservoirSize.Some? && n > a.reservoirSize.value)
                  || (b.reservoirSize.Some? && n > b.reservoirSize.value))
            && (s.histogramSize == None <==> a.histogramSize == None && b.histogramSize == None)
            && (s.histogramSize.Some? && n > s.histogramSize.value <==>
                  (a.histogramSize.Some? && n > a.histogramSize.value)
                  || (b.histogramSize.Some? && n > b.histogramSize.value))
            && s.valueSize.Some?
            && (a.valueSize == None && b.valueSize == None ==> s.valueSize == Some(64))
            && (a.valueSize.Some? || b.valueSize.Some? ==>
                  (n > s.valueSize.value <==> (a.valueSize.Some? && n > a.valueSize.value)
                                              || (b.valueSize.Some? && n > b.valueSize.value)))
  {
    SizeParts(a, b, lines, salience, cubes);
    SmallerDeclared(a.reservoirSize, b.reservoirSize, n);
    SmallerDeclared(a.histogramSize, b.histogramSize, n);
    SmallerDeclared(a.valueSize, b.valueSize, n);
    hide ComposedStats, MinDeclaredCap;
  }

  lemma SizeParts(a: Stats, b: Stats, lines: nat, salience: Salience, cubes: bool)
    ensures var s := ComposedStats(a, b, lines, salience, cubes);
            && s.topKSize == Min(a.topKSize, b.topKSize)
            && s.reservoirSize == MinDeclaredCap(a.reservoirSize, b.reservoirSize)
            && s.histogramSize == MinDeclaredCap(a.histogramSize, b.histogramSize)
            && s.valueSize.Some?
            && (MinDeclaredCap(a.valueSize, b.valueSize) == None ==> s.valueSize == Some(64))
            && (MinDeclaredCap(a.valueSize, b.valueSize).Some? ==>
                  s.valueSize == MinDeclaredCap(a.valueSize, b.valueSize))
  {
    hide ComposedTopK, ComposedReservoir, TailCounts, MinDeclaredCap, ComposedTailSummary, ComposedEntropy;
  }

  /** A candidate is only left out behind a full bound of candidates that all come before it. */
  lemma CandidateCut(a: Stats, b: Stats, lines: nat, salience: Salience, id: TemplateId)
    requires id in CandidateIds(a, b, lines, salience) && id !in Admitted(a, b, lines, salience)
    ensures var ids, bound := Admitted(a, b, lines, salience), MinDeclaredCap(a.reservoirSize, b.reservoirSize);
            && bound == Some(|ids|) && forall i :: 0 <= i < |ids| ==> SalienceOrder(a, b, lines, salience)(ids[i], id)
  {
    var ids, ranked := Admitted(a, b, lines, salience), ComposeStats.RankedCandidates(a, b, lines, salience);
    assert id in Elements(ranked);
    hide ComposeStats.RankedCandidates, CandidateIds, SalienceOrder;
    var k :| 0 <= k < |ranked| && ranked[k] == id;
    assert forall i :: 0 <= i < |ids| ==> ids[i] == ranked[i] && ids[i] in ids;
    assert k >= |ids|;
    forall i | 0 <= i < |ids| ensures SalienceOrder(a, b, lines, salience)(ids[i], id) {
      assert SalienceOrder(a, b, lines, salience)(ranked[i], ranked[k]);
    }
  }

  lemma EntryHasId(a: Stats, b: Stats, lines: nat, salience: Salience, cubes: bool, id: TemplateId)
    ensures ComposedReservoirEntry(a, b, lines, salience, cubes, id).id == id
    ensures ComposedReservoirEntry(a, b, lines, salience, cubes, id).salience == Verdict(a, b, lines, salience, id).0
  {
    hide Verdict;
  }

  lemma {:induction false} BandsInOne(entries: seq<ReservoirEntry>, id: TemplateId)
    ensures forall e :: e in entries && e.id == id ==>
              e.surprise <= SurpriseIn(entries, id) && e.novelty <= NoveltyIn(entries, id)
    ensures SurpriseIn(entries, id) == 0
         || exists e :: e in entries && e.id == id && e.surprise == SurpriseIn(entries, id)
    ensures NoveltyIn(entries, id) == 0
         || exists e :: e in entries && e.id == id && e.novelty == NoveltyIn(entries, id)
  {
    if entries != [] {
      var front, last := entries[..|entries| - 1], entries[|entries| - 1];
      assert forall e :: e in entries <==> e in front || e == last;
      BandsInOne(front, id);
    }
  }

  /** The surprise and the novelty a composed reservoir shows are the greatest either reservoir remembered. */
  lemma BandsAreGreatest(a: Stats, b: Stats, lines: nat, salience: Salience, cubes: bool, e: ReservoirEntry)
    requires e in ComposedStats(a, b, lines, salience, cubes).reservoir
    ensures forall x :: x in a.reservoir + b.reservoir && x.id == e.id ==>
              x.surprise <= e.surprise && x.novelty <= e.novelty
    ensures e.surprise > 0 ==> exists x :: x in a.reservoir + b.reservoir && x.id == e.id && x.surprise == e.surprise
    ensures e.novelty > 0 ==> exists x :: x in a.reservoir + b.reservoir && x.id == e.id && x.novelty == e.novelty
  {
    hide *;
    var id := EntryFrom(a, b, lines, salience, cubes, e);
    EntryBands(a, b, lines, salience, cubes, id);
    BandsInOne(a.reservoir, e.id);
    BandsInOne(b.reservoir, e.id);
  }

  lemma EntryFrom(a: Stats, b: Stats, lines: nat, salience: Salience, cubes: bool, e: ReservoirEntry)
    returns (id: TemplateId)
    requires e in ComposedStats(a, b, lines, salience, cubes).reservoir
    ensures e == ComposedReservoirEntry(a, b, lines, salience, cubes, id)
  {
    StatsParts(a, b, lines, salience, cubes);
    var r := ComposedReservoir(a, b, lines, salience, cubes);
    hide ComposedStats, Admitted, ComposedReservoirEntry;
    var i :| 0 <= i < |r| && r[i] == e;
    id := Admitted(a, b, lines, salience)[i];
  }

  lemma EntryBands(a: Stats, b: Stats, lines: nat, salience: Salience, cubes: bool, id: TemplateId)
    ensures var e := ComposedReservoirEntry(a, b, lines, salience, cubes, id);
            && e.id == id && e.surprise >= SurpriseIn(a.reservoir, id) && e.surprise >= SurpriseIn(b.reservoir, id)
            && (e.surprise == SurpriseIn(a.reservoir, id) || e.surprise == SurpriseIn(b.reservoir, id))
            && e.novelty >= NoveltyIn(a.reservoir, id) && e.novelty >= NoveltyIn(b.reservoir, id)
            && (e.novelty == NoveltyIn(a.reservoir, id) || e.novelty == NoveltyIn(b.reservoir, id))
  {
    hide MergedCount, LabelsFor, Verdict, SurpriseIn, NoveltyIn;
  }

  // ---------------------------------------------------------------- the tail

  lemma {:induction false} UnreservedAre(ordered: seq<Counted>, reserved: set<TemplateId>, n: nat)
    ensures n in Unreserved(ordered, reserved) <==> exists c :: c in ordered && c.id !in reserved && c.count == n
  {
    if ordered != [] {
      var front, last := ordered[..|ordered| - 1], ordered[|ordered| - 1];
      assert forall c :: c in ordered <==> c in front || c == last;
      UnreservedAre(front, reserved, n);
    }
  }

  lemma {:induction false} LargestIs(counts: seq<nat>)
    ensures forall n :: n in counts ==> n <= Largest(counts)
    ensures counts != [] ==> Largest(counts) in counts
  {
    if counts != [] {
      var front, last := counts[..|counts| - 1], counts[|counts| - 1];
      assert forall n :: n in counts <==> n in front || n == last;
      LargestIs(front);
    }
  }

  /** A template neither list of a document carries. */
  ghost predicate Unlisted(s: Stats, id: TemplateId) {
    !Lists(s.topK, id) && forall i :: 0 <= i < |s.reservoir| ==> s.reservoir[i].id != id
  }

  lemma TailHolds(a: Stats, b: Stats, lines: nat, salience: Salience, cubes: bool, n: nat)
    ensures n in TailCounts(a, b, lines, salience)
       <==> exists id :: id in Listed(a, b) && Unlisted(ComposedStats(a, b, lines, salience, cubes), id)
                      && ListedLines(a, b, id) == n
  {
    if n in TailCounts(a, b, lines, salience) { var id := TailFrom(a, b, lines, salience, cubes, n); }
    hide TailCounts;
    var s := ComposedStats(a, b, lines, salience, cubes);
    if id :| id in Listed(a, b) && Unlisted(s, id) && ListedLines(a, b, id) == n {
      TailInto(a, b, lines, salience, cubes, id);
    }
  }

  lemma TailFrom(a: Stats, b: Stats, lines: nat, salience: Salience, cubes: bool, n: nat) returns (id: TemplateId)
    requires n in TailCounts(a, b, lines, salience)
    ensures id in Listed(a, b) && Unlisted(ComposedStats(a, b, lines, salience, cubes), id)
    ensures ListedLines(a, b, id) == n
  {
    var ordered, cut, ids := Ordered(a, b), TopKCut(a, b), Admitted(a, b, lines, salience);
    UnreservedAre(ordered[cut..], Elements(ids), n);
    hide Unreserved, Ordered, Admitted, ListedLines, Listed, ComposedStats, Unlisted;
    var c :| c in ordered[cut..] && c.id !in Elements(ids) && c.count == n;
    var k :| cut <= k < |ordered| && ordered[k] == c;
    BeyondIsUnlisted(a, b, lines, salience, cubes, k);
    id := c.id;
  }

  lemma TailInto(a: Stats, b: Stats, lines: nat, salience: Salience, cubes: bool, id: TemplateId)
    requires id in Listed(a, b) && Unlisted(ComposedStats(a, b, lines, salience, cubes), id)
    ensures ListedLines(a, b, id) in TailCounts(a, b, lines, salience)
  {
    var ordered, cut, ids := Ordered(a, b), TopKCut(a, b), Admitted(a, b, lines, salience);
    UnreservedAre(ordered[cut..], Elements(ids), ListedLines(a, b, id));
    hide Unreserved, Ordered, Admitted, ListedLines, Listed, ComposedStats, Unlisted;
    var k := UnlistedIsBeyond(a, b, lines, salience, cubes, id);
    assert ordered[k] in ordered[cut..];
  }

  lemma UnlistedReads(a: Stats, b: Stats, lines: nat, salience: Salience, cubes: bool, id: TemplateId)
    ensures Unlisted(ComposedStats(a, b, lines, salience, cubes), id)
       <==> id !in ComposedTopKIds(a, b) && id !in Admitted(a, b, lines, salience)
  {
    var ids, r := Admitted(a, b, lines, salience), ComposedReservoir(a, b, lines, salience, cubes);
    StatsParts(a, b, lines, salience, cubes);
    ListedTopK(a, b, id);
    assert |r| == |ids| && forall i :: 0 <= i < |r| ==> r[i] == ComposedReservoirEntry(a, b, lines, salience, cubes,
                                                                                       ids[i]);
    hide *;
    forall i | 0 <= i < |r| ensures r[i].id == ids[i] { EntryHasId(a, b, lines, salience, cubes, ids[i]); }
    UnlistedParts(ComposedStats(a, b, lines, salience, cubes), ids, id);
  }

  lemma UnlistedParts(s: Stats, ids: seq<TemplateId>, id: TemplateId)
    requires |s.reservoir| == |ids| && forall i :: 0 <= i < |ids| ==> s.reservoir[i].id == ids[i]
    ensures Unlisted(s, id) <==> !Lists(s.topK, id) && id !in ids
  {}

  lemma BeyondIsUnlisted(a: Stats, b: Stats, lines: nat, salience: Salience, cubes: bool, k: nat)
    requires TopKCut(a, b) <= k < |Ordered(a, b)| && Ordered(a, b)[k].id !in Admitted(a, b, lines, salience)
    ensures Ordered(a, b)[k].id in Listed(a, b)
    ensures Unlisted(ComposedStats(a, b, lines, salience, cubes), Ordered(a, b)[k].id)
    ensures ListedLines(a, b, Ordered(a, b)[k].id) == Ordered(a, b)[k].count
  {
    OrderedHolds(a, b);
    OrderedIds(a, b);
    TopKIdsAre(a, b);
    hide Ordered, ListedLines, Listed, ComposedStats, ComposedTopKIds, Admitted;
    var ordered := Ordered(a, b);
    assert IdList(ordered)[k] == ordered[k].id;
    UnlistedReads(a, b, lines, salience, cubes, ordered[k].id);
  }

  lemma UnlistedIsBeyond(a: Stats, b: Stats, lines: nat, salience: Salience, cubes: bool, id: TemplateId)
    returns (k: nat)
    requires id in Listed(a, b) && Unlisted(ComposedStats(a, b, lines, salience, cubes), id)
    ensures TopKCut(a, b) <= k < |Ordered(a, b)| && Ordered(a, b)[k] == Counted(id, ListedLines(a, b, id))
    ensures id !in Admitted(a, b, lines, salience)
  {
    OrderedHolds(a, b);
    TopKIdsAre(a, b);
    UnlistedReads(a, b, lines, salience, cubes, id);
    hide Ordered, ListedLines, Listed, ComposedStats, ComposedTopKIds, Admitted, Unlisted;
    var ordered, cut := Ordered(a, b), TopKCut(a, b);
    k :| 0 <= k < |ordered| && ordered[k].id == id;
    assert forall i :: 0 <= i < cut ==> IdList(ordered[..cut])[i] == ordered[i].id;
  }

  /** The tail summary of a composed document speaks of the templates neither list carries: it is there exactly when
      there are such templates and lines, and its loudest count is the lines of the most frequent one. */
  lemma TailIsLoudest(a: Stats, b: Stats, lines: nat, salience: Salience, cubes: bool)
    ensures var s := ComposedStats(a, b, lines, salience, cubes);
            && (s.tailSummary.Some? <==> lines > 0 && exists id :: id in Listed(a, b) && Unlisted(s, id))
            && (s.tailSummary.Some? ==>
                  && s.tailSummary.value.lines == lines
                  && (forall id :: id in Listed(a, b) && Unlisted(s, id) ==>
                        ListedLines(a, b, id) <= s.tailSummary.value.maxCount)
                  && (exists id :: id in Listed(a, b) && Unlisted(s, id)
                                && ListedLines(a, b, id) == s.tailSummary.value.maxCount))
  {
    var s, tail := ComposedStats(a, b, lines, salience, cubes), TailCounts(a, b, lines, salience);
    TailSummaryParts(a, b, lines, salience, cubes);
    hide *;
    LargestIs(tail);
    forall id | id in Listed(a, b) && Unlisted(s, id) ensures ListedLines(a, b, id) in tail {
      TailHolds(a, b, lines, salience, cubes, ListedLines(a, b, id));
    }
    if tail != [] {
      TailHolds(a, b, lines, salience, cubes, Largest(tail));
    }
  }

  lemma TailSummaryParts(a: Stats, b: Stats, lines: nat, salience: Salience, cubes: bool)
    ensures var s, tail := ComposedStats(a, b, lines, salience, cubes), TailCounts(a, b, lines, salience);
            && (s.tailSummary.Some? <==> lines > 0 && tail != [])
            && (s.tailSummary.Some? ==>
                  s.tailSummary.value.lines == lines && s.tailSummary.value.maxCount == Largest(tail))
  {
    hide TailCounts, Largest, ComposedTopK, ComposedReservoir;
  }

  // ---------------------------------------------------------------- entropies

  /** The counted templates that are not reserved and have `n` lines. */
  ghost function CountedAt(ordered: seq<Counted>, reserved: set<TemplateId>, n: nat): set<TemplateId> {
    set c | c in ordered && c.id !in reserved && c.count == n :: c.id
  }

  lemma {:induction false} UnreservedAt(ordered: seq<Counted>, reserved: set<TemplateId>, n: nat)
    requires NoDuplicates(IdList(ordered))
    ensures multiset(Unreserved(ordered, reserved))[n] == |CountedAt(ordered, reserved, n)|
  {
    if ordered != [] {
      var front, last := ordered[..|ordered| - 1], ordered[|ordered| - 1];
      assert ordered == front + [last] && IdList(ordered) == IdList(front) + [last.id];
      LastIsNew(IdList(front), last.id);
      UnreservedAt(front, reserved, n);
      NotCounted(front, reserved, n, last.id);
      CountedSnoc(front, last, reserved, n);
    }
  }

  lemma LastIsNew(ids: seq<TemplateId>, id: TemplateId)
    requires NoDuplicates(ids + [id])
    ensures NoDuplicates(ids) && id !in ids
  {
    var all := ids + [id];
    forall i, j | 0 <= i < j < |ids| ensures ids[i] != ids[j] { assert all[i] != all[j]; }
    forall i | 0 <= i < |ids| ensures ids[i] != id { assert all[i] != all[|ids|]; }
  }

  lemma NotCounted(ordered: seq<Counted>, reserved: set<TemplateId>, n: nat, id: TemplateId)
    requires id !in IdList(ordered)
    ensures id !in CountedAt(ordered, reserved, n)
  {
    if c :| c in ordered && c.id == id {
      var i :| 0 <= i < |ordered| && ordered[i] == c;
      assert IdList(ordered)[i] == id;
    }
  }

  lemma CountedSnoc(front: seq<Counted>, last: Counted, reserved: set<TemplateId>, n: nat)
    ensures CountedAt(front + [last], reserved, n)
         == CountedAt(front, reserved, n) + if last.id !in reserved && last.count == n then {last.id} else {}
  {
    assert forall c :: c in front + [last] <==> c in front || c == last;
  }

  lemma {:induction false} NoneReserved(ordered: seq<Counted>)
    ensures Unreserved(ordered, {}) == CountList(ordered)
  {
    if ordered != [] {
      var front, last := ordered[..|ordered| - 1], ordered[|ordered| - 1];
      assert ordered == front + [last];
      NoneReserved(front);
      assert CountList(ordered) == CountList(front) + [last.count];
    }
  }

  /** The templates two documents list with `n` lines together. */
  ghost function ListedWith(a: Stats, b: Stats, n: nat): set<TemplateId> {
    set id | id in Listed(a, b) && ListedLines(a, b, id) == n
  }

  /** The entropy of a composed document is taken over the lines of both, one count for every template either lists and
      one for all that neither lists any more, when there is any. */
  lemma EntropyReads(a: Stats, b: Stats, lines: nat, salience: Salience, cubes: bool, n: nat)
    ensures var e, rest := ComposedStats(a, b, lines, salience, cubes).entropy, a.tailCount + b.tailCount;
            && (e.Some? <==> lines > 0)
            && (e.Some? ==>
                  && e.value.total == lines
                  && e.value.counts[n] == |ListedWith(a, b, n)| + if n > 0 && n == rest then 1 else 0)
  {
    hide *;
    EntropyParts(a, b, lines, salience, cubes);
    OrderedIds(a, b);
    NoneReserved(Ordered(a, b));
    UnreservedAt(Ordered(a, b), {}, n);
    CountedIsListed(a, b, n);
    RestAt(multiset(CountList(Ordered(a, b))), a.tailCount + b.tailCount, n);
  }

  lemma RestAt(counts: multiset<nat>, rest: nat, n: nat)
    ensures WithResidual(counts, rest)[n] == counts[n] + if n > 0 && n == rest then 1 else 0
  {}

  lemma CountedIsListed(a: Stats, b: Stats, n: nat)
    ensures CountedAt(Ordered(a, b), {}, n) == ListedWith(a, b, n)
  {
    OrderedHolds(a, b);
    hide Ordered, ListedLines, Listed, CountedAt, Holds;
    HeldAt(Ordered(a, b), Listed(a, b), id => ListedLines(a, b, id), n);
  }

  lemma HeldAt(ordered: seq<Counted>, ids: set<TemplateId>, count: TemplateId -> nat, n: nat)
    requires Holds(ordered, ids, count)
    ensures CountedAt(ordered, {}, n) == set id | id in ids && count(id) == n
  {
    forall id | id in ids && count(id) == n ensures id in CountedAt(ordered, {}, n) {
      var i :| 0 <= i < |ordered| && ordered[i].id == id;
      assert ordered[i] in ordered;
    }
  }

  lemma EntropyParts(a: Stats, b: Stats, lines: nat, salience: Salience, cubes: bool)
    ensures var e := ComposedStats(a, b, lines, salience, cubes).entropy;
            && (e.Some? <==> lines > 0)
            && (e.Some? ==>
                  && e.value.total == lines
                  && e.value.counts == WithResidual(multiset(CountList(Ordered(a, b))), a.tailCount + b.tailCount))
  {
    hide *;
    EntropyIs(a, b, lines, salience, cubes);
    EntropyOf(a, b, lines);
  }

  lemma EntropyIs(a: Stats, b: Stats, lines: nat, salience: Salience, cubes: bool)
    ensures ComposedStats(a, b, lines, salience, cubes).entropy == ComposedEntropy(a, b, lines)
  {
    hide ComposedEntropy, ComposedTopK, ComposedReservoir, TailCounts, ComposedTailSummary;
  }

  lemma EntropyOf(a: Stats, b: Stats, lines: nat)
    ensures var e := ComposedEntropy(a, b, lines);
            && (e.Some? <==> lines > 0)
            && (e.Some? ==>
                  && e.value.total == lines
                  && e.value.counts == WithResidual(multiset(CountList(Ordered(a, b))), a.tailCount + b.tailCount))
  {
    hide Ordered, CountList, WithResidual;
  }

  /** The templates of a window with `n` lines. */
  ghost function BucketsAt(buckets: map<TemplateId, Bucket>, n: nat): set<TemplateId> {
    set id | id in buckets && buckets[id].count == n
  }

  /** The entropy of a closed window is taken over its lines, one count for every template. */
  lemma ClosedEntropyReads(w: Window, n: nat)
    ensures var e := ClosedStats(w).entropy;
            && (e.Some? <==> w.lines > 0)
            && (e.Some? ==> e.value.total == w.lines && e.value.counts[n] == |BucketsAt(w.buckets, n)|)
  {
    hide *;
    OrderedIdsAre(w.buckets);
    ClosedEntropyParts(w);
    NoneReserved(OrderedBuckets(w.buckets));
    UnreservedAt(OrderedBuckets(w.buckets), {}, n);
    CountedIsBucket(w.buckets, n);
  }

  lemma CountedIsBucket(buckets: map<TemplateId, Bucket>, n: nat)
    ensures CountedAt(OrderedBuckets(buckets), {}, n) == BucketsAt(buckets, n)
  {
    OrderedBucketsHold(buckets);
    hide OrderedBuckets, CountedAt, Holds;
    HeldAt(OrderedBuckets(buckets), buckets.Keys, BucketCount(buckets), n);
  }

  lemma ClosedEntropyParts(w: Window)
    ensures var e := ClosedStats(w).entropy;
            && (e.Some? <==> w.lines > 0)
            && (e.Some? ==>
                  e.value.total == w.lines && e.value.counts == multiset(CountList(OrderedBuckets(w.buckets))))
  {
    hide OrderedBuckets, CountList, ClosedTopK, ClosedReservoir, ClosedTail, ClosedTailSummary;
  }

  // ---------------------------------------------------------------- labels

  /** The labels a document gives a template: those of its last reservoir entry, else of its last top_k entry, and none
      when it lists no such template. */
  lemma ViewLabels(s: Stats, id: TemplateId, i: nat)
    ensures IsLastSalient(s.reservoir, id, i) ==>
              var v, e := ViewOf(s, id), s.reservoir[i];
              v.level == e.level && v.component == e.component && v.role == e.role
    ensures (forall e :: e in s.reservoir ==> e.id != id) && IsLastListed(s.topK, id, i) ==>
              var v, e := ViewOf(s, id), s.topK[i];
              v.level == e.level && v.component == e.component && v.role == None && v.where == None
    ensures (forall e :: e in s.reservoir ==> e.id != id) && (forall e :: e in s.topK ==> e.id != id) ==>
              ViewOf(s, id) == InputTemplate(0, None, None, None, None)
  {
    hide TopKView, ReservoirView;
    if IsLastSalient(s.reservoir, id, i) { LastSalient(TopKView(s.topK, id), s.reservoir, id, i); }
    if forall e :: e in s.reservoir ==> e.id != id { NoneSalient(TopKView(s.topK, id), s.reservoir, id); }
    if IsLastListed(s.topK, id, i) { LastListed(s.topK, id, i); }
    NoRole(s.topK, id);
  }

  ghost predicate IsLastListed(entries: seq<TopKEntry>, id: TemplateId, i: nat) {
    i < |entries| && entries[i].id == id && forall j :: i < j < |entries| ==> entries[j].id != id
  }

  ghost predicate IsLastSalient(entries: seq<ReservoirEntry>, id: TemplateId, i: nat) {
    i < |entries| && entries[i].id == id && forall j :: i < j < |entries| ==> entries[j].id != id
  }

  lemma {:induction false} LastListed(entries: seq<TopKEntry>, id: TemplateId, i: nat)
    requires IsLastListed(entries, id, i)
    ensures TopKView(entries, id).level == entries[i].level && TopKView(entries, id).component == entries[i].component
  {
    if i < |entries| - 1 {
      assert entries[|entries| - 1].id != id;
      LastListed(entries[..|entries| - 1], id, i);
    }
  }

  lemma {:induction false} NoRole(entries: seq<TopKEntry>, id: TemplateId)
    ensures TopKView(entries, id).role == None && TopKView(entries, id).where == None
    ensures (forall e :: e in entries ==> e.id != id) ==> TopKView(entries, id) == NOT_CARRIED
  {
    if entries != [] {
      var front, last := entries[..|entries| - 1], entries[|entries| - 1];
      assert last in entries && forall e :: e in front ==> e in entries;
      NoRole(front, id);
    }
  }

  lemma {:induction false} LastSalient(start: InputTemplate, entries: seq<ReservoirEntry>, id: TemplateId, i: nat)
    requires IsLastSalient(entries, id, i)
    ensures var v := ReservoirView(start, entries, id);
            v.level == entries[i].level && v.component == entries[i].component && v.role == entries[i].role
  {
    if i < |entries| - 1 {
      assert entries[|entries| - 1].id != id;
      LastSalient(start, entries[..|entries| - 1], id, i);
    }
  }

  lemma {:induction false} NoneSalient(start: InputTemplate, entries: seq<ReservoirEntry>, id: TemplateId)
    requires forall e :: e in entries ==> e.id != id
    ensures ReservoirView(start, entries, id) == start
  {
    if entries != [] {
      var front, last := entries[..|entries| - 1], entries[|entries| - 1];
      assert last in entries && forall e :: e in front ==> e in entries;
      NoneSalient(start, front, id);
    }
  }

  /** The labels of a composed row are resolved from what each document gives its template: level and component in both
      lists, the role in the reservoir, and there, where both documents carry a cube, the level and the innermost
      location as its coordinate. */
  lemma RowLabels(a: Stats, b: Stats, lines: nat, salience: Salience, cubes: bool)
    ensures var s := ComposedStats(a, b, lines, salience, cubes);
            && (forall e :: e in s.topK ==>
                  var l := ResolveLabels(ViewOf(a, e.id), ViewOf(b, e.id));
                  e.level == l.level && e.component == l.component)
            && (forall e :: e in s.reservoir ==>
                  var l := ResolveLabels(ViewOf(a, e.id), ViewOf(b, e.id));
                  && e.level == l.level && e.component == l.component && e.role == l.role
                  && (e.coord.Some? <==> cubes)
                  && (cubes ==>
                        && e.coord.value.level == (if l.level.Some? then Some(l.level.value.value) else None)
                        && (e.coord.value.path.Some? ==>
                              l.where.Some? && l.where.value != []
                              && e.coord.value.path == Some([l.where.value[|l.where.value| - 1]]))
                        && e.coord.value.role == None && e.coord.value.shift == None))
  {
    StatsParts(a, b, lines, salience, cubes);
    var s, topK, r := ComposedStats(a, b, lines, salience, cubes), ComposedTopK(a, b),
                      ComposedReservoir(a, b, lines, salience, cubes);
    hide ComposedStats, Ordered, Admitted, ViewOf, ResolveLabels, ComposedHistograms, MergedCount, Verdict, Surprise,
         Novelty;
    forall e | e in s.topK
      ensures var l := ResolveLabels(ViewOf(a, e.id), ViewOf(b, e.id)); e.level == l.level && e.component == l.component
    {
      var i :| 0 <= i < |topK| && topK[i] == e;
    }
    forall e | e in s.reservoir
      ensures exists id :: e == ComposedReservoirEntry(a, b, lines, salience, cubes, id)
    {
      var i :| 0 <= i < |r| && r[i] == e;
    }
  }
}
