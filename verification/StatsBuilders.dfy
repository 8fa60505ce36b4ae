/** The builders of a composed document's statistics, proved against what they must produce. */
module StatsBuilders {
  import opened Options
  import opened Identifiers
  import opened Orders
  import opened Bytes
  import opened Blocks
  import opened ComposeLabels
  import opened Histograms
  import opened ChurnAlgebra
  import opened ComposeStats

  function Viewed(index: map<TemplateId, InputTemplate>, id: TemplateId): InputTemplate {
    if id in index then index[id] else NOT_CARRIED
  }

  method IndexTopK(entries: seq<TopKEntry>) returns (index: map<TemplateId, InputTemplate>)
    ensures index.Keys == set e | e in entries :: e.id
    ensures forall id :: Viewed(index, id) == TopKView(entries, id)
  {
    index := map[];
    for k := 0 to |entries|
      invariant index.Keys == set e | e in entries[..k] :: e.id
      invariant forall id :: Viewed(index, id) == TopKView(entries[..k], id)
    {
      var e := entries[k];
      assert entries[..k + 1] == entries[..k] + [e];
      assert entries[..k + 1][..k] == entries[..k];
      var view := Viewed(index, e.id);
      index := index[e.id := view.(count := view.count + e.count, level := e.level, component := e.component)];
    }
    assert entries[..|entries|] == entries;
  }

  /** One view per listed template: counts added up, labels from the last entry that carried them. */
  method IndexInputTemplates(s: Stats) returns (index: map<TemplateId, InputTemplate>)
    ensures index.Keys == Ids(s) && forall id :: Viewed(index, id) == ViewOf(s, id)
  {
    index := IndexTopK(s.topK);
    hide TopKView;
    for k := 0 to |s.reservoir|
      invariant index.Keys == TopKIds(s) + set e | e in s.reservoir[..k] :: e.id
      invariant forall id :: Viewed(index, id) == ReservoirView(TopKView(s.topK, id), s.reservoir[..k], id)
    {
      var e := s.reservoir[k];
      assert s.reservoir[..k + 1] == s.reservoir[..k] + [e];
      assert s.reservoir[..k + 1][..k] == s.reservoir[..k];
      var view := Viewed(index, e.id);
      view := view.(count := view.count + e.count, level := e.level, component := e.component, role := e.role);
      if e.coord.Some? && e.coord.value.path.Some? && e.coord.value.path.value != [] {
        view := view.(where := e.coord.value.path);
      }
      index := index[e.id := view];
    }
    assert s.reservoir[..|s.reservoir|] == s.reservoir;
  }

  /** A set's members in whatever order iteration yields them. */
  method Listed(s: set<TemplateId>) returns (r: seq<TemplateId>)
    ensures Elements(r) == s && NoDuplicates(r)
  {
    r := [];
    var rest := s;
    while rest != {}
      invariant Elements(r) + rest == s && Elements(r) !! rest && NoDuplicates(r)
      decreases |rest|
    {
      var id: TemplateId :| id in rest;
      assert id !in Elements(r);
      NewItem(r, id);
      hide Elements, NoDuplicates;
      r := r + [id];
      rest := rest - {id};
    }
  }

  ghost predicate CountsFor(counts: map<TemplateId, nat>, a: Stats, b: Stats, ids: set<TemplateId>) {
    counts.Keys == ids && forall id :: id in counts ==> counts[id] == MergedCount(a, b, id)
  }

  ghost predicate LabelsAre(labels: map<TemplateId, Labels>, a: Stats, b: Stats, ids: set<TemplateId>) {
    labels.Keys == ids && forall id :: id in labels ==> labels[id] == LabelsFor(a, b, id)
  }

  ghost predicate ListFor(list: seq<Counted>, a: Stats, b: Stats, ids: seq<TemplateId>) {
    |list| == |ids| && forall i :: 0 <= i < |ids| ==> list[i] == Counted(ids[i], MergedCount(a, b, ids[i]))
  }

  lemma FoldStep(counts: map<TemplateId, nat>, labels: map<TemplateId, Labels>, list: seq<Counted>, a: Stats,
                 b: Stats, ids: seq<TemplateId>, id: TemplateId)
    requires CountsFor(counts, a, b, Elements(ids)) && LabelsAre(labels, a, b, Elements(ids))
        && ListFor(list, a, b, ids)
    ensures CountsFor(counts[id := MergedCount(a, b, id)], a, b, Elements(ids + [id]))
    ensures LabelsAre(labels[id := LabelsFor(a, b, id)], a, b, Elements(ids + [id]))
    ensures ListFor(list + [Counted(id, MergedCount(a, b, id))], a, b, ids + [id])
  {
    hide MergedCount, LabelsFor;
    assert Elements(ids + [id]) == Elements(ids) + {id};
  }

  method FoldInputs(a: Stats, b: Stats, ids: seq<TemplateId>, lhs: map<TemplateId, InputTemplate>,
                    rhs: map<TemplateId, InputTemplate>)
    returns (counts: map<TemplateId, nat>, labels: map<TemplateId, Labels>, list: seq<Counted>)
    requires (forall id :: Viewed(lhs, id) == ViewOf(a, id)) && forall id :: Viewed(rhs, id) == ViewOf(b, id)
    ensures CountsFor(counts, a, b, Elements(ids)) && LabelsAre(labels, a, b, Elements(ids)) && ListFor(list, a, b, ids)
  {
    hide ViewOf, ResolveLabels, CountsFor, LabelsAre, ListFor, Elements;
    counts, labels, list := map[], map[], [];
    NothingFolded(a, b);
    for k := 0 to |ids|
      invariant CountsFor(counts, a, b, Elements(ids[..k])) && LabelsAre(labels, a, b, Elements(ids[..k]))
          && ListFor(list, a, b, ids[..k])
    {
      var id := ids[k];
      assert ids[..k + 1] == ids[..k] + [id];
      assert Viewed(lhs, id) == ViewOf(a, id) && Viewed(rhs, id) == ViewOf(b, id);
      FoldStep(counts, labels, list, a, b, ids[..k], id);
      var count := Viewed(lhs, id).count + Viewed(rhs, id).count;
      counts := counts[id := count];
      labels := labels[id := ResolveLabels(Viewed(lhs, id), Viewed(rhs, id))];
      list := list + [Counted(id, count)];
    }
    assert ids[..|ids|] == ids;
  }

  lemma NothingFolded(a: Stats, b: Stats)
    ensures CountsFor(map[], a, b, Elements([])) && LabelsAre(map[], a, b, Elements([])) && ListFor([], a, b, [])
  {}

  /** The merged counts and labels of every template of either input, and their order. */
  method AggregateAndOrder(a: Stats, b: Stats)
    returns (counts: map<TemplateId, nat>, labels: map<TemplateId, Labels>, ordered: seq<Counted>)
    ensures CountsFor(counts, a, b, Ids(a) + Ids(b)) && LabelsAre(labels, a, b, Ids(a) + Ids(b))
    ensures ordered == Ordered(a, b)
  {
    hide ViewOf, Ids, CountsFor, LabelsAre, ListFor;
    var lhs := IndexInputTemplates(a);
    var rhs := IndexInputTemplates(b);
    var ids := Listed(lhs.Keys + rhs.Keys);
    var list: seq<Counted>;
    counts, labels, list := FoldInputs(a, b, ids, lhs, rhs);
    ordered := Sort(CountedOrder, list);
    ListIsOrdered(a, b, ids, list, ordered);
  }

  lemma ListIsOrdered(a: Stats, b: Stats, ids: seq<TemplateId>, list: seq<Counted>, ordered: seq<Counted>)
    requires Elements(ids) == Ids(a) + Ids(b) && NoDuplicates(ids) && ListFor(list, a, b, ids)
    requires Sorted(CountedOrder, ordered) && multiset(ordered) == multiset(list)
    ensures ordered == Ordered(a, b)
  {
    hide ViewOf, Ids;
    forall i, j | 0 <= i < j < |list| ensures list[i] != list[j] { assert ids[i] != ids[j]; }
    ListElements(a, b, ids, list);
    CountedOrderIsTotal();
    SortedIsRanked(CountedOrder, ordered, list);
    AscendingUnique(CountedOrder, ordered, Ordered(a, b));
  }

  lemma ListElements(a: Stats, b: Stats, ids: seq<TemplateId>, list: seq<Counted>)
    requires Elements(ids) == Ids(a) + Ids(b) && ListFor(list, a, b, ids)
    ensures Elements(list) == CountedOf(a, b)
  {
    hide MergedCount, Ids;
    forall c | c in CountedOf(a, b) ensures c in list {
      var id :| id in Ids(a) + Ids(b) && c == Counted(id, MergedCount(a, b, id));
      assert id in Elements(ids);
      var i :| 0 <= i < |ids| && ids[i] == id;
      assert list[i] == c;
    }
    forall c | c in list ensures c in CountedOf(a, b) {
      var i :| 0 <= i < |list| && list[i] == c;
      assert ids[i] in Elements(ids);
    }
  }

  // ---------------------------------------------------------------- top_k

  /** Every entry's histograms have one slot per parameter index. */
  ghost predicate SlotsAreDistinct(s: Stats) { forall e :: e in s.topK ==> DistinctSlots(e.histograms) }

  lemma {:induction false} FoundSlotsDistinct(entries: seq<TopKEntry>, id: TemplateId)
    requires forall e :: e in entries ==> DistinctSlots(e.histograms)
    ensures DistinctSlots(HistogramsOf(entries, id))
  {
    if entries != [] {
      assert entries[0] in entries;
      assert forall e :: e in entries[1..] ==> e in entries;
      FoundSlotsDistinct(entries[1..], id);
    }
  }

  method FindHistograms(entries: seq<TopKEntry>, id: TemplateId) returns (hists: seq<FieldHistogram>)
    ensures hists == HistogramsOf(entries, id)
  {
    var k := 0;
    while k < |entries|
      invariant 0 <= k <= |entries| && HistogramsOf(entries[k..], id) == HistogramsOf(entries, id)
    {
      assert entries[k..][1..] == entries[k + 1..];
      if entries[k].id == id {
        return entries[k].histograms;
      }
      k := k + 1;
    }
    return [];
  }

  method BuildTopKEntry(a: Stats, b: Stats, c: Counted, labels: Labels) returns (entry: TopKEntry)
    requires SlotsAreDistinct(a) && SlotsAreDistinct(b) && labels == LabelsFor(a, b, c.id)
    ensures entry == ComposedTopKEntry(a, b, c)
  {
    hide LabelsFor, MergedHistograms;
    var lhs := FindHistograms(a.topK, c.id);
    var rhs := FindHistograms(b.topK, c.id);
    FoundSlotsDistinct(a.topK, c.id);
    FoundSlotsDistinct(b.topK, c.id);
    var hists: seq<FieldHistogram> := [];
    if lhs != [] || rhs != [] {
      hists := MergeFieldHistograms(lhs, rhs, MinDeclaredCap(a.histogramSize, b.histogramSize), ValueCap(a, b));
    }
    entry := TopKEntry(c.id, c.count, labels.level, labels.component, hists, NO_CHURN);
  }

  method BuildComposedTopK(a: Stats, b: Stats, ordered: seq<Counted>, labels: map<TemplateId, Labels>)
      returns (topK: seq<TopKEntry>)
    requires SlotsAreDistinct(a) && SlotsAreDistinct(b) && ordered == Ordered(a, b)
    requires LabelsAre(labels, a, b, Ids(a) + Ids(b))
    ensures topK == ComposedTopK(a, b)
  {
    hide Ordered, LabelsFor, ComposedTopKEntry, Ids, SlotsAreDistinct;
    var cut := Min(Min(a.topKSize, b.topKSize), |ordered|);
    topK := [];
    for i := 0 to cut
      invariant |topK| == i && forall j :: 0 <= j < i ==> topK[j] == ComposedTopKEntry(a, b, ordered[j])
    {
      OrderedIdListed(a, b, i);
      var entry := BuildTopKEntry(a, b, ordered[i], labels[ordered[i].id]);
      topK := topK + [entry];
    }
  }

  lemma OrderedIdListed(a: Stats, b: Stats, i: nat)
    requires i < |Ordered(a, b)|
    ensures Ordered(a, b)[i].id in Ids(a) + Ids(b)
  {
    hide ViewOf, Ids;
    assert Ordered(a, b)[i] in Elements(Ordered(a, b));
  }

  // ---------------------------------------------------------------- reservoir

  datatype SalienceInfo = SalienceInfo(surprise: nat, novelty: nat)

  function InfoOf(info: map<TemplateId, SalienceInfo>, id: TemplateId): SalienceInfo
      { if id in info then info[id] else SalienceInfo(0, 0) }

  method AbsorbReservoirs(start: map<TemplateId, SalienceInfo>, entries: seq<ReservoirEntry>)
      returns (info: map<TemplateId, SalienceInfo>)
    ensures info.Keys == start.Keys + set e | e in entries :: e.id
    ensures forall id :: InfoOf(info, id) == SalienceInfo(Max(InfoOf(start, id).surprise, SurpriseIn(entries, id)),
                                                          Max(InfoOf(start, id).novelty, NoveltyIn(entries, id)))
  {
    info := start;
    for k := 0 to |entries|
      invariant info.Keys == start.Keys + set e | e in entries[..k] :: e.id
      invariant forall id :: InfoOf(info,
                                    id) == SalienceInfo(Max(InfoOf(start, id).surprise, SurpriseIn(entries[..k], id)),
                                                              Max(InfoOf(start, id).novelty,
                                                                  NoveltyIn(entries[..k], id)))
    {
      var e := entries[k];
      assert entries[..k + 1] == entries[..k] + [e] && entries[..k + 1][..k] == entries[..k];
      var before := InfoOf(info, e.id);
      info := info[e.id := SalienceInfo(Max(before.surprise, e.surprise), Max(before.novelty, e.novelty))];
    }
    assert entries[..|entries|] == entries;
  }

  method SalienceInfos(a: Stats, b: Stats) returns (info: map<TemplateId, SalienceInfo>)
    ensures info.Keys == ReservoirIds(a) + ReservoirIds(b)
    ensures forall id :: InfoOf(info, id) == SalienceInfo(Surprise(a, b, id), Novelty(a, b, id))
  {
    info := AbsorbReservoirs(map[], a.reservoir);
    info := AbsorbReservoirs(info, b.reservoir);
  }

  /** One template's candidacy: outside the composed top_k with a positive salience. */
  method Consider(a: Stats, b: Stats, topK: seq<TopKEntry>, count: nat, labels: Labels, info: SalienceInfo, lines: nat,
                  salience: Salience, id: TemplateId) returns (candidate: Option<Candidate>)
    requires topK == ComposedTopK(a, b) && count == MergedCount(a, b, id) && labels == LabelsFor(a, b, id)
    requires info == SalienceInfo(Surprise(a, b, id), Novelty(a, b, id)) && id in ReservoirIds(a) + ReservoirIds(b)
    ensures candidate.Some? <==> id in CandidateIds(a, b, lines, salience)
    ensures candidate.Some? ==> candidate.value == CandidateOf(a, b, lines, salience, id)
  {
    hide ComposedTopK, LabelsFor, MergedCount, Surprise, Novelty;
    var listed := exists e :: e in topK && e.id == id;
    if listed {
      return None;
    }
    var verdict := salience(if labels.level.Some? then Some(labels.level.value.value) else None, labels.role, count,
                            lines,
                            info.surprise, info.novelty);
    if verdict.0 > 0 {
      return Some(Candidate(id, verdict.0, info.surprise, info.novelty, verdict.1));
    }
    return None;
  }

  ghost predicate CandidatesFor(candidates: seq<Candidate>, ids: seq<TemplateId>, a: Stats, b: Stats, lines: nat,
                                salience: Salience) {
    && NoDuplicates(ids) && |candidates| == |ids|
    && (forall i :: 0 <= i < |ids| ==> candidates[i] == CandidateOf(a, b, lines, salience, ids[i]))
  }

  lemma OneMore(candidates: seq<Candidate>, ids: seq<TemplateId>, a: Stats, b: Stats, lines: nat, salience: Salience,
                id: TemplateId)
    requires CandidatesFor(candidates, ids, a, b, lines, salience) && id !in Elements(ids)
    ensures CandidatesFor(candidates + [CandidateOf(a, b, lines, salience, id)], ids + [id], a, b, lines, salience)
    ensures Elements(ids + [id]) == Elements(ids) + {id}
  {
    hide CandidateOf;
    NewItem(ids, id);
  }

  method CollectCandidates(a: Stats, b: Stats, topK: seq<TopKEntry>, counts: map<TemplateId, nat>,
                           labels: map<TemplateId, Labels>,
                           lines: nat, salience: Salience)
                               returns (candidates: seq<Candidate>, ghost ids: seq<TemplateId>)
    requires topK == ComposedTopK(a, b) && CountsFor(counts, a, b, Ids(a) + Ids(b))
        && LabelsAre(labels, a, b, Ids(a) + Ids(b))
    ensures CandidatesFor(candidates, ids, a, b, lines, salience)
        && Elements(ids) == CandidateIds(a, b, lines, salience)
  {
    var info := SalienceInfos(a, b);
    var all := Listed(info.Keys);
    CandidatesAreReserved(a, b, lines, salience);
    assert CountsFor(counts, a, b, counts.Keys) && info.Keys <= counts.Keys;
    hide ComposedTopK, LabelsFor, MergedCount, Surprise, Novelty, CandidateOf, CandidateIds, CandidatesFor,
        ReservoirIds, NoDuplicates;
    candidates, ids := [], [];
    NoCandidates(a, b, lines, salience);
    for k := 0 to |all|
      invariant CandidatesFor(candidates, ids, a, b, lines, salience)
      invariant Elements(ids) == Elements(all[..k]) * CandidateIds(a, b, lines, salience)
    {
      var id := all[k];
      PrefixGrows(all, k);
      assert InfoOf(info, id) == SalienceInfo(Surprise(a, b, id), Novelty(a, b, id));
      var candidate := Consider(a, b, topK, counts[id], labels[id], info[id], lines, salience, id);
      if candidate.Some? {
        OneMore(candidates, ids, a, b, lines, salience, id);
        ids := ids + [id];
        candidates := candidates + [candidate.value];
      }
    }
    assert all[..|all|] == all;
  }

  lemma CandidatesAreReserved(a: Stats, b: Stats, lines: nat, salience: Salience)
    ensures CandidateIds(a, b, lines, salience) <= ReservoirIds(a) + ReservoirIds(b) <= Ids(a) + Ids(b)
  {
    hide Verdict, ComposedTopKIds;
  }

  lemma NoCandidates(a: Stats, b: Stats, lines: nat, salience: Salience)
    ensures CandidatesFor([], [], a, b, lines, salience)
  {}

  lemma PrefixGrows(all: seq<TemplateId>, k: nat)
    requires NoDuplicates(all) && k < |all|
    ensures Elements(all[..k + 1]) == Elements(all[..k]) + {all[k]} && all[k] !in Elements(all[..k])
        && all[k] in Elements(all)
  {
    assert all[..k + 1] == all[..k] + [all[k]];
  }

  method BuildReservoirEntry(a: Stats, b: Stats, c: Candidate, count: nat, labels: Labels, cubes: bool,
                             ghost lines: nat, ghost salience: Salience) returns (entry: ReservoirEntry)
    requires c == CandidateOf(a, b, lines, salience, c.id) && count == MergedCount(a, b, c.id)
        && labels == LabelsFor(a, b, c.id)
    ensures entry == ComposedReservoirEntry(a, b, lines, salience, cubes, c.id)
  {
    hide CandidateOf, LabelsFor, MergedCount;
    var level: Option<LevelId> := if labels.level.Some? then Some(labels.level.value.value) else None;
    var leaf := if labels.where.Some? && labels.where.value != [] then labels.where.value[|labels.where.value| - 1]
        else [];
    var coord := if cubes then Some(Location(level, leaf)) else None;
    entry := ReservoirEntry(c.id, count, labels.level, labels.component, labels.role, c.surprise, c.novelty,
                            c.salience, c.axis, coord, NO_CHURN);
  }

  method RederiveReservoir(a: Stats, b: Stats, topK: seq<TopKEntry>, counts: map<TemplateId, nat>,
                           labels: map<TemplateId, Labels>,
                           lines: nat, salience: Salience, cubes: bool)
    returns (reservoir: seq<ReservoirEntry>, size: Option<nat>, reserved: set<TemplateId>)
    requires topK == ComposedTopK(a, b) && CountsFor(counts, a, b, Ids(a) + Ids(b))
        && LabelsAre(labels, a, b, Ids(a) + Ids(b))
    ensures reservoir == ComposedReservoir(a, b, lines, salience, cubes)
        && size == MinDeclaredCap(a.reservoirSize, b.reservoirSize)
    ensures reserved == Elements(Admitted(a, b, lines, salience))
  {
    ghost var ids: seq<TemplateId>;
    var found: seq<Candidate>;
    found, ids := CollectCandidates(a, b, topK, counts, labels, lines, salience);
    CandidateOrderIsPartial();
    var ranked := Sort(CandidateOrder, found);
    RankedAre(a, b, lines, salience, ids, found, ranked);
    size := MinDeclaredCap(a.reservoirSize, b.reservoirSize);
    var bound := if size.Some? then size.value else |ranked|;
    AdmittedPrefix(a, b, lines, salience, ranked, bound);
    reservoir, reserved := AdmitReservoir(a, b, ranked, bound, counts, labels, cubes, lines, salience);
  }

  ghost predicate AdmitsPrefix(admitted: seq<TemplateId>, ranked: seq<Candidate>, bound: nat, a: Stats, b: Stats,
                               lines: nat, salience: Salience) {
    && |admitted| == Min(bound, |ranked|)
    && (forall i :: 0 <= i < |admitted| ==> ranked[i] == CandidateOf(a, b, lines, salience, admitted[i]))
  }

  lemma AdmittedPrefix(a: Stats, b: Stats, lines: nat, salience: Salience, ranked: seq<Candidate>, bound: nat)
    requires |ranked| == |RankedCandidates(a, b, lines, salience)|
    requires forall i :: 0 <= i < |ranked| ==>
        ranked[i] == CandidateOf(a, b, lines, salience, RankedCandidates(a, b, lines, salience)[i])
    requires bound == (match MinDeclaredCap(a.reservoirSize, b.reservoirSize) case None => |ranked| case Some(n) => n)
    ensures AdmitsPrefix(Admitted(a, b, lines, salience), ranked, bound, a, b, lines, salience)
  {
    hide CandidateOf, RankedCandidates;
  }

  method AdmitReservoir(a: Stats, b: Stats, ranked: seq<Candidate>, bound: nat, counts: map<TemplateId, nat>,
                        labels: map<TemplateId, Labels>,
                        cubes: bool, ghost lines: nat, ghost salience: Salience)
    returns (reservoir: seq<ReservoirEntry>, reserved: set<TemplateId>)
    requires AdmitsPrefix(Admitted(a, b, lines, salience), ranked, bound, a, b, lines, salience)
    requires CountsFor(counts, a, b, Ids(a) + Ids(b)) && LabelsAre(labels, a, b, Ids(a) + Ids(b))
    ensures reservoir == ComposedReservoir(a, b, lines, salience, cubes)
        && reserved == Elements(Admitted(a, b, lines, salience))
  {
    ghost var admitted := Admitted(a, b, lines, salience);
    reservoir, reserved := [], {};
    hide CandidateOf, LabelsFor, MergedCount, Admitted, Ids, ComposedReservoirEntry;
    for k := 0 to |ranked|
      invariant k <= bound && |reservoir| == k && reserved == Elements(admitted[..k])
      invariant forall i :: 0 <= i < k ==>
          reservoir[i] == ComposedReservoirEntry(a, b, lines, salience, cubes, admitted[i])
    {
      if |reservoir| >= bound {
        assert admitted[..k] == admitted;
        break;
      }
      AdmittedListed(a, b, lines, salience, k);
      var c := ranked[k];
      var entry := BuildReservoirEntry(a, b, c, counts[c.id], labels[c.id], cubes, lines, salience);
      reservoir := reservoir + [entry];
      reserved := reserved + {c.id};
      assert admitted[..k + 1] == admitted[..k] + [admitted[k]];
      assert Elements(admitted[..k + 1]) == Elements(admitted[..k]) + {admitted[k]};
    }
    assert admitted[..|admitted|] == admitted;
  }

  lemma AdmittedListed(a: Stats, b: Stats, lines: nat, salience: Salience, k: nat)
    requires k < |Admitted(a, b, lines, salience)|
    ensures var id := Admitted(a, b, lines, salience)[k];
            id in Ids(a) + Ids(b) && CandidateOf(a, b, lines, salience, id).id == id
  {
    hide Verdict, ComposedTopKIds;
    var ranked := RankedCandidates(a, b, lines, salience);
    assert ranked[k] in Elements(ranked);
  }

  /** Sorted candidates follow the salience order of their ids. */
  lemma RankedAre(a: Stats, b: Stats, lines: nat, salience: Salience, ids: seq<TemplateId>, found: seq<Candidate>,
                  ranked: seq<Candidate>)
    requires CandidatesFor(found, ids, a, b, lines, salience) && Elements(ids) == CandidateIds(a, b, lines, salience)
    requires Sorted(CandidateOrder, ranked) && multiset(ranked) == multiset(found)
    ensures |ranked| == |RankedCandidates(a, b, lines, salience)|
    ensures forall i :: 0 <= i < |ranked| ==>
        ranked[i] == CandidateOf(a, b, lines, salience, RankedCandidates(a, b, lines, salience)[i])
  {
    hide Verdict, CandidateIds;
    var less, order := SalienceOrder(a, b, lines, salience), IdsOf(ranked);
    forall i | 0 <= i < |found| ensures found[i].id == ids[i] {}
    MatchedCandidates(ids, found, ranked);
    SalienceOrderIsTotal(a, b, lines, salience);
    forall i | 0 <= i < |ranked| ensures ranked[i] == CandidateOf(a, b, lines, salience, order[i]) {
      assert ranked[i] in found;
      var j :| 0 <= j < |found| && found[j] == ranked[i];
    }
    forall i, j | 0 <= i < j < |order| ensures less(order[i], order[j]) {
      assert !CandidateOrder(ranked[j], ranked[i]) && order[i] != order[j];
      var x, y := order[i], order[j];
      assert x == y || less(x, y) || less(y, x);
    }
    AscendingUnique(less, order, RankedCandidates(a, b, lines, salience));
  }

  function IdsOf(candidates: seq<Candidate>): (r: seq<TemplateId>)
    ensures |r| == |candidates| && forall i :: 0 <= i < |r| ==> r[i] == candidates[i].id
  {
    seq(|candidates|, i requires 0 <= i < |candidates| => candidates[i].id)
  }

  lemma MatchedCandidates(ids: seq<TemplateId>, found: seq<Candidate>, ranked: seq<Candidate>)
    requires NoDuplicates(ids) && |found| == |ids| && multiset(ranked) == multiset(found)
    requires forall i :: 0 <= i < |ids| ==> found[i].id == ids[i]
    ensures |ranked| == |found| && (forall c :: c in ranked ==> c in found)
    ensures Elements(IdsOf(ranked)) == Elements(ids) && NoDuplicates(IdsOf(ranked))
  {
    assert |ranked| == |multiset(ranked)| == |found|;
    assert forall c :: c in ranked <==> c in multiset(ranked);
    assert forall c :: c in found <==> c in multiset(found);
    forall id ensures id in IdsOf(ranked) <==> id in ids {
      if id in ids {
        var i :| 0 <= i < |ids| && ids[i] == id;
        assert found[i] in ranked;
        var j :| 0 <= j < |ranked| && ranked[j] == found[i];
        assert IdsOf(ranked)[j] == id;
      }
      if id in IdsOf(ranked) {
        var j :| 0 <= j < |ranked| && IdsOf(ranked)[j] == id;
        assert ranked[j] in found;
        var i :| 0 <= i < |found| && found[i] == ranked[j];
      }
    }
    forall i, j | 0 <= i < j < |ranked|
        ensures IdsOf(ranked)[i] != IdsOf(ranked)[j] { RankedDistinctIds(ids, found, ranked, i, j); }
  }

  lemma RankedDistinctIds(ids: seq<TemplateId>, found: seq<Candidate>, ranked: seq<Candidate>, i: nat, j: nat)
    requires NoDuplicates(ids) && |found| == |ids| && multiset(ranked) == multiset(found) && i < j < |ranked|
    requires forall k :: 0 <= k < |ids| ==> found[k].id == ids[k]
    ensures ranked[i].id != ranked[j].id
  {
    assert ranked[i] in multiset(found) && ranked[j] in multiset(found);
    var x :| 0 <= x < |found| && found[x] == ranked[i];
    var y :| 0 <= y < |found| && found[y] == ranked[j];
    if x == y {
      TwiceInMultiset(ranked, i, j);
      forall p, q | 0 <= p < q < |found| ensures found[p] != found[q] { assert ids[p] != ids[q]; }
      OnceInMultiset(found, ranked[i]);
    }
  }

  // ---------------------------------------------------------------- tail

  method ScanTail(rest: seq<Counted>, reserved: set<TemplateId>) returns (counts: seq<nat>, sum: nat, largest: nat)
    ensures counts == Unreserved(rest, reserved) && sum == Total(counts) && largest == Largest(counts)
  {
    hide Unreserved, Total, Largest;
    sum, largest, counts := 0, 0, [];
    NothingScanned(reserved);
    for i := 0 to |rest|
      invariant counts == Unreserved(rest[..i], reserved) && sum == Total(counts) && largest == Largest(counts)
    {
      assert rest[..i + 1] == rest[..i] + [rest[i]];
      ScanStep(rest[..i], rest[i], reserved, counts);
      if rest[i].id in reserved {
        continue;
      }
      var count := rest[i].count;
      sum := sum + count;
      if count > largest {
        largest := count;
      }
      counts := counts + [count];
    }
    assert rest[..|rest|] == rest;
  }

  lemma NothingScanned(reserved: set<TemplateId>)
    ensures Unreserved([], reserved) == [] && Total([]) == 0 && Largest([]) == 0
  {}

  lemma ScanStep(seen: seq<Counted>, c: Counted, reserved: set<TemplateId>, counts: seq<nat>)
    requires counts == Unreserved(seen, reserved)
    ensures Unreserved(seen + [c], reserved) == if c.id in reserved then counts else counts + [c.count]
    ensures Total(counts + [c.count]) == Total(counts) + c.count
    ensures Largest(counts + [c.count]) == if c.count > Largest(counts) then c.count else Largest(counts)
  {
    assert (seen + [c])[..|seen|] == seen;
    SumSnoc<nat>(counts, c.count, Itself);
    assert (counts + [c.count])[..|counts|] == counts;
  }

  method BuildComposedTail(a: Stats, b: Stats, ordered: seq<Counted>, reserved: set<TemplateId>, lines: nat,
                           ghost salience: Salience)
    returns (tailCount: nat, tailUnique: nat, summary: Option<TailSummary>)
    requires ordered == Ordered(a, b) && reserved == Elements(Admitted(a, b, lines, salience))
    ensures tailUnique == |TailCounts(a, b, lines, salience)|
    ensures tailCount == Total(TailCounts(a, b, lines, salience)) + a.tailCount + b.tailCount
    ensures summary == ComposedTailSummary(a, b, lines, salience)
  {
    hide Ordered, Admitted, Unreserved, Total, Largest;
    var cut := Min(Min(a.topKSize, b.topKSize), |ordered|);
    var counts, sum, largest := ScanTail(ordered[cut..], reserved);
    assert counts == TailCounts(a, b, lines, salience);
    tailCount := sum + a.tailCount + b.tailCount;
    tailUnique := |counts|;
    summary := None;
    if tailUnique > 0 && lines > 0 {
      var residual := a.tailCount + b.tailCount;
      summary := Some(TailSummary(tailUnique, Entropy(WithResidual(multiset(counts), residual), sum + residual),
                                  largest, lines));
    }
  }

  method RecomputeEntropy(a: Stats, b: Stats, ordered: seq<Counted>, lines: nat) returns (entropy: Option<Entropy>)
    requires ordered == Ordered(a, b)
    ensures entropy == ComposedEntropy(a, b, lines)
  {
    hide Ordered;
    if lines == 0 {
      return None;
    }
    var counts: seq<nat> := [];
    for i := 0 to |ordered|
      invariant counts == CountList(ordered[..i])
    {
      counts := counts + [ordered[i].count];
    }
    assert ordered[..|ordered|] == ordered;
    return Some(Entropy(WithResidual(multiset(counts), a.tailCount + b.tailCount), lines));
  }

  method ComposeStatistics(a: Stats, b: Stats, lines: nat, salience: Salience, cubes: bool) returns (out: Stats)
    requires SlotsAreDistinct(a) && SlotsAreDistinct(b)
    ensures out == ComposedStats(a, b, lines, salience, cubes)
  {
    hide Ordered, ComposedTopK, ComposedReservoir, TailCounts, ComposedTailSummary, ComposedEntropy, Admitted,
        LabelsFor, MergedCount, Ids;
    var counts, labels, ordered := AggregateAndOrder(a, b);
    var topK := BuildComposedTopK(a, b, ordered, labels);
    var reservoir, reservoirSize, reserved := RederiveReservoir(a, b, topK, counts, labels, lines, salience, cubes);
    var tailCount, tailUnique, summary := BuildComposedTail(a, b, ordered, reserved, lines, salience);
    var entropy := RecomputeEntropy(a, b, ordered, lines);
    out := Stats(topK, reservoir, tailCount, tailUnique, |ordered|, Min(a.topKSize, b.topKSize), reservoirSize,
                 MinDeclaredCap(a.histogramSize, b.histogramSize), Some(ValueCap(a, b)), summary, entropy);
  }
}
