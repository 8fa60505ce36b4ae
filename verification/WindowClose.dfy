/** Closing a window's statistics: its buckets in one order, cut into top_k, reservoir and tail. */
module WindowClose {
  import opened Options
  import opened Identifiers
  import opened Orders
  import opened Sums
  import opened Bytes
  import opened Blocks
  import opened ComposeLabels
  import opened Histograms
  import opened ChurnAlgebra
  import opened ComposeStats
  import opened StatsLaws
  import opened StatsBuilders
  import opened SalienceScores
  import opened WindowState
  import Reservoir

  datatype Label = Label(level: Option<EventLevel>, role: RoleId, component: Text)

  /** What closing leaves to others: the terminator's id, the spelling of roles, and the failure-cue match on a
      template's text. */
  datatype CloseConfig = CloseConfig(topKSize: nat, caps: Reservoir.Caps, terminator: RoleId,
                                     spell: RoleId -> Option<Text>, cue: TemplateId -> bool)

  /** A frozen window: its buckets, their dominant labels and the surprise of each template. */
  datatype Window = Window(lines: nat, buckets: map<TemplateId, Bucket>, labels: map<TemplateId, Label>,
                           surprise: map<TemplateId, nat>, config: CloseConfig)

  const RETAINED := Churn(1, 0, 0, Present, Present)

  // ---------------------------------------------------------------- labels

  function LevelValue(level: Option<EventLevel>): Option<LevelId>
      { if level.Some? then Some(level.value.value) else None }

  /** A dominant level is declared when at least one line declared it. */
  function Witnessed(declared: map<LevelId, nat>, level: LevelId): bool { level in declared && declared[level] > 0 }

  ghost predicate IsLabel(b: Bucket, l: Label) {
    && IsDominantLevel(b.levels, LevelValue(l.level)) && IsDominantRole(b.roles, l.role)
        && IsDominantText(b.components, l.component)
    && (l.level.Some? ==> l.level.value.declared == Witnessed(b.declared, l.level.value.value))
  }

  lemma LabelUnique(b: Bucket, l: Label, l': Label)
    requires IsLabel(b, l) && IsLabel(b, l')
    ensures l == l'
  {
    hide IsDominantLevel, IsDominantRole, IsDominantText;
    DominantIsUnique(b.levels, LevelValue(l.level), LevelValue(l'.level), b.roles, l.role, l'.role, b.components,
                     l.component, l'.component);
  }

  method LabelOf(b: Bucket) returns (l: Label)
    requires forall k :: k in b.roles ==> b.roles[k] > 0
    ensures IsLabel(b, l)
  {
    hide IsDominantLevel, IsDominantRole, IsDominantText;
    var dominant := DominantLevelOf(b.levels);
    var role := DominantRoleOf(b.roles);
    var component := DominantComponentOf(b.components);
    if dominant.None? {
      return Label(None, role, component);
    }
    return Label(Some(EventLevel(dominant.value, Witnessed(b.declared, dominant.value))), role, component);
  }

  ghost predicate BucketLabelsAre(buckets: map<TemplateId, Bucket>, labels: map<TemplateId, Label>) {
    labels.Keys == buckets.Keys && forall id :: id in labels ==> IsLabel(buckets[id], labels[id])
  }

  ghost predicate RolesCounted(buckets: map<TemplateId, Bucket>) {
    forall id, k :: id in buckets && k in buckets[id].roles ==> buckets[id].roles[k] > 0
  }

  method LabelBuckets(buckets: map<TemplateId, Bucket>) returns (labels: map<TemplateId, Label>)
    requires RolesCounted(buckets)
    ensures BucketLabelsAre(buckets, labels)
  {
    hide IsLabel;
    labels := map[];
    var left := buckets.Keys;
    while left != {}
      invariant left <= buckets.Keys && labels.Keys == buckets.Keys - left
      invariant forall id :: id in labels ==> IsLabel(buckets[id], labels[id])
      decreases left
    {
      var id :| id in left;
      var its := LabelOf(buckets[id]);
      labels := labels[id := its];
      left := left - {id};
    }
  }

  lemma LabelsUnique(buckets: map<TemplateId, Bucket>, labels: map<TemplateId, Label>, labels': map<TemplateId, Label>)
    requires BucketLabelsAre(buckets, labels) && BucketLabelsAre(buckets, labels')
    ensures labels == labels'
  {
    hide IsLabel;
    forall id | id in labels ensures labels[id] == labels'[id] { LabelUnique(buckets[id], labels[id], labels'[id]); }
  }

  // ---------------------------------------------------------------- one template's view

  function BucketAt(w: Window, id: TemplateId): Bucket { if id in w.buckets then w.buckets[id] else NewBucket(0) }

  function LabelAt(w: Window, id: TemplateId): Label
      { if id in w.labels then w.labels[id] else Label(None, NO_ROLE, []) }

  function SurpriseAt(w: Window, id: TemplateId): nat { if id in w.surprise then w.surprise[id] else 0 }

  function NoveltyAt(w: Window, id: TemplateId): nat
      { NoveltyBand(BucketAt(w, id).firstSeen, w.lines, BucketAt(w, id).count) }

  function EvidenceAt(w: Window, id: TemplateId): Evidence {
    Evidence(LevelValue(LabelAt(w, id).level), LabelAt(w, id).role == w.config.terminator, !BucketAt(w, id).allEchoed
        && w.config.cue(id),
             SurpriseAt(w, id), NoveltyAt(w, id))
  }

  function ScoreAt(w: Window, id: TemplateId): SalienceScores.Verdict
      { SalienceOf(EvidenceAt(w, id), BucketAt(w, id).count, w.lines) }

  /** An error-class template: a terminator, or a failure level. */
  function ErrorClass(w: Window): TemplateId -> bool {
    (id: TemplateId) => LabelAt(w, id).role == w.config.terminator || IsFailureLevel(LabelAt(w, id).level)
  }

  const NO_LEVEL_KEY := 0xFF

  /** A kind is a role and a level packed into one key. */
  function KindKey(w: Window): TemplateId -> nat {
    (id: TemplateId) => LabelAt(w, id).role * 256 + if LabelAt(w, id).level.Some?
        then LabelAt(w, id).level.value.value else NO_LEVEL_KEY
  }

  lemma KindKeyIsInjective(w: Window, a: TemplateId, b: TemplateId)
    ensures KindKey(w)(a) == KindKey(w)(b) <==>
        LabelAt(w, a).role == LabelAt(w, b).role && LevelValue(LabelAt(w, a).level) == LevelValue(LabelAt(w, b).level)
  {}

  // ---------------------------------------------------------------- the order

  function CountedSet(buckets: map<TemplateId, Bucket>): set<Counted>
      { set id | id in buckets :: Counted(id, buckets[id].count) }

  ghost function OrderedBuckets(buckets: map<TemplateId, Bucket>): (r: seq<Counted>)
    ensures Ascending(CountedOrder, r) && Elements(r) == CountedSet(buckets)
  {
    CountedOrderIsTotal();
    SortedOf(CountedOrder, CountedSet(buckets))
  }

  method OrderBuckets(buckets: map<TemplateId, Bucket>) returns (ordered: seq<Counted>)
    ensures ordered == OrderedBuckets(buckets)
  {
    var ids := Listed(buckets.Keys);
    var list: seq<Counted> := [];
    for i := 0 to |ids|
      invariant |list| == i && forall j :: 0 <= j < i ==>
          ids[j] in buckets && list[j] == Counted(ids[j], buckets[ids[j]].count)
    {
      assert ids[i] in Elements(ids);
      list := list + [Counted(ids[i], buckets[ids[i]].count)];
    }
    ordered := Sort(CountedOrder, list);
    BucketsListed(buckets, ids, list, ordered);
  }

  lemma BucketsListed(buckets: map<TemplateId, Bucket>, ids: seq<TemplateId>, list: seq<Counted>, ordered: seq<Counted>)
    requires Elements(ids) == buckets.Keys && NoDuplicates(ids) && |list| == |ids|
    requires forall j :: 0 <= j < |ids| ==> ids[j] in buckets && list[j] == Counted(ids[j], buckets[ids[j]].count)
    requires Sorted(CountedOrder, ordered) && multiset(ordered) == multiset(list)
    ensures ordered == OrderedBuckets(buckets)
  {
    CountedOrderIsTotal();
    forall i, j | 0 <= i < j < |list| ensures list[i] != list[j] { assert ids[i] != ids[j]; }
    forall c | c in CountedSet(buckets) ensures c in list {
      assert c.id in Elements(ids);
      var i :| 0 <= i < |ids| && ids[i] == c.id;
      assert list[i] == c;
    }
    assert Elements(list) == CountedSet(buckets);
    SortedIsRanked(CountedOrder, ordered, list);
    AscendingUnique(CountedOrder, ordered, OrderedBuckets(buckets));
  }

  ghost function CutOf(w: Window): (cut: nat)
    ensures cut <= |OrderedBuckets(w.buckets)|
  {
    Min(w.config.topKSize, |OrderedBuckets(w.buckets)|)
  }

  ghost function BeyondTopK(w: Window): seq<Counted> { OrderedBuckets(w.buckets)[CutOf(w)..] }

  // ---------------------------------------------------------------- top_k

  function ChurnFor(w: Window): Churn { if w.lines == 0 then NO_CHURN else RETAINED }

  function ComponentText(l: Label): Option<Text> { if l.component != [] then Some(l.component) else None }

  function TopKEntryFor(w: Window, c: Counted): TopKEntry {
    TopKEntry(c.id, c.count, LabelAt(w, c.id).level, ComponentText(LabelAt(w, c.id)), [], ChurnFor(w))
  }

  ghost function ClosedTopK(w: Window): (r: seq<TopKEntry>)
    ensures |r| == CutOf(w) && forall i :: 0 <= i < |r| ==> r[i] == TopKEntryFor(w, OrderedBuckets(w.buckets)[i])
  {
    seq(CutOf(w), i requires 0 <= i < CutOf(w) => TopKEntryFor(w, OrderedBuckets(w.buckets)[i]))
  }

  method BuildTopK(w: Window, ordered: seq<Counted>) returns (topK: seq<TopKEntry>)
    requires ordered == OrderedBuckets(w.buckets)
    ensures topK == ClosedTopK(w)
  {
    hide OrderedBuckets;
    var cut := Min(w.config.topKSize, |ordered|);
    topK := [];
    for i := 0 to cut
      invariant |topK| == i && forall j :: 0 <= j < i ==> topK[j] == TopKEntryFor(w, ordered[j])
    {
      topK := topK + [TopKEntryFor(w, ordered[i])];
    }
  }

  // ---------------------------------------------------------------- reservoir

  /** The templates beyond top_k that some axis speaks for. */
  function CandidatesIn(w: Window, rest: seq<Counted>): seq<Reservoir.Candidate> {
    if rest == [] then []
    else
      var front, id := CandidatesIn(w, rest[..|rest| - 1]), rest[|rest| - 1].id;
      if ScoreAt(w, id).score > 0 then front + [Reservoir.Candidate(id, ScoreAt(w, id).score)] else front
  }

  lemma {:induction false} CandidatesAre(w: Window, rest: seq<Counted>)
    requires NoDuplicates(IdList(rest))
    ensures NoDuplicates(CandidatesIn(w, rest))
    ensures forall x :: x in CandidatesIn(w, rest) ==> x.id in IdList(rest) && x.salience == ScoreAt(w, x.id).score
  {
    hide ScoreAt;
    if rest != [] {
      var front, last := rest[..|rest| - 1], rest[|rest| - 1];
      assert IdList(rest) == IdList(front) + [last.id] && last.id !in IdList(front);
      CandidatesAre(w, front);
    }
  }

  ghost function AdmittedTo(w: Window): (r: seq<Reservoir.Candidate>)
  {
    Reservoir.OutranksIsTotal();
    Reservoir.Admitted(SortedBy(Reservoir.Outranks, CandidatesIn(w, BeyondTopK(w))), ErrorClass(w), KindKey(w),
                       w.config.caps)
  }

  function AxisId(axis: Axis): nat {
    match axis case LevelAxis => 0 case FailureCueAxis => 1 case TerminatorAxis => 2 case SurpriseAxis =>
        3 case NoveltyAxis => 4
  }

  function ReservoirEntryFor(w: Window, x: Reservoir.Candidate): ReservoirEntry {
    var named := LabelAt(w, x.id);
    ReservoirEntry(x.id, BucketAt(w, x.id).count, named.level, ComponentText(named), w.config.spell(named.role),
                   SurpriseAt(w, x.id), NoveltyAt(w, x.id),
                   x.salience, AxisId(ScoreAt(w, x.id).axis),
                       Some(Location(LevelValue(named.level), named.component)), ChurnFor(w))
  }

  ghost function ClosedReservoir(w: Window): (r: seq<ReservoirEntry>)
    ensures |r| == |AdmittedTo(w)| && forall i :: 0 <= i < |r| ==> r[i] == ReservoirEntryFor(w, AdmittedTo(w)[i])
  {
    seq(|AdmittedTo(w)|, i requires 0 <= i < |AdmittedTo(w)| => ReservoirEntryFor(w, AdmittedTo(w)[i]))
  }

  method CollectReservoirCandidates(w: Window, rest: seq<Counted>) returns (candidates: seq<Reservoir.Candidate>)
    requires forall c :: c in rest ==> c.id in w.buckets && c.id in w.labels
    ensures candidates == CandidatesIn(w, rest)
  {
    candidates := [];
    for i := 0 to |rest|
      invariant candidates == CandidatesIn(w, rest[..i])
    {
      var id := rest[i].id;
      assert rest[i] in rest;
      assert rest[..i + 1][..i] == rest[..i];
      var bucket, named := w.buckets[id], w.labels[id];
      var surprise := if id in w.surprise then w.surprise[id] else 0;
      var novelty := NoveltyBand(bucket.firstSeen, w.lines, bucket.count);
      var salience := SalienceScore(Evidence(LevelValue(named.level), named.role == w.config.terminator,
                                             !bucket.allEchoed && w.config.cue(id), surprise, novelty),
                                    bucket.count, w.lines);
      assert salience == ScoreAt(w, id);
      if salience.score > 0 {
        candidates := candidates + [Reservoir.Candidate(id, salience.score)];
      }
    }
    assert rest[..|rest|] == rest;
  }

  /** Nothing is admitted where nothing may be: the reservoir is off, or top_k holds every template. */
  lemma NothingAdmitted(w: Window)
    requires w.config.caps.size == 0 || BeyondTopK(w) == []
    ensures AdmittedTo(w) == []
  {
    Reservoir.OutranksIsTotal();
    NoCandidates(w);
    var candidates := CandidatesIn(w, BeyondTopK(w));
    hide BeyondTopK, CandidatesIn;
    var ranked := SortedBy(Reservoir.Outranks, candidates);
    Reservoir.NothingFits(ranked, ErrorClass(w), KindKey(w), w.config.caps);
    AdmittedToIs(w, candidates, Reservoir.Admitted(ranked, ErrorClass(w), KindKey(w), w.config.caps));
  }

  lemma NoCandidates(w: Window)
    ensures BeyondTopK(w) == [] ==> CandidatesIn(w, BeyondTopK(w)) == []
  {
    hide BeyondTopK;
  }

  method BuildReservoir(w: Window, ordered: seq<Counted>)
      returns (reservoir: seq<ReservoirEntry>, size: Option<nat>, reserved: set<TemplateId>)
    requires ordered == OrderedBuckets(w.buckets) && w.labels.Keys == w.buckets.Keys
    ensures reservoir == ClosedReservoir(w) && size == ClosedReservoirSize(w) && reserved == ReservedIds(w)
  {
    hide AdmittedTo, LabelAt, ScoreAt, BucketAt, OrderedBuckets, CandidatesIn;
    var cut := Min(w.config.topKSize, |ordered|);
    if w.config.caps.size == 0 || |ordered| <= cut {
      NothingAdmitted(w);
      return [], None, {};
    }
    var rest := ordered[cut..];
    RestListed(w.buckets, cut);
    var candidates := CollectReservoirCandidates(w, rest);
    RestIds(w.buckets, cut);
    CandidatesAre(w, rest);
    var admitted := Reservoir.AdmitReservoir(candidates, ErrorClass(w), KindKey(w), w.config.caps);
    AdmittedToIs(w, candidates, admitted);
    reservoir, reserved := AdmitEach(w, admitted);
    size := Some(w.config.caps.size);
  }

  lemma RestListed(buckets: map<TemplateId, Bucket>, cut: nat)
    requires cut <= |OrderedBuckets(buckets)|
    ensures forall c :: c in OrderedBuckets(buckets)[cut..] ==> c.id in buckets
  {
    forall c | c in OrderedBuckets(buckets)[cut..]
        ensures c.id in buckets { assert c in Elements(OrderedBuckets(buckets)); }
  }

  method AdmitEach(w: Window, admitted: seq<Reservoir.Candidate>)
      returns (reservoir: seq<ReservoirEntry>, reserved: set<TemplateId>)
    ensures |reservoir| == |admitted|
        && forall i :: 0 <= i < |admitted| ==> reservoir[i] == ReservoirEntryFor(w, admitted[i])
    ensures reserved == set x | x in admitted :: x.id
  {
    hide LabelAt, ScoreAt, BucketAt, ReservoirEntryFor;
    reservoir, reserved := [], {};
    for i := 0 to |admitted|
      invariant |reservoir| == i && forall j :: 0 <= j < i ==> reservoir[j] == ReservoirEntryFor(w, admitted[j])
      invariant reserved == set x | x in admitted[..i] :: x.id
    {
      assert admitted[..i + 1] == admitted[..i] + [admitted[i]];
      reservoir := reservoir + [ReservoirEntryFor(w, admitted[i])];
      reserved := reserved + {admitted[i].id};
    }
    assert admitted[..|admitted|] == admitted;
  }

  lemma AdmittedToIs(w: Window, candidates: seq<Reservoir.Candidate>, admitted: seq<Reservoir.Candidate>)
    requires candidates == CandidatesIn(w, BeyondTopK(w)) && StrictTotal(Reservoir.Outranks)
    requires admitted == Reservoir.Admitted(SortedBy(Reservoir.Outranks, candidates), ErrorClass(w), KindKey(w),
                                            w.config.caps)
    ensures admitted == AdmittedTo(w)
  {}

  ghost function ReservedIds(w: Window): set<TemplateId> { set x | x in AdmittedTo(w) :: x.id }

  ghost function ClosedReservoirSize(w: Window): Option<nat> {
    if w.config.caps.size == 0 || BeyondTopK(w) == [] then None else Some(w.config.caps.size)
  }

  lemma OrderedIdsAre(buckets: map<TemplateId, Bucket>)
    ensures var ordered := OrderedBuckets(buckets);
            && NoDuplicates(IdList(ordered)) && Elements(IdList(ordered)) == buckets.Keys
                && CountsAre(ordered, BucketCount(buckets))
  {
    var ordered := OrderedBuckets(buckets);
    var ids := IdList(ordered);
    forall c | c in ordered ensures c.id in buckets && c.count == buckets[c.id].count { assert c in Elements(ordered); }
    forall id ensures id in ids <==> id in buckets {
      if id in buckets {
        assert Counted(id, buckets[id].count) in Elements(ordered);
        var i :| 0 <= i < |ordered| && ordered[i] == Counted(id, buckets[id].count);
        assert ids[i] == id;
      }
      if id in ids {
        var i :| 0 <= i < |ids| && ids[i] == id;
        assert ordered[i] in ordered;
      }
    }
    forall i, j | 0 <= i < j < |ids| ensures ids[i] != ids[j] {
      assert CountedOrder(ordered[i], ordered[j]) && ordered[i] in ordered && ordered[j] in ordered;
    }
  }

  lemma RestIds(buckets: map<TemplateId, Bucket>, cut: nat)
    requires cut <= |OrderedBuckets(buckets)|
    ensures NoDuplicates(IdList(OrderedBuckets(buckets)[cut..]))
  {
    OrderedIdsAre(buckets);
    hide OrderedBuckets;
    CutIds(OrderedBuckets(buckets), cut, BucketCount(buckets));
  }

  // ---------------------------------------------------------------- tail and entropy

  ghost function ClosedTail(w: Window): seq<nat> { Unreserved(BeyondTopK(w), ReservedIds(w)) }

  ghost function ClosedTailSummary(w: Window): Option<TailSummary> {
    var tail := ClosedTail(w);
    if |tail| == 0 || w.lines == 0 then None
    else Some(TailSummary(|tail|, Entropy(multiset(tail), Total(tail)), Largest(tail), w.lines))
  }

  ghost function ClosedEntropy(w: Window): Option<Entropy> {
    if w.lines == 0 then None else Some(Entropy(multiset(CountList(OrderedBuckets(w.buckets))), w.lines))
  }

  /** A closed window's statistics; histograms are not part of this window. */
  ghost function ClosedStats(w: Window): Stats {
    Stats(ClosedTopK(w), ClosedReservoir(w), Total(ClosedTail(w)), |ClosedTail(w)|, |OrderedBuckets(w.buckets)|,
          w.config.topKSize,
          ClosedReservoirSize(w), None, None, ClosedTailSummary(w), ClosedEntropy(w))
  }

  method BuildTailAndEntropy(w: Window, ordered: seq<Counted>, reserved: set<TemplateId>)
    returns (tailCount: nat, tailUnique: nat, summary: Option<TailSummary>, entropy: Option<Entropy>)
    requires ordered == OrderedBuckets(w.buckets) && reserved == ReservedIds(w)
    ensures tailCount == Total(ClosedTail(w)) && tailUnique == |ClosedTail(w)| && summary == ClosedTailSummary(w)
        && entropy == ClosedEntropy(w)
  {
    hide OrderedBuckets, ReservedIds, Unreserved, Total, Largest;
    var cut := Min(w.config.topKSize, |ordered|);
    var counts, largest;
    counts, tailCount, largest := ScanTail(ordered[cut..], reserved);
    tailUnique := |counts|;
    summary, entropy := None, None;
    if tailUnique > 0 && w.lines > 0 {
      summary := Some(TailSummary(tailUnique, Entropy(multiset(counts), tailCount), largest, w.lines));
    }
    if w.lines > 0 {
      var all: seq<nat> := [];
      for i := 0 to |ordered|
        invariant all == CountList(ordered[..i])
      {
        all := all + [ordered[i].count];
      }
      assert ordered[..|ordered|] == ordered;
      entropy := Some(Entropy(multiset(all), w.lines));
    }
  }

  method CloseStatistics(w: Window) returns (stats: Stats)
    requires BucketLabelsAre(w.buckets, w.labels)
    ensures stats == ClosedStats(w)
  {
    hide OrderedBuckets, ClosedTopK, ClosedReservoir, ClosedTail, ClosedTailSummary, ClosedEntropy,
        ClosedReservoirSize, ReservedIds, IsLabel;
    var ordered := OrderBuckets(w.buckets);
    var topK := BuildTopK(w, ordered);
    var reservoir, size, reserved := BuildReservoir(w, ordered);
    var tailCount, tailUnique, summary, entropy := BuildTailAndEntropy(w, ordered, reserved);
    stats := Stats(topK, reservoir, tailCount, tailUnique, |ordered|, w.config.topKSize, size, None, None, summary,
                   entropy);
  }

  // ---------------------------------------------------------------- what closing guarantees

  lemma RankedCandidates(w: Window)
    ensures StrictTotal(Reservoir.Outranks)
    ensures var ranked := SortedBy(Reservoir.Outranks, CandidatesIn(w, BeyondTopK(w)));
            && Reservoir.DistinctIds(ranked)
                && forall x :: x in ranked ==> x.id in IdList(BeyondTopK(w)) && x.salience == ScoreAt(w, x.id).score
  {
    Reservoir.OutranksIsTotal();
    RestIds(w.buckets, CutOf(w));
    var rest := BeyondTopK(w);
    assert NoDuplicates(IdList(rest));
    hide OrderedBuckets, ScoreAt, BeyondTopK, Reservoir.Outranks, StrictTotal;
    CandidatesAre(w, rest);
    var candidates := CandidatesIn(w, rest);
    hide CandidatesIn, SortedBy;
    var ranked := SortedBy(Reservoir.Outranks, candidates);
    SortedIsRanked(Reservoir.Outranks, ranked, candidates);
    AscendingIsSorted(Reservoir.Outranks, ranked);
    forall x | x in ranked ensures x in candidates { assert x in Elements(ranked); }
    forall i, j | 0 <= i < j < |ranked| ensures ranked[i].id != ranked[j].id {
      assert ranked[i] in ranked && ranked[j] in ranked && ranked[i] != ranked[j];
    }
  }

  lemma AdmittedAreCandidates(w: Window)
    ensures var admitted := AdmittedTo(w);
            && Reservoir.DistinctIds(admitted) && |admitted| <= w.config.caps.size
            && forall x :: x in admitted ==> x.id in IdList(BeyondTopK(w)) && x.salience == ScoreAt(w, x.id).score
  {
    RankedCandidates(w);
    var ranked := SortedBy(Reservoir.Outranks, CandidatesIn(w, BeyondTopK(w)));
    assert AdmittedTo(w) == Reservoir.Admitted(ranked, ErrorClass(w), KindKey(w), w.config.caps);
    hide SortedBy, CandidatesIn, BeyondTopK, ScoreAt, AdmittedTo, Reservoir.Admitted, ErrorClass, KindKey;
    Reservoir.AdmissionWithin(ranked, ErrorClass(w), KindKey(w), w.config.caps);
  }

  lemma AdmittedIds(w: Window)
    ensures var ids := MapSeq(AdmittedTo(w), IdOfCandidate);
            && NoDuplicates(ids) && Elements(ids) == ReservedIds(w) && ReservedIds(w) <= Elements(IdList(BeyondTopK(w)))
            && |AdmittedTo(w)| <= w.config.caps.size
  {
    hide AdmittedTo, BeyondTopK, ScoreAt;
    AdmittedAreCandidates(w);
    var admitted := AdmittedTo(w);
    var ids := MapSeq(admitted, IdOfCandidate);
    forall i, j | 0 <= i < j < |ids| ensures ids[i] != ids[j] {
      assert admitted[i] != admitted[j] && admitted[i] in admitted && admitted[j] in admitted;
    }
    forall id | id in ReservedIds(w) ensures id in ids {
      var x :| x in admitted && x.id == id;
      var i :| 0 <= i < |admitted| && admitted[i] == x;
      assert ids[i] == id;
    }
  }

  const IdOfCandidate: Reservoir.Candidate -> TemplateId := (x: Reservoir.Candidate) => x.id

  lemma ReservoirCounts(w: Window)
    ensures Sum(ClosedReservoir(w), ReservoirCount) == SetSum(ReservedIds(w), BucketCount(w.buckets))
        && |ClosedReservoir(w)| == |ReservedIds(w)|
  {
    AdmittedIds(w);
    var ids := MapSeq(AdmittedTo(w), IdOfCandidate);
    hide AdmittedTo, LabelAt, ScoreAt, SurpriseAt, NoveltyAt, ReservedIds, BeyondTopK;
    SameSums(ClosedReservoir(w), ids, ReservoirCount, BucketCount(w.buckets));
    SequenceSum(ids, BucketCount(w.buckets));
  }

  lemma TopKCounts(w: Window)
    ensures Sum(ClosedTopK(w), TopKCount) == Sum(IdList(OrderedBuckets(w.buckets)[..CutOf(w)]), BucketCount(w.buckets))
  {
    OrderedIdsAre(w.buckets);
    var ordered, cut := OrderedBuckets(w.buckets), CutOf(w);
    hide OrderedBuckets, LabelAt, CutOf;
    forall i | 0 <= i < cut ensures ordered[i].count == BucketCount(w.buckets)(ordered[i].id)
        { assert ordered[i] in ordered; }
    SameSums(ClosedTopK(w), IdList(ordered[..cut]), TopKCount, BucketCount(w.buckets));
  }

  /** Every line of a closed window is in exactly one place: top_k, reservoir and tail share no template,
      are all the templates there are, and count all the lines; the entropy is taken over counts that add
      up to the lines; neither list exceeds its declared size. */
  lemma ClosedConserves(w: Window)
    requires SetSum(w.buckets.Keys, BucketCount(w.buckets)) == w.lines
    ensures var s := ClosedStats(w);
            && Mass(s) == w.lines
            && s.uniqueTemplates == |s.topK| + |s.reservoir| + s.tailUnique == |w.buckets|
            && TopKIds(s) !! ReservoirIds(s)
            && |s.topK| <= s.topKSize && |s.reservoir| <= w.config.caps.size
            && Total(CountList(OrderedBuckets(w.buckets))) == w.lines
  {
    hide OrderedBuckets, ClosedTopK, ClosedReservoir, ClosedTail, ReservedIds, AdmittedTo, CutOf, BeyondTopK, SetSum,
        Sum, TopKIds, ReservoirIds, ClosedReservoirSize;
    WholeWindow(w);
    ReservoirCounts(w);
    TopKCounts(w);
    AdmittedIds(w);
    CutWithin(w);
    ClosedIdsDisjoint(w);
  }

  lemma CutWithin(w: Window)
    ensures CutOf(w) <= w.config.topKSize
  {}

  lemma WholeWindow(w: Window)
    requires SetSum(w.buckets.Keys, BucketCount(w.buckets)) == w.lines
    ensures var ordered := OrderedBuckets(w.buckets);
            && Sum(IdList(ordered[..CutOf(w)]), BucketCount(w.buckets)) + Total(ClosedTail(w))
                + SetSum(ReservedIds(w), BucketCount(w.buckets)) == w.lines
            && |ordered| == CutOf(w) + |ClosedTail(w)| + |ReservedIds(w)| == |w.buckets|
            && Total(CountList(ordered)) == w.lines
  {
    OrderedIdsAre(w.buckets);
    AdmittedIds(w);
    var ordered, cut := OrderedBuckets(w.buckets), CutOf(w);
    hide OrderedBuckets, CutOf, ReservedIds, AdmittedTo, Unreserved, SetSum;
    CutIds(ordered, cut, BucketCount(w.buckets));
    UnreservedSplit(ordered[cut..], ReservedIds(w), BucketCount(w.buckets));
    ReservedWithin(ordered[cut..], ReservedIds(w));
    SequenceSum(IdList(ordered), BucketCount(w.buckets));
    forall i | 0 <= i < |ordered| ensures CountList(ordered)[i] == BucketCount(w.buckets)(IdList(ordered)[i])
        { assert ordered[i] in ordered; }
    SameSums(CountList(ordered), IdList(ordered), Itself, BucketCount(w.buckets));
    assert |w.buckets| == |w.buckets.Keys|;
  }

  lemma ClosedTopKIds(w: Window)
    ensures TopKIds(ClosedStats(w)) <= Elements(IdList(OrderedBuckets(w.buckets)[..CutOf(w)]))
  {
    hide OrderedBuckets, CutOf, LabelAt, ClosedReservoir, ClosedTail, ClosedTailSummary, ClosedEntropy,
        ClosedReservoirSize;
    var top, ids := ClosedTopK(w), IdList(OrderedBuckets(w.buckets)[..CutOf(w)]);
    forall e | e in top ensures e.id in Elements(ids) {
      var i :| 0 <= i < |top| && top[i] == e;
      assert ids[i] == e.id;
    }
  }

  lemma ClosedReservoirIds(w: Window)
    ensures ReservoirIds(ClosedStats(w)) <= ReservedIds(w)
  {
    hide AdmittedTo, LabelAt, ScoreAt, BucketAt, SurpriseAt, NoveltyAt, ClosedTopK, ClosedTail, ClosedTailSummary,
        ClosedEntropy, ClosedReservoirSize;
    var res := ClosedReservoir(w);
    forall e | e in res ensures e.id in ReservedIds(w) {
      var i :| 0 <= i < |res| && res[i] == e;
      assert AdmittedTo(w)[i] in AdmittedTo(w);
    }
  }

  lemma ClosedIdsDisjoint(w: Window)
    ensures TopKIds(ClosedStats(w)) !! ReservoirIds(ClosedStats(w))
  {
    assert BeyondTopK(w) == OrderedBuckets(w.buckets)[CutOf(w)..];
    hide *;
    OrderedIdsAre(w.buckets);
    AdmittedIds(w);
    CutIds(OrderedBuckets(w.buckets), CutOf(w), BucketCount(w.buckets));
    ClosedTopKIds(w);
    ClosedReservoirIds(w);
  }
}
