/** The verdict on a comparison, and exactly when two documents compare as unchanged. */
module Outcome {
  import opened Options
  import opened Identifiers
  import opened Orders
  import opened Bytes
  import opened Collapse
  import opened Interning
  import opened Blocks
  import opened ComposeLabels
  import opened Histograms
  import opened ComposeStats
  import opened Behaviors
  import opened Composition
  import opened ComposeDocument
  import opened Divergences
  import opened Ranking
  import Border
  import CubeDiff
  import CubeReading
  import Latency
  import opened Diff
  import opened SalienceScores

  datatype ComparisonOutcome = ChangedOutcome | UnchangedOutcome

  method AnyTemplateMoved(rows: seq<TemplateDelta>) returns (found: bool)
    ensures found <==> exists i :: 0 <= i < |rows| && rows[i].delta != 0
  {
    for i := 0 to |rows|
      invariant forall j :: 0 <= j < i ==> rows[j].delta == 0
    {
      if rows[i].delta != 0 {
        return true;
      }
    }
    return false;
  }

  method WithholdsHistogramDeltas(rows: seq<HistogramDelta>) returns (found: bool)
    ensures found <==> exists i :: 0 <= i < |rows| && HistogramMoved(rows[i])
  {
    for i := 0 to |rows|
      invariant forall j :: 0 <= j < i ==> !HistogramMoved(rows[j])
    {
      if rows[i].js != 0.0 || rows[i].previousBits != rows[i].currentBits || rows[i].cardinalityDelta != 0 {
        return true;
      }
    }
    return false;
  }

  /** The witnesses in the order they are asked; the first found decides. */
  method ComparisonOutcomeOf(d: MetaLogDiff) returns (outcome: ComparisonOutcome)
    ensures outcome == if Changed(d) then ChangedOutcome else UnchangedOutcome
  {
    if d.kl.Some? && d.kl.value != 0.0 {
      return ChangedOutcome;
    }
    if d.js.Some? && d.js.value != 0.0 {
      return ChangedOutcome;
    }
    if d.stability.Some? && d.stability.value != 1.0 {
      return ChangedOutcome;
    }
    var moved := AnyTemplateMoved(d.templates);
    if moved {
      return ChangedOutcome;
    }
    if d.emerged != [] || d.vanished != [] || d.branching != [] {
      return ChangedOutcome;
    }
    if d.ngrams.Some?
       && (d.ngrams.value.emerged != [] || d.ngrams.value.vanished != [] || d.ngrams.value.changed != []) {
      return ChangedOutcome;
    }
    if d.tail.Some?
       && (d.tail.value.templatesDelta != 0 || d.tail.value.bitsDelta != 0.0 || d.tail.value.rateDelta != 0.0) {
      return ChangedOutcome;
    }
    if d.cube.Some? {
      var emerged, vanished := BorderFound(d.cube.value.emerging), BorderFound(d.cube.value.vanishing);
      if emerged || vanished {
        return ChangedOutcome;
      }
    }
    if d.reservoir.emerged != [] || d.reservoir.vanished != [] || d.reservoir.crossings != [] {
      return ChangedOutcome;
    }
    var withheld := WithholdsHistogramDeltas(d.histograms);
    if withheld {
      return ChangedOutcome;
    }
    return UnchangedOutcome;
  }

  // ---------------------------------------------------------------- templates

  /** The count a list gives a template: that of its first entry, none when it has no entry. */
  function FirstCount(entries: seq<TopKEntry>, id: TemplateId): nat {
    if entries == [] then 0 else if entries[0].id == id then entries[0].count else FirstCount(entries[1..], id)
  }

  lemma {:induction false} FirstCountSnoc(front: seq<TopKEntry>, last: TopKEntry, id: TemplateId)
    ensures FirstCount(front + [last], id)
         == if exists e :: e in front && e.id == id then FirstCount(front, id)
            else if last.id == id then last.count else 0
  {
    if front != [] {
      FirstCountSnoc(front[1..], last, id);
      assert (front + [last])[1..] == front[1..] + [last];
      assert forall e :: e in front <==> e == front[0] || e in front[1..];
    }
  }

  lemma {:induction false} CountedFirst(entries: seq<TopKEntry>, id: TemplateId)
    ensures CountIn(CountedIn(entries), id) == FirstCount(entries, id)
    ensures id in CountedIn(entries) <==> exists e :: e in entries && e.id == id
  {
    if entries != [] {
      var front, last := entries[..|entries| - 1], entries[|entries| - 1];
      assert entries == front + [last];
      CountedFirst(front, id);
      FirstCountSnoc(front, last, id);
      assert forall e :: e in entries <==> e in front || e == last;
    }
  }

  ghost predicate SameCounts(prev: map<TemplateId, nat>, cur: map<TemplateId, nat>) {
    forall id :: CountIn(prev, id) == CountIn(cur, id)
  }

  lemma SameCountsQuiet(d: MetaLogDiff, prev: map<TemplateId, nat>, cur: map<TemplateId, nat>)
    requires TemplatesCompared(d, prev, cur) && SameCounts(prev, cur)
    ensures d.emerged == [] && d.vanished == [] && forall i :: 0 <= i < |d.templates| ==> d.templates[i].delta == 0
  {
    hide Sorted;
    assert forall id :: CountIn(prev, id) == CountIn(cur, id);
    assert OnlyIn(cur, prev) == {};
    assert OnlyIn(prev, cur) == {};
    NoElements(d.emerged);
    NoElements(d.vanished);
    forall i | 0 <= i < |d.templates| ensures d.templates[i].delta == 0 {
      assert d.templates[i] in Elements(d.templates);
    }
  }

  lemma MovedCount(d: MetaLogDiff, prev: map<TemplateId, nat>, cur: map<TemplateId, nat>, id: TemplateId)
    requires TemplatesCompared(d, prev, cur) && CountIn(prev, id) != CountIn(cur, id)
    ensures exists i :: 0 <= i < |d.templates| && d.templates[i].delta != 0
  {
    hide Sorted;
    assert TemplateRow(prev, cur, id) in Elements(d.templates);
    var i :| 0 <= i < |d.templates| && d.templates[i] == TemplateRow(prev, cur, id);
  }

  lemma TemplatesUnmoved(d: MetaLogDiff, a: seq<TopKEntry>, b: seq<TopKEntry>)
    requires TemplatesCompared(d, CountedIn(a), CountedIn(b))
    ensures d.emerged == [] && d.vanished == [] && (forall i :: 0 <= i < |d.templates| ==> d.templates[i].delta == 0)
       <==> forall id :: FirstCount(a, id) == FirstCount(b, id)
  {
    hide TemplatesCompared, FirstCount, CountedIn;
    if id :| FirstCount(a, id) != FirstCount(b, id) {
      CountedFirst(a, id);
      CountedFirst(b, id);
      MovedCount(d, CountedIn(a), CountedIn(b), id);
    } else {
      forall id ensures CountIn(CountedIn(a), id) == CountIn(CountedIn(b), id) {
        CountedFirst(a, id);
        CountedFirst(b, id);
      }
      SameCountsQuiet(d, CountedIn(a), CountedIn(b));
    }
  }

  // ---------------------------------------------------------------- branching

  /** The last row of its template. */
  ghost predicate IsLastRow(rows: seq<BranchingRow>, i: nat) {
    i < |rows| && forall k :: i < k < |rows| ==> rows[k].id != rows[i].id
  }

  lemma {:induction false} BitsLast(rows: seq<BranchingRow>, i: nat)
    requires IsLastRow(rows, i)
    ensures rows[i].id in BitsOf(rows) && BitsOf(rows)[rows[i].id] == rows[i].bits
  {
    if i < |rows| - 1 {
      assert rows[|rows| - 1].id != rows[i].id;
      BitsLast(rows[..|rows| - 1], i);
    }
  }

  lemma {:induction false} LastRow(rows: seq<BranchingRow>, id: TemplateId) returns (i: nat)
    requires id in BitsOf(rows)
    ensures IsLastRow(rows, i) && rows[i].id == id
  {
    i := |rows| - 1;
    if rows[i].id != id { i := LastRow(rows[..|rows| - 1], id); }
  }

  /** Where both sides branch, a template both branch on has one entropy. */
  ghost predicate SameBranching(a: Side, b: Side) {
    a.document.behavior.Some? && b.document.behavior.Some? && a.branching.Some? && b.branching.Some? ==>
      forall i: nat, j: nat :: IsLastRow(a.branching.value, i) && j < |b.branching.value| ==>
        a.branching.value[i].id == b.branching.value[j].id ==>
        a.branching.value[i].bits == b.branching.value[j].bits
  }

  lemma {:induction false} RowsListed(prev: map<TemplateId, real>, rows: seq<BranchingRow>)
    ensures BranchRows(prev, rows) != {} <==> BranchList(prev, rows) != []
  {
    if rows != [] {
      var front, last := rows[..|rows| - 1], rows[|rows| - 1];
      assert rows == front + [last];
      RowsListed(prev, front);
      BranchRowsSnoc(prev, front, last);
    }
  }

  lemma SortingEmpty<T>(less: (T, T) -> bool, r: seq<T>, rows: seq<T>)
    requires IsSorting(less, r, rows)
    ensures r == [] <==> rows == []
  {
    assert |r| == |multiset(r)| && |rows| == |multiset(rows)|;
  }

  lemma BranchingUnmoved(branching: seq<BranchingDelta>, a: Side, b: Side)
    requires IsBranching(branching, a, b)
    ensures branching == [] <==> SameBranching(a, b)
  {
    if Branches(a) && Branches(b) {
      var before, rows := a.branching.value, b.branching.value;
      var bits := BitsOf(before);
      RowsListed(bits, rows);
      hide BranchList, BitsOf, Branches, Sorted;
      if AnyMoved(BranchRows(bits, rows)) {
        assert BranchRows(bits, rows) != {};
        SortingEmpty(BranchOrder, branching, BranchList(bits, rows));
        var row :| row in rows && row.id in bits && BranchRow(bits, row).delta != 0.0;
        var i := LastRow(before, row.id);
        BitsLast(before, i);
        var j :| 0 <= j < |rows| && rows[j] == row;
      } else {
        forall i: nat, j: nat | IsLastRow(before, i) && j < |rows| && before[i].id == rows[j].id
          ensures before[i].bits == rows[j].bits
        {
          BitsLast(before, i);
          assert rows[j] in rows;
          assert BranchRow(bits, rows[j]) in BranchRows(bits, rows);
        }
      }
    }
  }

  // ---------------------------------------------------------------- n-grams

  /** The last n-gram under its id. */
  ghost predicate IsLastNGram(entries: seq<NGram>, idOf: IdOf, i: nat) {
    i < |entries| && forall k :: i < k < |entries| ==> idOf(entries[k].sequence) != idOf(entries[i].sequence)
  }

  lemma {:induction false} RatedLast(entries: seq<NGram>, idOf: IdOf, i: nat)
    requires IsLastNGram(entries, idOf, i)
    ensures idOf(entries[i].sequence) in RatedBy(entries, idOf)
    ensures RatedBy(entries, idOf)[idOf(entries[i].sequence)]
         == RatedNGram(entries[i].sequence, entries[i].probability)
  {
    if i < |entries| - 1 {
      assert idOf(entries[|entries| - 1].sequence) != idOf(entries[i].sequence);
      RatedLast(entries[..|entries| - 1], idOf, i);
    }
  }

  lemma {:induction false} LastNGram(entries: seq<NGram>, idOf: IdOf, id: NGramId) returns (i: nat)
    requires id in RatedBy(entries, idOf)
    ensures IsLastNGram(entries, idOf, i) && idOf(entries[i].sequence) == id
  {
    i := |entries| - 1;
    if idOf(entries[i].sequence) != id { i := LastNGram(entries[..|entries| - 1], idOf, id); }
  }

  /** A list holds an n-gram under the same id and at the same probability. */
  ghost predicate Rates(entries: seq<NGram>, x: NGram, idOf: IdOf) {
    exists j: nat :: IsLastNGram(entries, idOf, j) && idOf(entries[j].sequence) == idOf(x.sequence)
                  && entries[j].probability == x.probability
  }

  ghost predicate RatedAlike(some: seq<NGram>, other: seq<NGram>, idOf: IdOf) {
    forall i: nat :: IsLastNGram(some, idOf, i) ==> Rates(other, some[i], idOf)
  }

  /** N-grams of one order are the same on both sides; orders that differ are not compared. */
  ghost predicate SameNGrams(a: Side, b: Side, idOf: IdOf) {
    a.document.behavior.Some? && b.document.behavior.Some?
    && a.document.behavior.value.ngramSize == b.document.behavior.value.ngramSize ==>
      && RatedAlike(a.document.behavior.value.topNgrams, b.document.behavior.value.topNgrams, idOf)
      && RatedAlike(b.document.behavior.value.topNgrams, a.document.behavior.value.topNgrams, idOf)
  }

  ghost predicate KeptAlike(mine: map<NGramId, RatedNGram>, its: map<NGramId, RatedNGram>) {
    forall id :: id in mine ==> id in its && its[id].probability == mine[id].probability
  }

  lemma RatesIs(entries: seq<NGram>, x: NGram, idOf: IdOf)
    ensures Rates(entries, x, idOf)
       <==> idOf(x.sequence) in RatedBy(entries, idOf)
            && RatedBy(entries, idOf)[idOf(x.sequence)].probability == x.probability
  {
    if j: nat :| IsLastNGram(entries, idOf, j) && idOf(entries[j].sequence) == idOf(x.sequence)
                 && entries[j].probability == x.probability {
      RatedLast(entries, idOf, j);
    }
    if idOf(x.sequence) in RatedBy(entries, idOf) {
      var j := LastNGram(entries, idOf, idOf(x.sequence));
      RatedLast(entries, idOf, j);
    }
  }

  lemma RatedAlikeIs(some: seq<NGram>, other: seq<NGram>, idOf: IdOf)
    ensures RatedAlike(some, other, idOf) <==> KeptAlike(RatedBy(some, idOf), RatedBy(other, idOf))
  {
    hide RatedBy, Rates;
    forall i: nat | IsLastNGram(some, idOf, i)
      ensures var id := idOf(some[i].sequence);
              && id in RatedBy(some, idOf)
              && (Rates(other, some[i], idOf) <==>
                    id in RatedBy(other, idOf)
                    && RatedBy(other, idOf)[id].probability == RatedBy(some, idOf)[id].probability)
    {
      RatedLast(some, idOf, i);
      RatesIs(other, some[i], idOf);
    }
    if RatedAlike(some, other, idOf) {
      forall id | id in RatedBy(some, idOf)
        ensures id in RatedBy(other, idOf)
             && RatedBy(other, idOf)[id].probability == RatedBy(some, idOf)[id].probability
      {
        var i := LastNGram(some, idOf, id);
      }
    }
  }

  lemma NGramsUnmoved(d: MetaLogDiff, a: Side, b: Side, idOf: IdOf)
    requires AreNGrams(d.ngrams, d.mismatch, a, b, idOf)
    ensures d.ngrams.None?
         || (d.ngrams.value.emerged == [] && d.ngrams.value.vanished == [] && d.ngrams.value.changed == [])
       <==> SameNGrams(a, b, idOf)
  {
    if a.document.behavior.Some? && b.document.behavior.Some?
       && a.document.behavior.value.ngramSize == b.document.behavior.value.ngramSize {
      var before, after := a.document.behavior.value.topNgrams, b.document.behavior.value.topNgrams;
      RatedAlikeIs(before, after, idOf);
      RatedAlikeIs(after, before, idOf);
      hide RatedAlike, RatedBy, NGramsAre, KeptAlike;
      NothingRated(d.ngrams, b.document.behavior.value.ngramSize, RatedBy(before, idOf), RatedBy(after, idOf));
    }
  }

  lemma NothingRated(ngrams: Option<NGramDelta>, size: nat, prev: map<NGramId, RatedNGram>,
                     cur: map<NGramId, RatedNGram>)
    requires NGramsAre(ngrams, size, prev, cur)
    ensures ngrams.None? || (ngrams.value.emerged == [] && ngrams.value.vanished == [] && ngrams.value.changed == [])
       <==> KeptAlike(prev, cur) && KeptAlike(cur, prev)
  {
    var up, down, rates := SequencesOnlyIn(cur, prev), SequencesOnlyIn(prev, cur), RateRows(prev, cur);
    assert up == {} <==> forall id :: id in cur ==> id in prev by {
      if id :| id in cur && id !in prev { assert cur[id].sequence in up; }
    }
    assert down == {} <==> forall id :: id in prev ==> id in cur by {
      if id :| id in prev && id !in cur { assert prev[id].sequence in down; }
    }
    assert rates == {} <==> forall id :: id in cur && id in prev ==> cur[id].probability == prev[id].probability by {
      if id :| id in cur && id in prev && cur[id].probability != prev[id].probability {
        assert RateRow(prev[id], cur[id]) in rates;
      }
    }
    hide SequencesOnlyIn, RateRows, Sorted, NoDuplicates;
    if ngrams.Some? {
      NoElements(ngrams.value.emerged);
      NoElements(ngrams.value.vanished);
      NoElements(ngrams.value.changed);
    }
  }

  // ---------------------------------------------------------------- tails

  /** Two tails hold as many templates at one entropy, and their loudest one is as large a part of the lines. */
  ghost predicate SameTails(a: Side, b: Side, bits: Entropy -> real) {
    a.document.stats.tailSummary.Some? && b.document.stats.tailSummary.Some? ==>
      var x, y := a.document.stats.tailSummary.value, b.document.stats.tailSummary.value;
      && x.templates == y.templates && bits(x.entropy) == bits(y.entropy)
      && (if x.lines == 0 then 0.0 else x.maxCount as real / x.lines as real)
          == (if y.lines == 0 then 0.0 else y.maxCount as real / y.lines as real)
  }

  lemma TailsUnmoved(tail: Option<TailDelta>, a: Side, b: Side, bits: Entropy -> real)
    requires tail == TailCompared(a.document.stats.tailSummary, b.document.stats.tailSummary, bits)
    ensures tail.None?
         || (tail.value.templatesDelta == 0 && tail.value.bitsDelta == 0.0 && tail.value.rateDelta == 0.0)
       <==> SameTails(a, b, bits)
  {}

  // ---------------------------------------------------------------- reservoirs

  /** The level a document remembers a template at: that of its first entry in top_k, else in the reservoir. */
  function FirstLevel(entries: seq<TopKEntry>, id: TemplateId): Option<Option<EventLevel>> {
    if entries == [] then None
    else if entries[0].id == id then Some(entries[0].level)
    else FirstLevel(entries[1..], id)
  }

  function FirstSalientLevel(entries: seq<ReservoirEntry>, id: TemplateId): Option<Option<EventLevel>> {
    if entries == [] then None
    else if entries[0].id == id then Some(entries[0].level)
    else FirstSalientLevel(entries[1..], id)
  }

  function RememberedLevel(s: Stats, id: TemplateId): Option<Option<EventLevel>> {
    if FirstLevel(s.topK, id).Some? then FirstLevel(s.topK, id) else FirstSalientLevel(s.reservoir, id)
  }

  lemma {:induction false} FirstLevelSnoc(front: seq<TopKEntry>, last: TopKEntry, id: TemplateId)
    ensures FirstLevel(front + [last], id)
         == if FirstLevel(front, id).Some? then FirstLevel(front, id)
            else if last.id == id then Some(last.level) else None
  {
    if front != [] {
      FirstLevelSnoc(front[1..], last, id);
      assert (front + [last])[1..] == front[1..] + [last];
    }
  }

  lemma {:induction false} FirstSalientLevelSnoc(front: seq<ReservoirEntry>, last: ReservoirEntry, id: TemplateId)
    ensures FirstSalientLevel(front + [last], id)
         == if FirstSalientLevel(front, id).Some? then FirstSalientLevel(front, id)
            else if last.id == id then Some(last.level) else None
  {
    if front != [] {
      FirstSalientLevelSnoc(front[1..], last, id);
      assert (front + [last])[1..] == front[1..] + [last];
    }
  }

  /** A memory has the level given for an id, and nothing for an id with none. */
  ghost predicate Holds(memory: map<TemplateId, Memory>, id: TemplateId, level: Option<Option<EventLevel>>) {
    (id in memory <==> level.Some?) && (id in memory ==> memory[id].level == level.value)
  }

  lemma {:induction false} TopKRemembered(entries: seq<TopKEntry>, id: TemplateId)
    ensures Holds(AddTopK(map[], entries), id, FirstLevel(entries, id))
  {
    if entries != [] {
      var front, last := entries[..|entries| - 1], entries[|entries| - 1];
      assert entries == front + [last];
      TopKRemembered(front, id);
      FirstLevelSnoc(front, last, id);
    }
  }

  lemma {:induction false} ReservoirRemembered(m: map<TemplateId, Memory>, entries: seq<ReservoirEntry>,
                                               id: TemplateId, level: Option<Option<EventLevel>>)
    requires Holds(m, id, level)
    ensures Holds(AddReservoir(m, entries), id, if level.Some? then level else FirstSalientLevel(entries, id))
  {
    if entries != [] {
      var front, last := entries[..|entries| - 1], entries[|entries| - 1];
      assert entries == front + [last];
      ReservoirRemembered(m, front, id, level);
      FirstSalientLevelSnoc(front, last, id);
    }
  }

  lemma MemoryHolds(s: Stats, id: TemplateId)
    ensures Holds(MemoryOf(s), id, RememberedLevel(s, id))
  {
    TopKRemembered(s.topK, id);
    ReservoirRemembered(AddTopK(map[], s.topK), s.reservoir, id, FirstLevel(s.topK, id));
  }

  /** Error or Fatal. */
  predicate Fails(level: Option<EventLevel>) { level.Some? && (level.value.value == 4 || level.value.value == 5) }

  ghost predicate Remembers(s: Stats, entries: seq<ReservoirEntry>) {
    forall e :: e in entries ==> RememberedLevel(s, e.id).Some?
  }

  ghost predicate NoneCrosses(s: Stats, t: Stats) {
    forall id :: RememberedLevel(s, id).Some? && RememberedLevel(t, id).Some? ==>
        Fails(RememberedLevel(s, id).value) == Fails(RememberedLevel(t, id).value)
  }

  /** Each side remembers every salient template of the other, and no template one side remembers as failing and the
      other as not. */
  ghost predicate SameReservoirs(a: Side, b: Side) {
    && Remembers(b.document.stats, a.document.stats.reservoir)
    && Remembers(a.document.stats, b.document.stats.reservoir)
    && NoneCrosses(a.document.stats, b.document.stats)
  }

  lemma {:induction false} SalientListed(entries: seq<ReservoirEntry>, other: map<TemplateId, Memory>)
    ensures SalientList(entries, other) == [] <==> forall e :: e in entries ==> e.id in other
  {
    if entries != [] {
      var front, last := entries[..|entries| - 1], entries[|entries| - 1];
      assert forall e :: e in entries <==> e in front || e == last;
      SalientListed(front, other);
    }
  }

  lemma CrossingsNone(crossings: seq<Crossing>, prev: map<TemplateId, Memory>, cur: map<TemplateId, Memory>)
    requires IsRanked(CrossingOrder, crossings, CrossingRows(prev, cur))
    ensures crossings == []
       <==> forall id :: id in prev && id in cur ==> Fails(prev[id].level) == Fails(cur[id].level)
  {
    hide Sorted, NoDuplicates;
    NoElements(crossings);
    if id :| id in prev && id in cur && Fails(prev[id].level) != Fails(cur[id].level) {
      assert CrossingRow(id, prev[id], cur[id]) in CrossingRows(prev, cur);
    } else {
      assert CrossingRows(prev, cur) == {};
    }
  }

  lemma SalientRemembered(s: Stats, entries: seq<ReservoirEntry>)
    ensures SalientList(entries, MemoryOf(s)) == [] <==> Remembers(s, entries)
  {
    SalientListed(entries, MemoryOf(s));
    hide MemoryOf, RememberedLevel, SalientList;
    forall e | e in entries ensures e.id in MemoryOf(s) <==> RememberedLevel(s, e.id).Some? { MemoryHolds(s, e.id); }
  }

  lemma CrossingsUnmoved(crossings: seq<Crossing>, s: Stats, t: Stats)
    requires IsRanked(CrossingOrder, crossings, CrossingRows(MemoryOf(s), MemoryOf(t)))
    ensures crossings == [] <==> NoneCrosses(s, t)
  {
    CrossingsNone(crossings, MemoryOf(s), MemoryOf(t));
    hide MemoryOf, RememberedLevel, CrossingRows, Fails;
    if NoneCrosses(s, t) {
      forall id | id in MemoryOf(s) && id in MemoryOf(t)
        ensures Fails(MemoryOf(s)[id].level) == Fails(MemoryOf(t)[id].level)
      {
        MemoryHolds(s, id);
        MemoryHolds(t, id);
      }
    }
    if crossings == [] {
      forall id | RememberedLevel(s, id).Some? && RememberedLevel(t, id).Some?
        ensures Fails(RememberedLevel(s, id).value) == Fails(RememberedLevel(t, id).value)
      {
        MemoryHolds(s, id);
        MemoryHolds(t, id);
      }
    }
  }

  lemma ReservoirsUnmoved(d: MetaLogDiff, a: Side, b: Side)
    requires IsReservoir(d.reservoir, a, b)
    ensures d.reservoir.emerged == [] && d.reservoir.vanished == [] && d.reservoir.crossings == []
       <==> SameReservoirs(a, b)
  {
    var prev, cur := MemoryOf(a.document.stats), MemoryOf(b.document.stats);
    SortingEmpty(SalientOrder, d.reservoir.emerged, SalientList(b.document.stats.reservoir, prev));
    SortingEmpty(SalientOrder, d.reservoir.vanished, SalientList(a.document.stats.reservoir, cur));
    hide MemoryOf, SalientList, Remembers, NoneCrosses;
    SalientRemembered(a.document.stats, b.document.stats.reservoir);
    SalientRemembered(b.document.stats, a.document.stats.reservoir);
    CrossingsUnmoved(d.reservoir.crossings, a.document.stats, b.document.stats);
  }

  // ---------------------------------------------------------------- field histograms

  /** The last entry of its template that carries histograms. */
  ghost predicate IsTracked(entries: seq<TopKEntry>, i: nat) {
    && i < |entries| && entries[i].histograms != []
    && forall k :: i < k < |entries| && entries[k].id == entries[i].id ==> entries[k].histograms == []
  }

  /** The first slot of its parameter. */
  ghost predicate IsFirstSlot(slots: seq<FieldHistogram>, q: nat) {
    q < |slots| && forall k :: 0 <= k < q ==> slots[k].index != slots[q].index
  }

  /** Two slots at one entropy, of one cardinality, and not apart. */
  ghost predicate SameSlot(x: FieldHistogram, y: FieldHistogram, measures: Measures) {
    && measures.bits(x.entropy) == measures.bits(y.entropy) && x.cardinality == y.cardinality
    && HistogramJs(x, y, measures.fixed) == 0.0
  }

  /** Every slot a current entry tracks and the previous side tracked for the same template did not move. */
  ghost predicate SameHistograms(a: Side, b: Side, measures: Measures) {
    var before, after := a.document.stats.topK, b.document.stats.topK;
    forall i: nat, j: nat, p: nat, q: nat ::
      IsTracked(before, i) && j < |after| && IsFirstSlot(before[i].histograms, q) && p < |after[j].histograms| ==>
        before[i].id == after[j].id && before[i].histograms[q].index == after[j].histograms[p].index ==>
          SameSlot(before[i].histograms[q], after[j].histograms[p], measures)
  }

  lemma {:induction false} TrackedAt(entries: seq<TopKEntry>, i: nat)
    requires IsTracked(entries, i)
    ensures entries[i].id in TrackedOf(entries) && TrackedOf(entries)[entries[i].id] == entries[i]
  {
    if i < |entries| - 1 {
      assert entries[|entries| - 1].id == entries[i].id ==> entries[|entries| - 1].histograms == [];
      TrackedAt(entries[..|entries| - 1], i);
    }
  }

  lemma {:induction false} TrackedFrom(entries: seq<TopKEntry>, id: TemplateId) returns (i: nat)
    requires id in TrackedOf(entries)
    ensures IsTracked(entries, i) && entries[i].id == id
  {
    i := |entries| - 1;
    if entries[i].histograms == [] || entries[i].id != id { i := TrackedFrom(entries[..|entries| - 1], id); }
  }

  lemma {:induction false} SlotAt(slots: seq<FieldHistogram>, q: nat)
    requires IsFirstSlot(slots, q)
    ensures ParameterSlot(slots, slots[q].index) == Some(slots[q])
  {
    if q > 0 {
      assert slots[0].index != slots[q].index;
      assert forall k :: 0 <= k < q - 1 ==> slots[1..][k] == slots[k + 1];
      SlotAt(slots[1..], q - 1);
    }
  }

  lemma {:induction false} SlotFrom(slots: seq<FieldHistogram>, index: nat) returns (q: nat)
    requires ParameterSlot(slots, index).Some?
    ensures IsFirstSlot(slots, q) && slots[q].index == index
  {
    if slots[0].index == index {
      q := 0;
    } else {
      q := SlotFrom(slots[1..], index);
      assert forall k :: 0 <= k < q ==> slots[1..][k] == slots[k + 1];
      q := q + 1;
    }
  }

  lemma {:induction false} SlotsListed(prev: TopKEntry, id: TemplateId, slots: seq<FieldHistogram>, measures: Measures,
                                       row: HistogramDelta)
    ensures row in SlotList(prev, id, slots, measures)
       <==> exists c :: c in slots && ParameterSlot(prev.histograms, c.index).Some?
                     && row == HistogramRow(id, ParameterSlot(prev.histograms, c.index).value, c, measures)
  {
    hide HistogramRow, ParameterSlot;
    if slots != [] {
      var front, last := slots[..|slots| - 1], slots[|slots| - 1];
      assert forall c :: c in slots <==> c in front || c == last;
      SlotsListed(prev, id, front, measures, row);
    }
  }

  lemma {:induction false} RowsAreListed(prev: map<TemplateId, TopKEntry>, entries: seq<TopKEntry>,
                                         measures: Measures, row: HistogramDelta)
    ensures row in HistogramList(prev, entries, measures)
       <==> exists e :: e in entries && e.id in prev && row in SlotList(prev[e.id], e.id, e.histograms, measures)
  {
    hide SlotList;
    if entries != [] {
      var front, last := entries[..|entries| - 1], entries[|entries| - 1];
      assert forall e :: e in entries <==> e in front || e == last;
      RowsAreListed(prev, front, measures, row);
    }
  }

  lemma SlotMoved(id: TemplateId, x: FieldHistogram, y: FieldHistogram, measures: Measures)
    ensures HistogramMoved(HistogramRow(id, x, y, measures)) <==> !SameSlot(x, y, measures)
  {
    hide HistogramJs;
  }

  ghost predicate AnyRowMoved(rows: seq<HistogramDelta>) { exists row :: row in rows && HistogramMoved(row) }

  lemma SortingKeepsMoved(d: MetaLogDiff, rows: seq<HistogramDelta>)
    requires IsSorting(HistogramOrder, d.histograms, rows)
    ensures WithholdsHistograms(d) <==> AnyRowMoved(rows)
  {
    SortingIsRanked(HistogramOrder, d.histograms, rows);
    hide HistogramMoved, IsSorting;
    assert forall row :: row in d.histograms <==> row in Elements(d.histograms);
    assert forall row :: row in rows <==> row in Elements(rows);
    if i :| 0 <= i < |d.histograms| && HistogramMoved(d.histograms[i]) { assert d.histograms[i] in rows; }
    if row :| row in rows && HistogramMoved(row) {
      assert row in d.histograms;
      var i :| 0 <= i < |d.histograms| && d.histograms[i] == row;
    }
  }

  lemma MovedSlot(before: seq<TopKEntry>, after: seq<TopKEntry>, measures: Measures, i: nat, j: nat, p: nat, q: nat)
    requires IsTracked(before, i) && j < |after| && IsFirstSlot(before[i].histograms, q) && p < |after[j].histograms|
    requires before[i].id == after[j].id && before[i].histograms[q].index == after[j].histograms[p].index
    ensures HistogramRow(after[j].id, before[i].histograms[q], after[j].histograms[p], measures)
         in HistogramList(TrackedOf(before), after, measures)
  {
    var e, c := after[j], after[j].histograms[p];
    TrackedAt(before, i);
    SlotAt(before[i].histograms, q);
    var row := HistogramRow(e.id, before[i].histograms[q], c, measures);
    hide HistogramList, SlotList, HistogramRow, TrackedOf, ParameterSlot;
    assert e in after && c in e.histograms;
    SlotsListed(before[i], e.id, e.histograms, measures, row);
    RowsAreListed(TrackedOf(before), after, measures, row);
  }

  lemma SlotOfRow(before: seq<TopKEntry>, after: seq<TopKEntry>, measures: Measures, row: HistogramDelta)
    returns (i: nat, j: nat, p: nat, q: nat)
    requires row in HistogramList(TrackedOf(before), after, measures)
    ensures IsTracked(before, i) && j < |after| && IsFirstSlot(before[i].histograms, q) && p < |after[j].histograms|
    ensures before[i].id == after[j].id && before[i].histograms[q].index == after[j].histograms[p].index
    ensures row == HistogramRow(after[j].id, before[i].histograms[q], after[j].histograms[p], measures)
  {
    var tracked := TrackedOf(before);
    hide HistogramList, SlotList, HistogramRow, TrackedOf, ParameterSlot;
    RowsAreListed(tracked, after, measures, row);
    var e :| e in after && e.id in tracked && row in SlotList(tracked[e.id], e.id, e.histograms, measures);
    SlotsListed(tracked[e.id], e.id, e.histograms, measures, row);
    var c :| c in e.histograms && ParameterSlot(tracked[e.id].histograms, c.index).Some?
             && row == HistogramRow(e.id, ParameterSlot(tracked[e.id].histograms, c.index).value, c, measures);
    i := TrackedFrom(before, e.id);
    TrackedAt(before, i);
    q := SlotFrom(before[i].histograms, c.index);
    SlotAt(before[i].histograms, q);
    j :| 0 <= j < |after| && after[j] == e;
    p :| 0 <= p < |e.histograms| && e.histograms[p] == c;
  }

  lemma HistogramsUnmoved(d: MetaLogDiff, a: Side, b: Side, measures: Measures)
    requires HistogramsCompared(d, a, b, measures)
    ensures !WithholdsHistograms(d) <==> SameHistograms(a, b, measures)
  {
    var before, after := a.document.stats.topK, b.document.stats.topK;
    var rows := HistogramList(TrackedOf(before), after, measures);
    SortingKeepsMoved(d, rows);
    hide HistogramList, HistogramRow, HistogramMoved, SameSlot, WithholdsHistograms, IsSorting, IsTracked, IsFirstSlot,
         HistogramsCompared, TrackedOf;
    if !AnyRowMoved(rows) {
      forall i: nat, j: nat, p: nat, q: nat | IsTracked(before, i) && j < |after|
          && IsFirstSlot(before[i].histograms, q) && p < |after[j].histograms|
        ensures before[i].id == after[j].id && before[i].histograms[q].index == after[j].histograms[p].index ==>
          SameSlot(before[i].histograms[q], after[j].histograms[p], measures)
      {
        if before[i].id == after[j].id && before[i].histograms[q].index == after[j].histograms[p].index {
          MovedSlot(before, after, measures, i, j, p, q);
          SlotMoved(after[j].id, before[i].histograms[q], after[j].histograms[p], measures);
        }
      }
    }
    if AnyRowMoved(rows) {
      var row :| row in rows && HistogramMoved(row);
      var i, j, p, q := SlotOfRow(before, after, measures, row);
      SlotMoved(after[j].id, before[i].histograms[q], after[j].histograms[p], measures);
    }
  }

  // ---------------------------------------------------------------- cubes

  /** Read at the coarser state of the two cubes, every coordinate has lines now exactly when it had lines before,
      and so no line now lies in a component whose latency shifted. */
  ghost predicate SameCubes(a: Side, b: Side, schedule: Text)
    requires CubesCompose(a.document, b.document)
  {
    a.document.cube.Some? && b.document.cube.Some? ==>
      forall q :: CubeReading.IsQuery(q) ==>
        CubeReading.Steady(a.document.cube.value, b.document.cube.value, ShiftsOf(a, b, schedule), q)
  }

  lemma ShiftsAreDirected(a: Side, b: Side, schedule: Text)
    ensures CubeReading.Directed(ShiftsOf(a, b, schedule))
  {
    hide DurationsOf, Latency.DriftOf;
  }

  lemma CellsFound(border: Option<Border.CubeBorder>)
    ensures BorderFound(border) <==> CubeReading.CellsOfBorder(border) != []
  {}

  lemma CubesUnmoved(d: MetaLogDiff, a: Side, b: Side, schedule: Text)
    requires CubesCompose(a.document, b.document) && IsCube(d.cube, a, b, schedule)
    ensures d.cube.None? || (!BorderFound(d.cube.value.emerging) && !BorderFound(d.cube.value.vanishing))
       <==> SameCubes(a, b, schedule)
  {
    if a.document.cube.Some? && b.document.cube.Some? {
      var x, y := a.document.cube.value, b.document.cube.value;
      ShiftsAreDirected(a, b, schedule);
      hide CubeDiff.DiffBlocks, CubeReading.IsQuery, CubeReading.Steady, ShiftsOf, BorderFound,
           CubeReading.CellsOfBorder, Composable;
      CubeReading.BordersQuiet(x, y, ShiftsOf(a, b, schedule));
      CellsFound(d.cube.value.emerging);
      CellsFound(d.cube.value.vanishing);
    }
  }

  // ---------------------------------------------------------------- the divergences

  /** Where both windows have lines, the two divergences of their counts are zero. */
  ghost predicate NoDivergence(a: Side, b: Side, fixed: Fixed) {
    a.document.lines > 0 && b.document.lines > 0 ==>
      (OrdersArePartial();
       DivergenceOf(IdOrder, CountedIn(b.document.stats.topK), b.document.lines, CountedIn(a.document.stats.topK),
                    a.document.lines, fixed) == Divergence(0.0, 0.0))
  }

  lemma DivergencesUnmoved(d: MetaLogDiff, a: Side, b: Side, fixed: Fixed)
    requires DivergencesCompared(d, a, b, fixed)
    ensures (d.kl.None? || d.kl.value == 0.0) && (d.js.None? || d.js.value == 0.0)
            && (d.stability.None? || d.stability.value == 1.0)
       <==> NoDivergence(a, b, fixed)
  {
    hide DivergenceOf, CountedIn;
  }

  // ---------------------------------------------------------------- the whole outcome

  /** Two documents compare as unchanged exactly when nothing a comparison looks at differs between them: every
      template is counted alike, no divergence, one entropy wherever both branch, the same n-grams at the same
      probabilities, tails alike, cubes with lines at the same coordinates, reservoirs that remember each other on the
      same side of the failure frontier, and every paired parameter slot alike. */
  lemma UnchangedExactly(d: MetaLogDiff, a: Side, b: Side, measures: Measures)
    requires CubesCompose(a.document, b.document) && IsDiff(d, a, b, measures)
    ensures !Changed(d)
       <==> && (forall id :: FirstCount(a.document.stats.topK, id) == FirstCount(b.document.stats.topK, id))
            && NoDivergence(a, b, measures.fixed) && SameBranching(a, b) && SameNGrams(a, b, measures.idOf)
            && SameTails(a, b, measures.bits) && SameCubes(a, b, measures.durations) && SameReservoirs(a, b)
            && SameHistograms(a, b, measures)
  {
    hide CubesCompose, DivergencesCompared, TemplatesCompared, IsBranching, AreNGrams, HistogramsCompared,
         IsReservoir, IsCube, CountedIn, HistogramMoved, FirstCount, NoDivergence, SameBranching, SameNGrams, SameTails,
         SameCubes, SameReservoirs, SameHistograms, TailCompared, BorderFound, WithholdsHistograms;
    DivergencesUnmoved(d, a, b, measures.fixed);
    TemplatesUnmoved(d, a.document.stats.topK, b.document.stats.topK);
    BranchingUnmoved(d.branching, a, b);
    NGramsUnmoved(d, a, b, measures.idOf);
    TailsUnmoved(d.tail, a, b, measures.bits);
    CubesUnmoved(d, a, b, measures.durations);
    ReservoirsUnmoved(d, a, b);
    HistogramsUnmoved(d, a, b, measures);
  }
}
