/** What a closed window's reservoir shows: who is in it, in what order, and on what evidence. */
module ReservoirReading {
  import opened Options
  import opened Identifiers
  import opened Orders
  import opened Bytes
  import opened Blocks
  import opened ComposeLabels
  import opened SalienceScores
  import opened ComposeStats
  import opened StatsLaws
  import opened WindowState
  import opened WindowClose
  import Reservoir
  import ChurnAlgebra

  // ---------------------------------------------------------------- rank

  /** More salient first, and of templates equally so the lower id first. */
  ghost predicate InRank(s: seq<Reservoir.Candidate>) {
    forall i, j :: 0 <= i < j < |s| ==>
      s[i].salience > s[j].salience || (s[i].salience == s[j].salience && s[i].id < s[j].id)
  }

  lemma RankSnoc(s: seq<Reservoir.Candidate>, x: Reservoir.Candidate)
    requires InRank(s)
    requires forall y :: y in s ==> y.salience > x.salience || (y.salience == x.salience && y.id < x.id)
    ensures InRank(s + [x])
  {
    forall i, j | 0 <= i < j < |s + [x]|
      ensures var t := s + [x]; t[i].salience > t[j].salience || (t[i].salience == t[j].salience && t[i].id < t[j].id)
    {
      if j == |s| { assert s[i] in s; }
    }
  }

  lemma {:induction false} ErrorsInRank(s: seq<Reservoir.Candidate>, isError: TemplateId -> bool)
    requires InRank(s)
    ensures InRank(Reservoir.Errors(s, isError))
    ensures forall x :: x in Reservoir.Errors(s, isError) ==> x in s && isError(x.id)
  {
    if s != [] {
      var front, last := s[..|s| - 1], s[|s| - 1];
      assert s == front + [last];
      ErrorsInRank(front, isError);
      forall y | y in Reservoir.Errors(front, isError)
        ensures y.salience > last.salience || (y.salience == last.salience && y.id < last.id)
      {
        var i :| 0 <= i < |front| && front[i] == y;
        assert s[i] == y;
      }
      RankSnoc(Reservoir.Errors(front, isError), last);
    }
  }

  lemma {:induction false} GeneralInRank(s: seq<Reservoir.Candidate>, reserved: seq<Reservoir.Candidate>,
                                         kindOf: TemplateId -> nat, caps: Reservoir.Caps)
    requires InRank(s)
    ensures InRank(Reservoir.General(s, reserved, kindOf, caps))
    ensures forall x :: x in Reservoir.General(s, reserved, kindOf, caps) ==> x in s
  {
    if s != [] {
      var front, last := s[..|s| - 1], s[|s| - 1];
      assert s == front + [last];
      GeneralInRank(front, reserved, kindOf, caps);
      var before := Reservoir.General(front, reserved, kindOf, caps);
      forall y | y in before
        ensures y.salience > last.salience || (y.salience == last.salience && y.id < last.id)
      {
        var i :| 0 <= i < |front| && front[i] == y;
        assert s[i] == y;
      }
      RankSnoc(before, last);
    }
  }

  lemma SortedInRank(candidates: seq<Reservoir.Candidate>)
    requires NoDuplicates(candidates)
    ensures StrictTotal(Reservoir.Outranks) && InRank(SortedBy(Reservoir.Outranks, candidates))
  {
    Reservoir.OutranksIsTotal();
    var s := SortedBy(Reservoir.Outranks, candidates);
    hide StrictTotal;
    SortedIsRanked(Reservoir.Outranks, s, candidates);
    forall i, j | 0 <= i < j < |s|
      ensures s[i].salience > s[j].salience || (s[i].salience == s[j].salience && s[i].id < s[j].id)
    {
      assert Reservoir.Outranks(s[i], s[j]);
    }
  }

  lemma ReservedInRank(s: seq<Reservoir.Candidate>, isError: TemplateId -> bool, caps: Reservoir.Caps)
    requires InRank(s)
    ensures var r := Reservoir.Reserved(s, isError, caps);
            && InRank(r) && |r| <= caps.errorReserve && |r| <= caps.size && (forall x :: x in r ==> isError(x.id))
            && (|r| < caps.errorReserve && |r| < caps.size ==> r == Reservoir.Errors(s, isError))
  {
    var errors, r := Reservoir.Errors(s, isError), Reservoir.Reserved(s, isError, caps);
    ErrorsInRank(s, isError);
    hide Reservoir.Errors;
    assert r == errors[..|r|];
    assert forall i :: 0 <= i < |r| ==> r[i] == errors[i] && errors[i] in errors;
  }

  /** A reservoir is two runs in rank, the reserve of error-class templates and the general admits after it; the reserve
      is as long as its size, the reservoir's and the error-class candidates allow. */
  lemma AdmittedInRank(candidates: seq<Reservoir.Candidate>, isError: TemplateId -> bool, kindOf: TemplateId -> nat,
                       caps: Reservoir.Caps)
    requires NoDuplicates(candidates)
    ensures StrictTotal(Reservoir.Outranks)
    ensures var s := SortedBy(Reservoir.Outranks, candidates);
            var reserve := Reservoir.Reserved(s, isError, caps);
            var general := Reservoir.General(s, reserve, kindOf, caps);
            && Reservoir.Admitted(s, isError, kindOf, caps) == reserve + general
            && InRank(reserve) && InRank(general)
            && |reserve| <= caps.errorReserve && |reserve| <= caps.size && (forall x :: x in reserve ==> isError(x.id))
            && (|reserve| < caps.errorReserve && |reserve| < caps.size ==>
                  forall x :: x in candidates && isError(x.id) ==> x in reserve)
  {
    SortedInRank(candidates);
    var s := SortedBy(Reservoir.Outranks, candidates);
    var reserve := Reservoir.Reserved(s, isError, caps);
    hide Reservoir.General, Reservoir.Reserved, InRank, StrictTotal, Reservoir.Outranks;
    ReservedInRank(s, isError, caps);
    GeneralInRank(s, reserve, kindOf, caps);
    EveryError(candidates, s, isError);
  }

  lemma EveryError(candidates: seq<Reservoir.Candidate>, s: seq<Reservoir.Candidate>, isError: TemplateId -> bool)
    requires multiset(s) == multiset(candidates)
    ensures forall x :: x in candidates && isError(x.id) ==> x in Reservoir.Errors(s, isError)
  {
    forall x | x in candidates && isError(x.id) ensures x in Reservoir.Errors(s, isError) {
      assert x in multiset(candidates);
      assert x in s;
      ErrorListed(s, isError, x);
    }
  }

  lemma {:induction false} ErrorListed(s: seq<Reservoir.Candidate>, isError: TemplateId -> bool, x: Reservoir.Candidate)
    requires x in s && isError(x.id)
    ensures x in Reservoir.Errors(s, isError)
  {
    var front, last := s[..|s| - 1], s[|s| - 1];
    assert s == front + [last];
    if x in front { ErrorListed(front, isError, x); }
  }

  // ---------------------------------------------------------------- evidence

  /** The number a retention axis goes by. */
  function AxisNumber(axis: Axis): nat {
    if axis == LevelAxis then 0 else if axis == FailureCueAxis then 1 else if axis == TerminatorAxis then 2
    else if axis == SurpriseAxis then 3 else 4
  }

  /** A reservoir entry shows its template's own lines and labels, and its salience is the score of exactly the evidence
      the window has for it: its level, whether its role ends a run, whether its text has a failure cue that was not
      only echoed, the surprise of its likeliest way in and how late it was first seen. */
  lemma ReservoirEntryReads(w: Window, e: ReservoirEntry)
    requires e in ClosedStats(w).reservoir && w.labels.Keys == w.buckets.Keys
    ensures e.id in w.buckets && e.id in w.labels
    ensures var b, l := w.buckets[e.id], w.labels[e.id];
            var surprise := if e.id in w.surprise then w.surprise[e.id] else 0;
            var verdict := SalienceOf(Evidence(if l.level.Some? then Some(l.level.value.value) else None,
                                               l.role == w.config.terminator, w.config.cue(e.id) && !b.allEchoed,
                                               e.surprise, e.novelty), b.count, w.lines);
            && e.count == b.count && e.level == l.level && e.role == w.config.spell(l.role)
            && (e.component == if l.component == [] then None else Some(l.component))
            && e.surprise == surprise && e.novelty == NoveltyBand(b.firstSeen, w.lines, b.count)
            && e.salience == verdict.score && e.axis == AxisNumber(verdict.axis)
            && e.coord == Some(CubeCoord(if l.level.Some? then Some(l.level.value.value) else None,
                                         if l.component == [] then None else Some([l.component]), None, None))
  {
    var x := AdmittedListed(w, e);
    hide *;
    EntryShows(w, x);
  }

  lemma EntryShows(w: Window, x: Reservoir.Candidate)
    requires x.id in w.buckets && x.id in w.labels && x.salience == ScoreAt(w, x.id).score
    ensures var e, b, l := ReservoirEntryFor(w, x), w.buckets[x.id], w.labels[x.id];
            var surprise := if x.id in w.surprise then w.surprise[x.id] else 0;
            var verdict := SalienceOf(Evidence(if l.level.Some? then Some(l.level.value.value) else None,
                                               l.role == w.config.terminator, w.config.cue(x.id) && !b.allEchoed,
                                               e.surprise, e.novelty), b.count, w.lines);
            && e.id == x.id
            && e.count == b.count && e.level == l.level && e.role == w.config.spell(l.role)
            && (e.component == if l.component == [] then None else Some(l.component))
            && e.surprise == surprise && e.novelty == NoveltyBand(b.firstSeen, w.lines, b.count)
            && e.salience == verdict.score && e.axis == AxisNumber(verdict.axis)
            && e.coord == Some(CubeCoord(if l.level.Some? then Some(l.level.value.value) else None,
                                         if l.component == [] then None else Some([l.component]), None, None))
  {
    hide SalienceOf, NoveltyBand;
    assert (!w.buckets[x.id].allEchoed && w.config.cue(x.id)) == (w.config.cue(x.id) && !w.buckets[x.id].allEchoed);
  }

  lemma AdmittedListed(w: Window, e: ReservoirEntry) returns (x: Reservoir.Candidate)
    requires e in ClosedStats(w).reservoir
    ensures e == ReservoirEntryFor(w, x) && x.salience == ScoreAt(w, x.id).score && e.id == x.id
    ensures x.id in w.buckets
  {
    AdmittedAreCandidates(w);
    BeyondListed(w);
    var r := ClosedReservoir(w);
    assert ClosedStats(w).reservoir == r;
    hide ScoreAt, LabelAt, BucketAt, AdmittedTo, ReservoirEntryFor, ClosedStats, BeyondTopK, IdList;
    var i :| 0 <= i < |r| && r[i] == e;
    x := AdmittedTo(w)[i];
    assert x in AdmittedTo(w) && e == ReservoirEntryFor(w, x);
    EntryId(w, x);
  }

  lemma EntryId(w: Window, x: Reservoir.Candidate)
    ensures ReservoirEntryFor(w, x).id == x.id
  {
    hide ScoreAt, LabelAt, BucketAt;
  }

  lemma BeyondListed(w: Window)
    ensures forall id :: id in IdList(BeyondTopK(w)) ==> id in w.buckets
  {
    OrderedIdsAre(w.buckets);
    var ordered, beyond := OrderedBuckets(w.buckets), BeyondTopK(w);
    hide OrderedBuckets;
    forall id | id in IdList(beyond) ensures id in w.buckets {
      var i :| 0 <= i < |beyond| && IdList(beyond)[i] == id;
      assert beyond[i] == ordered[CutOf(w) + i];
      assert IdList(ordered)[CutOf(w) + i] == id;
      assert id in Elements(IdList(ordered));
    }
  }

  /** A template is of the error class when its role ends a run or its level is Error or Fatal. */
  lemma ErrorClassReads(w: Window, id: TemplateId)
    requires id in w.labels
    ensures ErrorClass(w)(id) <==>
              w.labels[id].role == w.config.terminator
              || (w.labels[id].level.Some? && w.labels[id].level.value.value in {4, 5})
  {}

  /** Every row of a closed window says the template was there, in the one window it speaks of. */
  lemma ClosedRowsPresent(w: Window)
    requires w.lines > 0
    ensures forall e :: e in ClosedStats(w).topK ==> e.churn == ChurnAlgebra.ChurnOf([ChurnAlgebra.Present])
    ensures forall e :: e in ClosedStats(w).reservoir ==> e.churn == ChurnAlgebra.ChurnOf([ChurnAlgebra.Present])
  {
    var topK, reservoir := ClosedTopK(w), ClosedReservoir(w);
    hide OrderedBuckets, LabelAt, BucketAt, ScoreAt, AdmittedTo, ClosedTail, ClosedTailSummary;
    forall e | e in topK ensures e.churn == ChurnAlgebra.ChurnOf([ChurnAlgebra.Present]) {
      var i :| 0 <= i < |topK| && topK[i] == e;
    }
    forall e | e in reservoir ensures e.churn == ChurnAlgebra.ChurnOf([ChurnAlgebra.Present]) {
      var i :| 0 <= i < |reservoir| && reservoir[i] == e;
    }
  }

  /** The candidates of one kind. */
  ghost function KindIn(s: seq<Reservoir.Candidate>, kindOf: TemplateId -> nat, kind: nat): set<Reservoir.Candidate> {
    set x | x in s && kindOf(x.id) == kind
  }

  lemma {:induction false} OfKindIs(s: seq<Reservoir.Candidate>, kindOf: TemplateId -> nat, kind: nat)
    requires Reservoir.DistinctIds(s)
    ensures Reservoir.OfKind(s, kindOf, kind) == |KindIn(s, kindOf, kind)|
  {
    if s != [] {
      var front, last := s[..|s| - 1], s[|s| - 1];
      assert s == front + [last] && last !in front;
      OfKindIs(front, kindOf, kind);
      assert KindIn(s, kindOf, kind)
          == KindIn(front, kindOf, kind) + if kindOf(last.id) == kind then {last} else {};
    }
  }

  /** Where a cap per kind is set, the general admits hold no more candidates of any kind than it says. */
  lemma KindsWithin(s: seq<Reservoir.Candidate>, reserved: seq<Reservoir.Candidate>, kindOf: TemplateId -> nat,
                    caps: Reservoir.Caps, kind: nat)
    requires Reservoir.DistinctIds(s) && |reserved| <= caps.size && caps.perKind > 0
    ensures |KindIn(Reservoir.General(s, reserved, kindOf, caps), kindOf, kind)| <= caps.perKind
  {
    Reservoir.GeneralWithin(s, reserved, kindOf, caps);
    hide Reservoir.General, KindIn, Reservoir.OfKind;
    OfKindIs(Reservoir.General(s, reserved, kindOf, caps), kindOf, kind);
  }
}
