/** What a composed document says, member by member, and why a pair is refused. */
module DocumentReading {
  import opened Options
  import opened Identifiers
  import opened Orders
  import opened Bytes
  import opened CanonicalKeys
  import opened KeyInjectivity
  import opened Provenance
  import opened Rfc3339
  import opened Envelopes
  import opened ChurnAlgebra
  import opened ComposeStats
  import opened ComposeDocument
  import Composition
  import opened Behaviors

  // ---------------------------------------------------------------- refusals

  /** Both documents name a value, and not the same one. */
  ghost predicate Differ(a: Option<Text>, b: Option<Text>) { a != None && b != None && a != b }

  ghost predicate Timed(d: Document) {
    d.envelope == None
    || (Parse(d.envelope.value.startIso) != None && Parse(d.envelope.value.endIso) != None)
  }

  /** The reasons in the order they are given: a text cap the two do not share, then a canonicalization version, a
      retention profile and a semantic identity that both name differently, then a window bound that is no instant. A
      pair is refused for the first that applies, and composed when none does. */
  lemma RefusedFor(a: Document, b: Document, ctx: Context)
    requires CubesCompose(a, b)
    ensures var caps, canonical, retained := a.maxTextBytes == b.maxTextBytes,
                                             !Differ(a.canonicalizationVersion, b.canonicalizationVersion),
                                             !Differ(a.retentionProfile, b.retentionProfile);
            var known := a.ruleset == None || b.ruleset == None
                         || a.ruleset.value.semanticIdentity == b.ruleset.value.semanticIdentity;
            && (Compose(a, b, ctx) == Refused(TextCap) <==> !caps)
            && (Compose(a, b, ctx) == Refused(Canonicalization) <==> caps && !canonical)
            && (Compose(a, b, ctx) == Refused(Retention) <==> caps && canonical && !retained)
            && (Compose(a, b, ctx) == Refused(SemanticIdentity) <==> caps && canonical && retained && !known)
            && (Compose(a, b, ctx) == Refused(Bound) <==>
                  caps && canonical && retained && known && !(Timed(a) && Timed(b)))
            && (Compose(a, b, ctx).Composed? <==> caps && canonical && retained && known && Timed(a) && Timed(b))
  {
    hide WithPresence, Parse;
  }

  // ---------------------------------------------------------------- carried members

  /** What two sources have in common: the values both give, the tags both give alike, and as many hosts as the two
      together unless they are one source. */
  lemma SourceInCommon(x: Source, y: Source, v: Text)
    ensures var s := CommonSource(x, y);
            && (s.service == Some(v) <==> x.service == Some(v) && y.service == Some(v))
            && (s.fleet == Some(v) <==> x.fleet == Some(v) && y.fleet == Some(v))
            && (s.host == Some(v) <==> x.host == Some(v) && y.host == Some(v))
            && (v in s.tags <==> v in x.tags && v in y.tags && x.tags[v] == y.tags[v])
            && (v in s.tags ==> s.tags[v] == x.tags[v])
            && (x == y ==> s == x)
            && (x != y && x.hostCount.Some? && y.hostCount.Some? ==>
                  s.hostCount == Some(x.hostCount.value + y.hostCount.value))
            && (x != y && (x.hostCount.None? || y.hostCount.None?) ==> s.hostCount == None)
  {}

  /** What a composed document carries over: its lines are the sum, its text cap is the shared one, and a version, a
      profile or a transport is kept where both declare the same. */
  lemma CarriedMembers(a: Document, b: Document, ctx: Context, v: Text, names: seq<Text>)
    requires CubesCompose(a, b) && Compose(a, b, ctx).Composed?
    ensures var d := Compose(a, b, ctx).document;
            && d.lines == a.lines + b.lines && d.producer == ctx.composer && d.maxTextBytes == a.maxTextBytes
            && d.source == CommonSource(a.source, b.source)
            && d.provenance == Some(MergedProvenance(InputOf(a), InputOf(b), ctx.ecma))
            && d.coordinate == MergedCoordinate(a.coordinate, b.coordinate, ctx.ecma)
            && d.behavior == MergedBehavior(a.behavior, b.behavior, ctx.idOf)
            && (d.cube.Some? <==> a.cube.Some? && b.cube.Some?)
            && (d.cube.Some? ==> d.cube.value == Composition.ComposeBlock(a.cube.value, b.cube.value))
            && (d.canonicalizationVersion == Some(v) <==>
                  a.canonicalizationVersion == Some(v) && b.canonicalizationVersion == Some(v))
            && (d.retentionProfile == Some(v) <==> a.retentionProfile == Some(v) && b.retentionProfile == Some(v))
            && (d.transport == Some(names) <==> a.transport == Some(names) && b.transport == Some(names))
  {
    DocumentParts(a, b, ctx);
    hide Compose, CubesCompose, CommonSource, MergeRuleset, MergedProvenance, MergedCoordinate;
  }

  lemma DocumentParts(a: Document, b: Document, ctx: Context)
    requires CubesCompose(a, b) && Compose(a, b, ctx).Composed?
    ensures var d := Compose(a, b, ctx).document;
            && d.lines == a.lines + b.lines && d.producer == ctx.composer && d.maxTextBytes == a.maxTextBytes
            && d.canonicalizationVersion == CarryIdentifier(a.canonicalizationVersion, b.canonicalizationVersion)
            && d.retentionProfile == CarryIdentifier(a.retentionProfile, b.retentionProfile)
            && d.transport == (if a.transport.Some? && a.transport == b.transport then a.transport else None)
            && d.source == CommonSource(a.source, b.source) && d.ruleset == MergeRuleset(a.ruleset, b.ruleset)
            && d.provenance == Some(MergedProvenance(InputOf(a), InputOf(b), ctx.ecma))
            && d.coordinate == MergedCoordinate(a.coordinate, b.coordinate, ctx.ecma)
            && d.behavior == MergedBehavior(a.behavior, b.behavior, ctx.idOf) && d.cube == MergedCube(a, b)
  {
    GateAccepts(a, b);
    hide MergedParts, CarryIdentifier, CommonSource, MergeRuleset, MergedProvenance, MergedCoordinate, Accepted,
         FoldTopK, FoldReservoir, Summary, OrderOf, CubesCompose;
  }

  // ---------------------------------------------------------------- provenance

  /** The entry a document adds for itself: its window, its source, its lines and its coordinate. */
  lemma OwnEntryReads(d: Document)
    ensures var e := Contributed(InputOf(d))[|Contributed(InputOf(d))| - 1];
            && e.source == d.source && e.linesObserved == d.lines && e.documentId == None
            && e.coordinate == d.coordinate && (e.window == None <==> d.envelope == None)
            && (d.envelope.Some? ==>
                  e.window.value.startIso == d.envelope.value.startIso
                  && e.window.value.endIso == d.envelope.value.endIso)
    ensures Contributed(InputOf(d))[..|Contributed(InputOf(d))| - 1]
         == if d.provenance.Some? then d.provenance.value else []
  {}

  /** Merged provenance in order: entries without a window first, then by start, by end, by the rounded and by the exact
      canonical text, the smaller first. */
  lemma ProvenanceInOrder(a: Input, b: Input, ecma: nat -> Text, i: nat, j: nat)
    requires i < j < |MergedProvenance(a, b, ecma)|
    ensures var p := MergedProvenance(a, b, ecma);
            var x, y := p[i].window, p[j].window;
            && (x.Some? ==> y.Some?)
            && (x.Some? ==>
                  LexLess(x.value.startIso, y.value.startIso)
                  || (x.value.startIso == y.value.startIso
                      && (LexLess(x.value.endIso, y.value.endIso) || x.value.endIso == y.value.endIso)))
            && (x == y ==>
                  var k, l := EntryKey(p[i], ecma), EntryKey(p[j], ecma);
                  LexLess(k.ecma, l.ecma) || (k.ecma == l.ecma && (LexLess(k.exact, l.exact) || p[i] == p[j])))
  {
    EntryOrderIsTotal(ecma);
    var p := MergedProvenance(a, b, ecma);
    assert !EntryOrder(ecma)(p[j], p[i]);
    hide MergedProvenance, EntryKey, LexLess, StrictTotal;
    NotBefore(p[i], p[j], ecma);
  }

  lemma NotBefore(e: Entry, f: Entry, ecma: nat -> Text)
    requires !KeyedBefore(Key(f, ecma), Key(e, ecma))
    ensures var x, y := e.window, f.window;
            && (x.Some? ==> y.Some?)
            && (x.Some? ==>
                  LexLess(x.value.startIso, y.value.startIso)
                  || (x.value.startIso == y.value.startIso
                      && (LexLess(x.value.endIso, y.value.endIso) || x.value.endIso == y.value.endIso)))
            && (x == y ==>
                  var k, l := EntryKey(e, ecma), EntryKey(f, ecma);
                  LexLess(k.ecma, l.ecma) || (k.ecma == l.ecma && (LexLess(k.exact, l.exact) || e == f)))
  {
    hide EntryKey, LexLess;
    if e.window.Some? && f.window.Some? {
      LexTrichotomy(e.window.value.startIso, f.window.value.startIso);
      LexTrichotomy(e.window.value.endIso, f.window.value.endIso);
    }
    var k, l := EntryKey(e, ecma), EntryKey(f, ecma);
    LexTrichotomy(k.ecma, l.ecma);
    LexTrichotomy(k.exact, l.exact);
    if k == l { EntryKeyDecides(e, f, ecma); }
  }

  /** A merged coordinate has the raw coordinates of both as its children and nothing else of its own; they stand in
      the order of their rounded and exact canonical texts. */
  lemma CoordinateReads(a: Option<Coordinate>, b: Option<Coordinate>, ecma: nat -> Text)
    ensures var c := MergedCoordinate(a, b, ecma);
            && (c == None <==> LeavesOf(a) == [] && LeavesOf(b) == [])
            && (c.Some? ==>
                  && c.value.children.Children? && c.value.sourceRef == None && c.value.bounds == None
                  && c.value.canonicalizationVersion == None && c.value.configHash == None
                  && multiset(c.value.children.list) == multiset(LeavesOf(a)) + multiset(LeavesOf(b))
                  && forall i, j :: 0 <= i < j < |c.value.children.list| ==>
                       NotAfter(CoordinateKey(c.value.children.list[i], ecma),
                                CoordinateKey(c.value.children.list[j], ecma)))
  {
    CoordinateOrderIsTotal(ecma);
    var all := LeavesOf(a) + LeavesOf(b);
    var sorted := SortedBy(CoordinateOrder(ecma), all);
    assert multiset(all) == multiset(LeavesOf(a)) + multiset(LeavesOf(b));
    assert |sorted| == |all|;
    hide CoordinateKey, LexLess, LeavesOf, SortedBy;
    forall i, j | 0 <= i < j < |sorted|
      ensures NotAfter(CoordinateKey(sorted[i], ecma), CoordinateKey(sorted[j], ecma))
    {
      assert !CoordinateOrder(ecma)(sorted[j], sorted[i]);
      LexTrichotomy(CoordinateKey(sorted[i], ecma).ecma, CoordinateKey(sorted[j], ecma).ecma);
      LexTrichotomy(CoordinateKey(sorted[i], ecma).exact, CoordinateKey(sorted[j], ecma).exact);
    }
  }

  /** A pair of texts at most another, the first of them deciding. */
  ghost predicate NotAfter(k: CanonicalKey, l: CanonicalKey) {
    LexLess(k.ecma, l.ecma) || (k.ecma == l.ecma && (LexLess(k.exact, l.exact) || k.exact == l.exact))
  }

  // ---------------------------------------------------------------- rulesets

  /** The first of two package lists: where they first differ it has the smaller name, or the same name and the smaller
      version, or it ends there. */
  ghost predicate ComesFirst(a: seq<(Text, Text)>, b: seq<(Text, Text)>) {
    exists n: nat :: n <= |a| && n < |b| && a[..n] == b[..n]
      && (n == |a| || LexLess(a[n].0, b[n].0) || (a[n].0 == b[n].0 && LexLess(a[n].1, b[n].1)))
  }

  lemma {:induction false} PackagesFirst(a: seq<(Text, Text)>, b: seq<(Text, Text)>)
    requires PackagesLess(a, b)
    ensures ComesFirst(a, b)
  {
    hide LexLess;
    if a == [] {
      assert a[..0] == b[..0];
    } else if a[0] != b[0] {
      assert a[..0] == b[..0];
      assert LexLess(a[0].0, b[0].0) || (a[0].0 == b[0].0 && LexLess(a[0].1, b[0].1));
    } else {
      PackagesFirst(a[1..], b[1..]);
      var n: nat :| n <= |a[1..]| && n < |b[1..]| && a[1..][..n] == b[1..][..n]
        && (n == |a[1..]| || LexLess(a[1..][n].0, b[1..][n].0)
            || (a[1..][n].0 == b[1..][n].0 && LexLess(a[1..][n].1, b[1..][n].1)));
      assert a[..n + 1] == [a[0]] + a[1..][..n] && b[..n + 1] == [b[0]] + b[1..][..n];
    }
  }

  /** A ruleset is carried only where both documents have one: the one whose packages come first, or either when they
      are the same. */
  lemma RulesetReads(a: Document, b: Document)
    ensures a.ruleset == None || b.ruleset == None ==> MergeRuleset(a.ruleset, b.ruleset) == None
    ensures a.ruleset.Some? && b.ruleset.Some? ==>
              var r, x, y := MergeRuleset(a.ruleset, b.ruleset), a.ruleset.value, b.ruleset.value;
              (r == Some(x) && (x.packages == y.packages || ComesFirst(x.packages, y.packages)))
              || (r == Some(y) && ComesFirst(y.packages, x.packages))
  {
    hide PackagesLess, ComesFirst;
    if a.ruleset.Some? && b.ruleset.Some? {
      var x, y := a.ruleset.value.packages, b.ruleset.value.packages;
      PackagesTrichotomy(x, y);
      if PackagesLess(x, y) { PackagesFirst(x, y); }
      if PackagesLess(y, x) { PackagesFirst(y, x); }
    }
  }

  // ---------------------------------------------------------------- presence

  /** One window ends by the time the other starts, and starts before it does. */
  ghost predicate Before(a: Document, b: Document)
    requires Timed(a) && Timed(b)
  {
    && a.envelope.Some? && b.envelope.Some?
    && Parse(a.envelope.value.endIso).value <= Parse(b.envelope.value.startIso).value
    && Parse(a.envelope.value.startIso).value < Parse(b.envelope.value.startIso).value
  }

  /** Where neither window lies before the other, or one has no time, the two are not ordered. */
  lemma OrderTells(a: Document, b: Document)
    requires Timed(a) && Timed(b)
    ensures Accepted(a.envelope) && Accepted(b.envelope)
    ensures OrderOf(a.envelope, b.envelope) == LhsEarlier <==> Before(a, b)
    ensures OrderOf(a.envelope, b.envelope) == RhsEarlier <==> Before(b, a)
  {
    hide Parse;
  }

  ghost predicate IsFirstTopK(entries: seq<TopKEntry>, id: TemplateId, i: nat) {
    i < |entries| && entries[i].id == id && forall j :: 0 <= j < i ==> entries[j].id != id
  }

  ghost predicate IsFirstReservoir(entries: seq<ReservoirEntry>, id: TemplateId, i: nat) {
    i < |entries| && entries[i].id == id && forall j :: 0 <= j < i ==> entries[j].id != id
  }

  /** A template's churn in a document: that of its first entry in top_k, else of its first in the reservoir; a template
      in neither was absent for the whole span where nothing is left out of the lists, and is unknown otherwise. */
  lemma ElementReads(d: Document, id: TemplateId)
    ensures forall i: nat :: IsFirstTopK(d.stats.topK, id, i) ==> ElementOf(d, id) == d.stats.topK[i].churn
    ensures (forall e :: e in d.stats.topK ==> e.id != id) ==>
              forall i: nat :: IsFirstReservoir(d.stats.reservoir, id, i) ==>
                ElementOf(d, id) == d.stats.reservoir[i].churn
    ensures (forall e :: e in d.stats.topK ==> e.id != id) && (forall e :: e in d.stats.reservoir ==> e.id != id) ==>
              var span := if d.churn.Some? then d.churn.value.span else 0;
              ElementOf(d, id) == ChurnOf(seq(span, _ => if d.stats.tailCount == 0 && d.stats.tailUnique == 0
                                                         then Absent else Unretained))
  {
    FirstTopK(d.stats.topK, id);
    FirstReservoir(d.stats.reservoir, id);
    UnlistedRange(SpanOf(d), Exhaustive(d.stats));
    hide TopKChurn, ReservoirChurn, UnretainedRange, ChurnOf;
  }

  lemma {:induction false} FirstTopK(entries: seq<TopKEntry>, id: TemplateId)
    ensures forall i: nat :: IsFirstTopK(entries, id, i) ==> TopKChurn(entries, id) == Some(entries[i].churn)
    ensures (forall e :: e in entries ==> e.id != id) <==> TopKChurn(entries, id) == None
  {
    if entries != [] {
      FirstTopK(entries[1..], id);
      forall i: nat | IsFirstTopK(entries, id, i) ensures TopKChurn(entries, id) == Some(entries[i].churn) {
        if i > 0 {
          assert forall j :: 0 <= j < i - 1 ==> entries[1..][j] == entries[j + 1];
          assert entries[0].id != id && IsFirstTopK(entries[1..], id, i - 1);
        }
      }
      assert forall e :: e in entries <==> e == entries[0] || e in entries[1..];
    }
  }

  lemma {:induction false} FirstReservoir(entries: seq<ReservoirEntry>, id: TemplateId)
    ensures forall i: nat :: IsFirstReservoir(entries, id, i) ==>
              ReservoirChurn(entries, id) == Some(entries[i].churn)
    ensures (forall e :: e in entries ==> e.id != id) <==> ReservoirChurn(entries, id) == None
  {
    if entries != [] {
      FirstReservoir(entries[1..], id);
      forall i: nat | IsFirstReservoir(entries, id, i) ensures ReservoirChurn(entries, id) == Some(entries[i].churn) {
        if i > 0 {
          assert forall j :: 0 <= j < i - 1 ==> entries[1..][j] == entries[j + 1];
          assert entries[0].id != id && IsFirstReservoir(entries[1..], id, i - 1);
        }
      }
      assert forall e :: e in entries <==> e == entries[0] || e in entries[1..];
    }
  }

  /** The presence of a listed template over both windows: the earlier document's followed by the later one's where one
      window lies before the other, and the join of the two where not. The span covered adds up or is the longer one
      accordingly, and the summary counts the rows that turned, their turns and their unknowns. */
  lemma PresenceReads(a: Document, b: Document, ctx: Context)
    requires CubesCompose(a, b) && Compose(a, b, ctx).Composed? && Timed(a) && Timed(b)
    requires SpanOf(a) > 0 || SpanOf(b) > 0
    ensures var d := Compose(a, b, ctx).document;
            && (forall i :: 0 <= i < |d.stats.topK| ==>
                  d.stats.topK[i].churn == Presence(a, b, d.stats.topK[i].id))
            && (forall i :: 0 <= i < |d.stats.reservoir| ==>
                  d.stats.reservoir[i].churn == Presence(a, b, d.stats.reservoir[i].id))
            && d.churn.Some?
            && d.churn.value.span == (if Before(a, b) || Before(b, a) then SpanOf(a) + SpanOf(b)
                                      else if SpanOf(a) <= SpanOf(b) then SpanOf(b) else SpanOf(a))
            && d.churn.value.withChurn == TurnedRows(RowChurns(d.stats))
            && d.churn.value.transitions == TotalTurns(RowChurns(d.stats))
            && d.churn.value.indeterminate == TotalUnknowns(RowChurns(d.stats))
  {
    var d := Compose(a, b, ctx).document;
    PresenceParts(a, b, ctx);
    SummarySums(RowChurns(d.stats));
    SpanFolds(d, a, b);
    hide *;
    forall i | 0 <= i < |d.stats.topK| ensures d.stats.topK[i].churn == Presence(a, b, d.stats.topK[i].id) {
      FoldIsPresence(a, b, d.stats.topK[i].id);
    }
    forall i | 0 <= i < |d.stats.reservoir|
      ensures d.stats.reservoir[i].churn == Presence(a, b, d.stats.reservoir[i].id)
    {
      FoldIsPresence(a, b, d.stats.reservoir[i].id);
    }
  }

  lemma FoldIsPresence(a: Document, b: Document, id: TemplateId)
    requires Timed(a) && Timed(b) && Accepted(a.envelope) && Accepted(b.envelope)
    ensures FoldElements(a, b, OrderOf(a.envelope, b.envelope), id) == Presence(a, b, id)
  {
    OrderTells(a, b);
    hide ElementOf, OrderOf, Before, Accepted;
  }

  lemma SpanFolds(d: Document, a: Document, b: Document)
    requires Timed(a) && Timed(b) && Accepted(a.envelope) && Accepted(b.envelope)
    ensures var s := Summary(d.stats, a, b, OrderOf(a.envelope, b.envelope));
            && s.span == (if Before(a, b) || Before(b, a) then SpanOf(a) + SpanOf(b)
                          else if SpanOf(a) <= SpanOf(b) then SpanOf(b) else SpanOf(a))
            && s.withChurn == Sum(RowChurns(d.stats), HasChurn)
            && s.transitions == Sum(RowChurns(d.stats), Transitions)
            && s.indeterminate == Sum(RowChurns(d.stats), Indeterminate)
  {
    OrderTells(a, b);
    hide RowChurns, OrderOf, Before, Accepted, Sum;
  }

  ghost function Presence(a: Document, b: Document, id: TemplateId): Churn
    requires Timed(a) && Timed(b)
  {
    if Before(a, b) then ComposeChurn(ElementOf(a, id), ElementOf(b, id))
    else if Before(b, a) then ComposeChurn(ElementOf(b, id), ElementOf(a, id))
    else JoinChurn(ElementOf(a, id), ElementOf(b, id))
  }

  function TurnedRows(rows: seq<Churn>): nat {
    if rows == [] then 0 else TurnedRows(rows[1..]) + if rows[0].transitions >= 1 then 1 else 0
  }

  function TotalTurns(rows: seq<Churn>): nat {
    if rows == [] then 0 else rows[0].transitions + TotalTurns(rows[1..])
  }

  function TotalUnknowns(rows: seq<Churn>): nat {
    if rows == [] then 0 else rows[0].indeterminate + TotalUnknowns(rows[1..])
  }

  lemma {:induction false} SummarySums(rows: seq<Churn>)
    ensures Sum(rows, HasChurn) == TurnedRows(rows) && Sum(rows, Transitions) == TotalTurns(rows)
    ensures Sum(rows, Indeterminate) == TotalUnknowns(rows)
  {
    if rows != [] {
      assert rows == [rows[0]] + rows[1..];
      SumConcat([rows[0]], rows[1..], HasChurn);
      SumConcat([rows[0]], rows[1..], Transitions);
      SumConcat([rows[0]], rows[1..], Indeterminate);
      SummarySums(rows[1..]);
      assert [rows[0]][..0] == [];
    }
  }

  lemma PresenceParts(a: Document, b: Document, ctx: Context)
    requires CubesCompose(a, b) && Compose(a, b, ctx).Composed? && (SpanOf(a) > 0 || SpanOf(b) > 0)
    ensures Accepted(a.envelope) && Accepted(b.envelope)
    ensures var d, order := Compose(a, b, ctx).document, OrderOf(a.envelope, b.envelope);
            && (forall i :: 0 <= i < |d.stats.topK| ==>
                  d.stats.topK[i].churn == FoldElements(a, b, order, d.stats.topK[i].id))
            && (forall i :: 0 <= i < |d.stats.reservoir| ==>
                  d.stats.reservoir[i].churn == FoldElements(a, b, order, d.stats.reservoir[i].id))
            && d.churn == Some(Summary(d.stats, a, b, order))
  {
    GateAccepts(a, b);
    hide Assembled, Accepted, Summary, OrderOf, CubesCompose, FoldElements, Gate;
  }
}
