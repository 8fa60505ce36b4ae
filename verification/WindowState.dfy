/** The parts of a window's state and what each owes to the events ingested so far. */
module WindowState {
  import opened Options
  import opened Identifiers
  import opened Orders
  import opened Sums
  import opened Bytes
  import opened ComposeLabels
  import opened SalienceScores
  import opened BoundedTable
  import opened Streams
  import opened Residency

  type SpanId = nat

  datatype TraceContext = TraceContext(present: bool, traceId: TraceId, isSpan: bool, spanId: SpanId,
                                       parent: Option<SpanId>)

  datatype Event = Event(template: Text, level: LevelId, declared: bool, component: Text, role: RoleId, echoed: bool,
                         trace: TraceContext)

  datatype Joint = Joint(level: LevelId, component: Text, role: RoleId)

  /** What a template's own lines said: how many, how they were levelled, and by whom. */
  datatype Bucket = Bucket(count: nat, firstSeen: nat, allEchoed: bool, levels: map<LevelId, nat>,
                           declared: map<LevelId, nat>,
                           roles: map<RoleId, nat>, components: map<Text, nat>)

  datatype SpanNode = SpanNode(template: InternalId, component: Text)

  datatype PendingEdge = PendingEdge(child: InternalId, parent: SpanId)

  type Identify = Text -> TemplateId

  // ---------------------------------------------------------------- identity

  /** Dense internal ids, one per content id, and a cache that agrees with them. */
  ghost predicate IdentityValid(cache: map<Text, InternalId>, index: map<TemplateId, InternalId>,
                                templates: seq<TemplateId>,
                                registry: map<TemplateId, Text>, identify: Identify) {
    && NoDuplicates(templates) && index.Keys == Elements(templates)
    && (forall i :: 0 <= i < |templates| ==>
        templates[i] in index && index[templates[i]] == i && templates[i] in registry)
    && (forall t :: t in cache ==> identify(t) in index && cache[t] == index[identify(t)])
  }

  lemma CachedId(cache: map<Text, InternalId>, index: map<TemplateId, InternalId>, templates: seq<TemplateId>,
                 registry: map<TemplateId, Text>, identify: Identify, text: Text)
    requires IdentityValid(cache, index, templates, registry, identify) && identify(text) in index
    ensures index[identify(text)] < |templates| && templates[index[identify(text)]] == identify(text)
    ensures IdentityValid(cache[text := index[identify(text)]], index, templates, registry, identify)
  {
    assert identify(text) in Elements(templates);
    var i :| 0 <= i < |templates| && templates[i] == identify(text);
  }

  lemma CacheAgrees(cache: map<Text, InternalId>, index: map<TemplateId, InternalId>, templates: seq<TemplateId>,
                    registry: map<TemplateId, Text>, identify: Identify, text: Text)
    requires IdentityValid(cache, index, templates, registry, identify) && text in cache
    ensures identify(text) in index && cache[text] == index[identify(text)]
  {}

  lemma NewTemplate(cache: map<Text, InternalId>, index: map<TemplateId, InternalId>, templates: seq<TemplateId>,
                    registry: map<TemplateId, Text>, registry': map<TemplateId, Text>, identify: Identify,
                        id: TemplateId)
    requires IdentityValid(cache, index, templates, registry, identify) && id !in index
    requires registry.Keys <= registry'.Keys && id in registry'
    ensures IdentityValid(cache, index[id := |templates|], templates + [id], registry', identify)
  {
    var after := templates + [id];
    assert id !in templates by { assert id !in Elements(templates); }
    assert Elements(after) == Elements(templates) + {id};
    forall i | 0 <= i < |after| ensures after[i] in index[id := |templates|]
        && index[id := |templates|][after[i]] == i && after[i] in registry' {
      assert i < |templates| ==> after[i] == templates[i];
    }
  }

  // ---------------------------------------------------------------- counting

  function ContentOf(e: Event, identify: Identify): TemplateId { identify(e.template) }

  ghost function Contents(events: seq<Event>, identify: Identify): (r: seq<TemplateId>)
    ensures |r| == |events| && forall i :: 0 <= i < |r| ==> r[i] == identify(events[i].template)
  {
    seq(|events|, i requires 0 <= i < |events| => ContentOf(events[i], identify))
  }

  function JointOf(e: Event): Joint { Joint(e.level, e.component, e.role) }

  ghost function Joints(events: seq<Event>): (r: seq<Joint>)
    ensures |r| == |events| && forall i :: 0 <= i < |r| ==> r[i] == JointOf(events[i])
  {
    seq(|events|, i requires 0 <= i < |events| => JointOf(events[i]))
  }

  /** The first place a value appears, the length when it does not. */
  ghost function FirstIndex<T>(s: seq<T>, x: T): nat
  {
    if s == [] then 0 else if s[0] == x then 0 else 1 + FirstIndex(s[1..], x)
  }

  /** The lines of one template, in the order they were observed. */
  ghost function Own(events: seq<Event>, identify: Identify, id: TemplateId): seq<Event> {
    if events == [] then []
    else
      var front, last := Own(events[..|events| - 1], identify, id), events[|events| - 1];
      if identify(last.template) == id then front + [last] else front
  }

  ghost function LevelsOf(own: seq<Event>): seq<LevelId> {
    if own == [] then [] else LevelsOf(own[..|own| - 1]) + [own[|own| - 1].level]
  }

  ghost function DeclaredOf(own: seq<Event>): seq<LevelId> {
    if own == [] then [] else DeclaredOf(own[..|own| - 1]) + if own[|own| - 1].declared then [own[|own| - 1].level]
        else []
  }

  ghost function RolesOf(own: seq<Event>): seq<RoleId> {
    if own == [] then [] else RolesOf(own[..|own| - 1]) + [own[|own| - 1].role]
  }

  /** An empty component is not a location. */
  ghost function ComponentsOf(own: seq<Event>): seq<Text> {
    if own == [] then [] else ComponentsOf(own[..|own| - 1]) + if own[|own| - 1].component != []
        then [own[|own| - 1].component] else []
  }

  ghost predicate AllEchoed(own: seq<Event>) { forall e :: e in own ==> e.echoed }

  /** A table of exact occurrences. */
  ghost predicate Tallied<K>(counts: map<K, nat>, s: seq<K>) { Counts(counts, s, Elements(s)) }

  function Bumped<K>(counts: map<K, nat>, k: K): map<K, nat> { counts[k := (if k in counts then counts[k] else 0) + 1] }

  lemma TallySnoc<K>(counts: map<K, nat>, s: seq<K>, k: K)
    requires Tallied(counts, s)
    ensures Tallied(Bumped(counts, k), s + [k])
  {
    assert Elements(s + [k]) == Elements(s) + {k};
    assert k !in counts ==> Occurrences(s, k) == 0 by { assert k in s ==> k in Elements(s); }
    forall x ensures Occurrences(s + [k], x) == Occurrences(s, x) + if x == k then 1 else 0
        { OccurrencesSnoc(s, k, x); }
    hide Occurrences;
  }

  /** The counters of a bucket owe nothing to any line but its template's own. */
  ghost predicate Tallies(b: Bucket, own: seq<Event>) {
    && b.count == |own| && b.allEchoed == AllEchoed(own)
    && Tallied(b.levels, LevelsOf(own)) && Tallied(b.declared, DeclaredOf(own))
    && Tallied(b.roles, RolesOf(own)) && Tallied(b.components, ComponentsOf(own))
  }

  ghost predicate BucketIs(b: Bucket, events: seq<Event>, identify: Identify, id: TemplateId) {
    Tallies(b, Own(events, identify, id)) && b.firstSeen == FirstIndex(Contents(events, identify), id)
  }

  /** Every line is counted once in its template's bucket and once in the cube's joint. */
  ghost predicate CountingValid(lines: nat, buckets: map<TemplateId, Bucket>, base: map<Joint, nat>,
                                events: seq<Event>, identify: Identify) {
    && lines == |events|
    && buckets.Keys == Elements(Contents(events, identify))
    && (forall id :: id in buckets ==> BucketIs(buckets[id], events, identify, id))
    && Tallied(base, Joints(events))
  }

  lemma {:induction false} FirstIndexSnoc<T>(s: seq<T>, y: T, x: T)
    ensures FirstIndex(s + [y], x) == if x in s then FirstIndex(s, x) else if x == y then |s| else |s| + 1
    ensures x !in s ==> FirstIndex(s, x) == |s|
  {
    if s == [] {
      assert s + [y] == [y] && [y][1..] == [];
    } else {
      assert (s + [y])[1..] == s[1..] + [y];
      FirstIndexSnoc(s[1..], y, x);
      assert s == [s[0]] + s[1..];
    }
  }

  lemma ContentsSnoc(events: seq<Event>, e: Event, identify: Identify)
    ensures Contents(events + [e], identify) == Contents(events, identify) + [identify(e.template)]
    ensures Joints(events + [e]) == Joints(events) + [JointOf(e)]
  {}

  /** A bucket after one more of its template's lines. */
  function CountedLine(b: Bucket, e: Event): Bucket {
    Bucket(b.count + 1, b.firstSeen, b.allEchoed && e.echoed, Bumped(b.levels, e.level),
           if e.declared then Bumped(b.declared, e.level) else b.declared, Bumped(b.roles, e.role),
           if e.component != [] then Bumped(b.components, e.component) else b.components)
  }

  function NewBucket(firstSeen: nat): Bucket { Bucket(0, firstSeen, true, map[], map[], map[], map[]) }

  lemma NewTallies(firstSeen: nat)
    ensures Tallies(NewBucket(firstSeen), [])
  {}

  lemma LineTallied(b: Bucket, own: seq<Event>, e: Event)
    requires Tallies(b, own)
    ensures Tallies(CountedLine(b, e), own + [e])
  {
    hide Tallied, Bumped, AllEchoed, LevelsOf, DeclaredOf, RolesOf, ComponentsOf;
    OwnProjections(own, e);
    TallySnoc(b.levels, LevelsOf(own), e.level);
    TallySnoc(b.declared, DeclaredOf(own), e.level);
    TallySnoc(b.roles, RolesOf(own), e.role);
    TallySnoc(b.components, ComponentsOf(own), e.component);
  }

  lemma OwnProjections(own: seq<Event>, e: Event)
    ensures AllEchoed(own + [e]) == (AllEchoed(own) && e.echoed)
    ensures LevelsOf(own + [e]) == LevelsOf(own) + [e.level] && RolesOf(own + [e]) == RolesOf(own) + [e.role]
    ensures DeclaredOf(own + [e]) == if e.declared then DeclaredOf(own) + [e.level] else DeclaredOf(own)
    ensures ComponentsOf(own + [e]) == if e.component != [] then ComponentsOf(own) + [e.component]
        else ComponentsOf(own)
  {
    assert (own + [e])[..|own|] == own;
    assert forall x :: x in own + [e] <==> x in own || x == e;
    assert DeclaredOf(own) + [] == DeclaredOf(own) && ComponentsOf(own) + [] == ComponentsOf(own);
  }

  lemma OwnSnoc(events: seq<Event>, e: Event, identify: Identify, id: TemplateId)
    ensures Own(events + [e], identify, id) == if identify(e.template) == id then Own(events, identify, id) + [e]
        else Own(events, identify, id)
  {
    assert (events + [e])[..|events|] == events;
  }

  lemma {:induction false} OwnCount(events: seq<Event>, identify: Identify, id: TemplateId)
    ensures |Own(events, identify, id)| == Occurrences(Contents(events, identify), id)
  {
    if events != [] {
      var front, last := events[..|events| - 1], events[|events| - 1];
      assert events == front + [last];
      OwnCount(front, identify, id);
      ContentsSnoc(front, last, identify);
      OccurrencesSnoc(Contents(front, identify), identify(last.template), id);
    }
  }

  function CountedBucket(buckets: map<TemplateId, Bucket>, lines: nat, id: TemplateId, e: Event): Bucket {
    CountedLine(if id in buckets then buckets[id] else NewBucket(lines), e)
  }

  lemma BucketCounted(events: seq<Event>, e: Event, identify: Identify, buckets: map<TemplateId, Bucket>)
    requires buckets.Keys == Elements(Contents(events, identify))
    requires forall id :: id in buckets ==> BucketIs(buckets[id], events, identify, id)
    ensures BucketIs(CountedBucket(buckets, |events|, identify(e.template), e), events + [e], identify,
                     identify(e.template))
  {
    var id, contents := identify(e.template), Contents(events, identify);
    ContentsSnoc(events, e, identify);
    FirstIndexSnoc(contents, id, id);
    OwnSnoc(events, e, identify, id);
    assert id in buckets <==> id in contents;
    hide Tallies, FirstIndex, Own;
    if id in buckets {
      LineTallied(buckets[id], Own(events, identify, id), e);
    } else {
      OwnCount(events, identify, id);
      assert Own(events, identify, id) == [] by { assert Occurrences(contents, id) == 0; }
      NewTallies(|events|);
      LineTallied(NewBucket(|events|), [], e);
    }
  }

  lemma OtherBucket(events: seq<Event>, e: Event, identify: Identify, b: Bucket, id: TemplateId)
    requires BucketIs(b, events, identify, id) && id != identify(e.template) && id in Contents(events, identify)
    ensures BucketIs(b, events + [e], identify, id)
  {
    ContentsSnoc(events, e, identify);
    FirstIndexSnoc(Contents(events, identify), identify(e.template), id);
    OwnSnoc(events, e, identify, id);
    hide Tallies, FirstIndex, Own;
  }

  lemma LineCounted(lines: nat, buckets: map<TemplateId, Bucket>, base: map<Joint, nat>, events: seq<Event>,
                    identify: Identify, e: Event)
    requires CountingValid(lines, buckets, base, events, identify)
    ensures var id := identify(e.template);
            CountingValid(lines + 1, buckets[id := CountedBucket(buckets, lines, id, e)], Bumped(base, JointOf(e)),
                          events + [e], identify)
  {
    hide BucketIs, Tallied, Bumped, CountedBucket;
    TallySnoc(base, Joints(events), JointOf(e));
    BucketCounted(events, e, identify, buckets);
    forall id | id in buckets && id != identify(e.template) ensures BucketIs(buckets[id], events + [e], identify, id) {
      OtherBucket(events, e, identify, buckets[id], id);
    }
    ContentsSnoc(events, e, identify);
    assert Elements(Contents(events, identify) + [identify(e.template)]) == Elements(Contents(events, identify))
        + {identify(e.template)};
  }

  function BucketCount(buckets: map<TemplateId, Bucket>): TemplateId -> nat
      { (id: TemplateId) => if id in buckets then buckets[id].count else 0 }

  /** Buckets and cube base both add up to the lines observed. */
  lemma LinesConserved(lines: nat, buckets: map<TemplateId, Bucket>, base: map<Joint, nat>, events: seq<Event>,
                       identify: Identify)
    requires CountingValid(lines, buckets, base, events, identify)
    ensures SetSum(buckets.Keys, BucketCount(buckets)) == lines && SetSum(base.Keys, CountOf(base)) == lines
  {
    var contents, joints := Contents(events, identify), Joints(events);
    KeptSum(contents, buckets.Keys);
    NoneOutside(contents, buckets.Keys);
    forall id | id in buckets ensures BucketCount(buckets)(id) == OccurrenceOf(contents)(id)
        { OwnCount(events, identify, id); }
    SetSumSame(buckets.Keys, BucketCount(buckets), OccurrenceOf(contents));
    KeptSum(joints, base.Keys);
    NoneOutside(joints, base.Keys);
    SetSumSame(base.Keys, CountOf(base), OccurrenceOf(joints));
  }

  lemma {:induction false} NoneOutside<K>(offered: seq<K>, keys: set<K>)
    requires Elements(offered) <= keys
    ensures Outside(offered, keys) == 0
  {
    if offered != [] {
      var front, last := offered[..|offered| - 1], offered[|offered| - 1];
      assert offered == front + [last];
      assert Elements(front) <= Elements(offered);
      assert last in Elements(offered);
      NoneOutside(front, keys);
    }
  }

  // ---------------------------------------------------------------- bounded tables with a queue

  /** A map and its insertion queue: the same keys, each once, within the bound. */
  ghost predicate QueueValid<K, V>(table: map<K, V>, fifo: seq<K>, bound: nat) {
    Elements(fifo) == table.Keys && NoDuplicates(fifo) && (bound > 0 ==> |fifo| <= bound)
  }

  lemma {:induction false} QueueSize<K, V>(table: map<K, V>, fifo: seq<K>)
    requires Elements(fifo) == table.Keys && NoDuplicates(fifo)
    ensures |table| == |fifo|
  {
    SequenceSum(fifo, (k: K) => 0);
    assert |table| == |table.Keys|;
  }

  lemma Evicted<K, V>(table: map<K, V>, fifo: seq<K>, bound: nat)
    requires QueueValid(table, fifo, bound) && fifo != []
    ensures QueueValid(table - {fifo[0]}, fifo[1..], bound) && fifo[0] in table
  {
    assert fifo == [fifo[0]] + fifo[1..];
    assert fifo[0] in Elements(fifo) && fifo[0] !in fifo[1..];
  }

  lemma Queued<K, V>(table: map<K, V>, fifo: seq<K>, bound: nat, key: K, value: V)
    requires QueueValid(table, fifo, bound) && key !in table && (bound > 0 ==> |fifo| < bound)
    ensures QueueValid(table[key := value], fifo + [key], bound)
  {
    assert key !in fifo by { assert key !in Elements(fifo); }
    assert Elements(fifo + [key]) == Elements(fifo) + {key};
  }

  lemma Requeued<K, V>(table: map<K, V>, fifo: seq<K>, bound: nat, key: K, value: V)
    requires QueueValid(table, fifo, bound) && key in table
    ensures QueueValid(table[key := value], fifo, bound)
  {
    assert table[key := value].Keys == table.Keys;
  }

  // ---------------------------------------------------------------- streams and rings

  function StreamFor(e: Event, scoping: bool): Option<Stream> {
    if e.trace.isSpan then None else if scoping && e.trace.present then Some(Trace(e.trace.traceId)) else Some(Global)
  }

  /** Each event's observation: its stream, and an internal id that stands for its content. */
  ghost predicate HistoryValid(history: History, events: seq<Event>, templates: seq<TemplateId>,
                               identify: Identify, scoping: bool) {
    && |history| == |events|
    && (forall i :: 0 <= i < |history| ==>
          history[i].stream == StreamFor(events[i], scoping)
          && history[i].id < |templates| && templates[history[i].id] == identify(events[i].template))
  }

  /** The live rings are those of the live traces, in step with their queue; each holds the records of its stream's
      present stay. */
  ghost predicate RingsValid(globalRing: Ring, rings: map<TraceId, Ring>, fifo: seq<TraceId>, bound: nat,
                             history: History) {
    && QueueValid(rings, fifo, bound) && fifo == Live(history, bound)
    && Holds(globalRing, Present(history, bound, Global))
    && forall t :: t in rings ==> Holds(rings[t], Present(history, bound, Trace(t)))
  }
}
