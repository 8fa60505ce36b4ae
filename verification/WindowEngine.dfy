/** The window engine: open, ingest, discard, and the span edges resolved at close, with the whole
    ingested history as the ghost witness of what its tables hold. */
module WindowEngine {
  import opened Options
  import opened Identifiers
  import opened Orders
  import opened Sums
  import opened Bytes
  import opened BoundedTable
  import opened Streams
  import TextCap
  import opened Residency
  import opened WindowState
  import opened WindowClose
  import opened WindowDocument
  import opened WindowBehavior
  import opened StatsLaws
  import opened ComposeStats
  import opened Interning
  import opened Cells
  import opened CubeLines
  import opened Transitions

  type Joint = WindowState.Joint

  datatype Ingested = NotOpen | Refused | Accepted

  datatype Config = Config(ngramSize: nat, maxNgramKeys: nat, scoping: bool, maxActiveTraces: nat,
                           maxActiveSpans: nat, maxSpanEdgeKeys: nat,
                           document: DocumentConfig)

  /** What closing hands over: the document, the declared edges resolved, and what the bounds refused. */
  datatype Closing = NeverOpened
    | Closed(document: ClosedWindow, spanEdges: map<(InternalId, InternalId), nat>, spanEdgesDropped: nat,
             orphans: nat, ngramsDropped: nat)

  const MIN_NGRAM_SIZE := 2
  const MAX_NGRAM_SIZE := 3

  /** The n-gram size applied: the one configured, clamped to those the rings can form. */
  function EffectiveNgramSize(size: nat): nat { Max(MIN_NGRAM_SIZE, Min(MAX_NGRAM_SIZE, size)) }

  /** Bigrams below three, trigrams from three on. */
  lemma SizesFormed(size: nat)
    ensures EffectiveNgramSize(size) == if size <= 2 then 2 else 3
  {}

  class Engine {
    const config: Config
    const identify: Identify

    var open: bool
    var lines: nat
    var buckets: map<TemplateId, Bucket>
    var cubeBase: map<Joint, nat>

    var templateCache: map<Text, InternalId>
    var templateIndex: map<TemplateId, InternalId>
    var templates: seq<TemplateId>
    var registry: map<TemplateId, Text>

    var globalRing: Ring
    var traceRings: map<TraceId, Ring>
    var traceRingFifo: seq<TraceId>
    var ngramCounts: map<NGramKey, nat>
    var ngramTotal: nat
    var ngramDropped: nat

    var spanTemplates: map<SpanId, SpanNode>
    var spanFifo: seq<SpanId>
    var spanRecords: nat
    var pendingSpanEdges: seq<PendingEdge>
    var spanEdgeCounts: map<(InternalId, InternalId), nat>
    var spanEdgesDropped: nat
    var orphanParentEdges: nat

    /** What was ingested since the window opened, what it observed, and the n-grams it formed. */
    ghost var events: seq<Event>
    ghost var history: History
    ghost var formed: seq<NGramKey>

    ghost predicate Valid()
      reads this
    {
      && (config.ngramSize == 2 || config.ngramSize == 3)
      && IdentityValid(templateCache, templateIndex, templates, registry, identify)
      && CountingValid(lines, buckets, cubeBase, events, identify)
      && HistoryValid(history, events, templates, identify, config.scoping)
      && RingsValid(globalRing, traceRings, traceRingFifo, config.maxActiveTraces, history)
      && TableValid(ngramCounts, ngramTotal, ngramDropped, formed, history, config)
      && QueueValid(spanTemplates, spanFifo, config.maxActiveSpans)
      && spanEdgeCounts == map[] && spanEdgesDropped == 0 && orphanParentEdges == 0
    }

    lemma ValidParts()
      requires Valid()
      ensures config.ngramSize == 2 || config.ngramSize == 3
      ensures IdentityValid(templateCache, templateIndex, templates, registry, identify)
      ensures CountingValid(lines, buckets, cubeBase, events, identify)
      ensures HistoryValid(history, events, templates, identify, config.scoping)
      ensures RingsValid(globalRing, traceRings, traceRingFifo, config.maxActiveTraces, history)
      ensures TableValid(ngramCounts, ngramTotal, ngramDropped, formed, history, config)
      ensures QueueValid(spanTemplates, spanFifo, config.maxActiveSpans)
      ensures spanEdgeCounts == map[] && spanEdgesDropped == 0 && orphanParentEdges == 0
    {
      hide IdentityValid, CountingValid, HistoryValid, RingsValid, TableValid, QueueValid;
    }

    lemma PartsValid()
      requires config.ngramSize == 2 || config.ngramSize == 3
      requires IdentityValid(templateCache, templateIndex, templates, registry, identify)
      requires CountingValid(lines, buckets, cubeBase, events, identify)
      requires HistoryValid(history, events, templates, identify, config.scoping)
      requires RingsValid(globalRing, traceRings, traceRingFifo, config.maxActiveTraces, history)
      requires TableValid(ngramCounts, ngramTotal, ngramDropped, formed, history, config)
      requires QueueValid(spanTemplates, spanFifo, config.maxActiveSpans)
      requires spanEdgeCounts == map[] && spanEdgesDropped == 0 && orphanParentEdges == 0
      ensures Valid()
    {
      hide IdentityValid, CountingValid, HistoryValid, RingsValid, TableValid, QueueValid;
    }

    ghost predicate Empty()
      reads this
    {
      events == [] && lines == 0 && ngramDropped == 0 && ngramCounts == map[] && spanTemplates == map[]
          && pendingSpanEdges == []
    }

    constructor (config: Config, identify: Identify)
      ensures Valid() && Empty() && !open && this.identify == identify
      ensures this.config == config.(ngramSize := EffectiveNgramSize(config.ngramSize))
    {
      this.config, this.identify := config.(ngramSize := EffectiveNgramSize(config.ngramSize)), identify;
      open, lines, buckets, cubeBase := false, 0, map[], map[];
      templateCache, templateIndex, templates, registry := map[], map[], [], map[];
      globalRing, traceRings, traceRingFifo := EMPTY_RING, map[], [];
      ngramCounts, ngramTotal, ngramDropped := map[], 0, 0;
      spanTemplates, spanFifo, spanRecords, pendingSpanEdges := map[], [], 0, [];
      spanEdgeCounts, spanEdgesDropped, orphanParentEdges := map[], 0, 0;
      events, history, formed := [], [], [];
      new;
      NothingIngested(this.config, identify, map[]);
    }

    /** A text cap no document may declare is refused before there is an engine. */
    static method Create(config: Config, maxTextBytes: nat, identify: Identify) returns (engine: Engine?)
      ensures engine == null <==> !TextCap.ValidCap(maxTextBytes)
      ensures engine != null ==> fresh(engine) && engine.Valid() && engine.Empty() && !engine.open
      ensures engine != null ==> engine.config == config.(ngramSize := EffectiveNgramSize(config.ngramSize))
    {
      if !TextCap.ValidCap(maxTextBytes) {
        return null;
      }
      engine := new Engine(config, identify);
    }

    method ResetCounts()
      modifies this`open, this`lines, this`buckets, this`cubeBase, this`events
      ensures !open && lines == 0 && buckets == map[] && cubeBase == map[] && events == []
    {
      open, lines, buckets, cubeBase, events := false, 0, map[], map[], [];
    }

    method ResetIdentity()
      modifies this`templateCache, this`templateIndex, this`templates
      ensures templateCache == map[] && templateIndex == map[] && templates == []
    {
      templateCache, templateIndex, templates := map[], map[], [];
    }

    method ResetStreams()
      modifies this`globalRing, this`traceRings, this`traceRingFifo, this`ngramCounts, this`ngramTotal,
               this`ngramDropped, this`history, this`formed
      ensures globalRing == EMPTY_RING && traceRings == map[] && traceRingFifo == [] && ngramCounts == map[]
          && ngramTotal == 0 && ngramDropped == 0
      ensures history == [] && formed == []
    {
      globalRing, traceRings, traceRingFifo := EMPTY_RING, map[], [];
      ngramCounts, ngramTotal, ngramDropped := map[], 0, 0;
      history, formed := [], [];
    }

    method ResetSpans()
      modifies this`spanTemplates, this`spanFifo, this`spanRecords, this`pendingSpanEdges, this`spanEdgeCounts,
               this`spanEdgesDropped, this`orphanParentEdges
      ensures spanTemplates == map[] && spanFifo == [] && spanRecords == 0 && pendingSpanEdges == []
      ensures spanEdgeCounts == map[] && spanEdgesDropped == 0 && orphanParentEdges == 0
    {
      spanTemplates, spanFifo, spanRecords, pendingSpanEdges := map[], [], 0, [];
      spanEdgeCounts, spanEdgesDropped, orphanParentEdges := map[], 0, 0;
    }

    /** One reset for opening, discarding and closing: everything of the window goes, the registry stays. */
    method ResetWindowState()
      requires config.ngramSize == 2 || config.ngramSize == 3
      modifies this
      ensures Valid() && Empty() && !open && registry == old(registry)
    {
      hide *;
      ResetCounts();
      ResetIdentity();
      ResetStreams();
      ResetSpans();
      ClearedIsValid();
    }

    lemma ClearedIsValid()
      requires config.ngramSize == 2 || config.ngramSize == 3
      requires !open && lines == 0 && buckets == map[] && cubeBase == map[] && templateCache == map[]
          && templateIndex == map[] && templates == []
      requires globalRing == EMPTY_RING && traceRings == map[] && traceRingFifo == [] && ngramCounts == map[]
          && ngramTotal == 0 && ngramDropped == 0
      requires spanTemplates == map[] && spanFifo == [] && pendingSpanEdges == [] && events == [] && history == []
          && formed == []
      requires spanEdgeCounts == map[] && spanEdgesDropped == 0 && orphanParentEdges == 0
      ensures Valid() && Empty()
    {
      NothingIngested(config, identify, registry);
      hide IdentityValid, CountingValid, HistoryValid, RingsValid, TableValid, QueueValid, Formed;
    }

    method OpenWindow()
      requires Valid()
      modifies this
      ensures Valid() && Empty() && open && registry == old(registry)
    {
      ResetWindowState();
      open := true;
    }

    method DiscardWindow()
      requires Valid()
      modifies this
      ensures Valid() && Empty() && !open && registry == old(registry)
    {
      ResetWindowState();
    }

    // -------------------------------------------------------------- identity

    /** The next dense id goes to a new content id; the registry keeps the first text it saw for one. */
    method InternTemplate(id: TemplateId, text: Text)
      modifies this`templateIndex, this`templates, this`registry
      ensures templateIndex == old(templateIndex)[id := |old(templates)|] && templates == old(templates) + [id]
      ensures registry == Interned(old(registry), id, text) && id in registry
          && forall k :: k in old(registry) ==> k in registry && registry[k] == old(registry)[k]
    {
      templateIndex := templateIndex[id := |templates|];
      templates := templates + [id];
      if id !in registry {
        registry := registry[id := text];
      }
    }

    /** The internal id of a template; a new content id is interned only when admission lets it in. */
    method ContentTemplateIdFor(text: Text, admit: Text -> bool) returns (lookup: Option<InternalId>)
      requires Valid()
      modifies this`templateCache, this`templateIndex, this`templates, this`registry
      ensures Valid() && old(templates) <= templates
      ensures lookup.Some? ==> lookup.value < |templates| && templates[lookup.value] == identify(text)
      ensures lookup.None? <==>
                identify(text) !in old(templateIndex) && identify(text) !in old(registry) && !admit(text)
      ensures lookup.None? ==> unchanged(this)
      ensures forall id :: id in old(registry) ==> id in registry && registry[id] == old(registry)[id]
    {
      hide *;
      ValidParts();
      var id := identify(text);
      if text in templateCache {
        CacheAgrees(templateCache, templateIndex, templates, registry, identify, text);
        CachedId(templateCache, templateIndex, templates, registry, identify, text);
        return Some(templateCache[text]);
      }
      if id !in templateIndex {
        if id !in registry && !admit(text) {
          return None;
        }
        NewTemplate(templateCache, templateIndex, templates, registry, Interned(registry, id, text), identify, id);
        MoreTemplates(history, events, templates, templates + [id], identify, config.scoping);
        InternTemplate(id, text);
      }
      CachedId(templateCache, templateIndex, templates, registry, identify, text);
      var internal := templateIndex[id];
      templateCache := templateCache[text := internal];
      PartsValid();
      return Some(internal);
    }

    // -------------------------------------------------------------- n-grams

    /** Counts one n-gram, or refuses a new key at the cap and counts the refusal. */
    method AccountNgram(key: NGramKey)
      requires Refines(ngramCounts, ngramTotal, ngramDropped, formed, config.maxNgramKeys)
      modifies this`ngramCounts, this`ngramTotal, this`ngramDropped, this`formed
      ensures formed == old(formed) + [key]
      ensures Refines(ngramCounts, ngramTotal, ngramDropped, formed, config.maxNgramKeys)
    {
      hide Refines;
      TableSize(ngramCounts, ngramTotal, ngramDropped, formed, config.maxNgramKeys);
      formed := formed + [key];
      if key !in ngramCounts {
        if |ngramCounts| >= config.maxNgramKeys {
          RefuseNew(ngramCounts, ngramTotal, ngramDropped, old(formed), config.maxNgramKeys, key);
          ngramDropped := ngramDropped + 1;
          return;
        }
        TakeNew(ngramCounts, ngramTotal, ngramDropped, old(formed), config.maxNgramKeys, key);
        ngramCounts := ngramCounts[key := 1];
      } else {
        CountKnown(ngramCounts, ngramTotal, ngramDropped, old(formed), config.maxNgramKeys, key);
        ngramCounts := ngramCounts[key := ngramCounts[key] + 1];
      }
      ngramTotal := ngramTotal + 1;
    }

    /** The n-gram a ring completes with this id, then the ring advanced. */
    method AccountNgramInto(ring: Ring, id: InternalId) returns (advanced: Ring)
      requires Refines(ngramCounts, ngramTotal, ngramDropped, formed, config.maxNgramKeys)
      modifies this`ngramCounts, this`ngramTotal, this`ngramDropped, this`formed
      ensures advanced == Pushed(ring, id) && formed == old(formed) + RingKey(ring, id, config.ngramSize)
      ensures Refines(ngramCounts, ngramTotal, ngramDropped, formed, config.maxNgramKeys)
    {
      hide Refines;
      if config.ngramSize == 2 && ring.filled >= 1 {
        AccountNgram([ring.recent0, id]);
      } else if config.ngramSize == 3 && ring.filled >= 2 {
        AccountNgram([ring.recent1, ring.recent0, id]);
      }
      advanced := Ring(id, ring.recent0, if ring.filled < 2 then ring.filled + 1 else ring.filled);
    }

    /** The ring of a trace; a new trace at the bound evicts the oldest. */
    method TraceRingFor(trace: TraceId)
      requires QueueValid(traceRings, traceRingFifo, config.maxActiveTraces)
      modifies this`traceRings, this`traceRingFifo
      ensures QueueValid(traceRings, traceRingFifo, config.maxActiveTraces) && trace in traceRings
      ensures (traceRings, traceRingFifo)
          == Enqueued(old(traceRings), old(traceRingFifo), config.maxActiveTraces, trace, EMPTY_RING)
    {
      EnqueuedValid(traceRings, traceRingFifo, config.maxActiveTraces, trace, EMPTY_RING);
      hide QueueValid;
      if trace in traceRings {
        return;
      }
      if config.maxActiveTraces > 0 && |traceRings| >= config.maxActiveTraces && traceRingFifo != [] {
        OldestIsLive(traceRings, traceRingFifo, config.maxActiveTraces);
        traceRings, traceRingFifo := traceRings - {traceRingFifo[0]}, traceRingFifo[1..];
      }
      traceRingFifo := traceRingFifo + [trace];
      traceRings := traceRings[trace := EMPTY_RING];
    }

    // -------------------------------------------------------------- spans

    /** The first span under an id wins; at the bound a new id evicts the oldest; the parent waits for close. */
    method RecordSpan(e: Event, id: InternalId)
      requires QueueValid(spanTemplates, spanFifo, config.maxActiveSpans)
      modifies this`spanRecords, this`spanTemplates, this`spanFifo, this`pendingSpanEdges
      ensures QueueValid(spanTemplates, spanFifo, config.maxActiveSpans) && spanRecords == old(spanRecords) + 1
      ensures (spanTemplates, spanFifo)
           == Enqueued(old(spanTemplates), old(spanFifo), config.maxActiveSpans, e.trace.spanId,
                       SpanNode(id, e.component))
      ensures pendingSpanEdges == old(pendingSpanEdges) + PendingOf(e, id)
    {
      EnqueuedValid(spanTemplates, spanFifo, config.maxActiveSpans, e.trace.spanId, SpanNode(id, e.component));
      hide QueueValid;
      spanRecords := spanRecords + 1;
      var span := e.trace.spanId;
      if span !in spanTemplates {
        if config.maxActiveSpans > 0 && |spanTemplates| >= config.maxActiveSpans && spanFifo != [] {
          spanTemplates, spanFifo := spanTemplates - {spanFifo[0]}, spanFifo[1..];
        }
        spanTemplates := spanTemplates[span := SpanNode(id, e.component)];
        spanFifo := spanFifo + [span];
      }
      if e.trace.parent.Some? {
        pendingSpanEdges := pendingSpanEdges + [PendingEdge(id, e.trace.parent.value)];
      }
    }

    /** Counts one declared edge, or refuses a new one at the cap and counts the refusal. */
    method AccountSpanEdge(parent: InternalId, child: InternalId, ghost offered: seq<(InternalId, InternalId)>,
                           ghost total: nat)
      returns (ghost counted: nat)
      requires Refines(spanEdgeCounts, total, spanEdgesDropped, offered, config.maxSpanEdgeKeys)
      modifies this`spanEdgeCounts, this`spanEdgesDropped
      ensures Refines(spanEdgeCounts, counted, spanEdgesDropped, offered + [(parent, child)], config.maxSpanEdgeKeys)
    {
      hide Refines;
      counted := total + 1;
      var key := (parent, child);
      if key !in spanEdgeCounts {
        if |spanEdgeCounts| >= config.maxSpanEdgeKeys {
          RefuseNew(spanEdgeCounts, total, spanEdgesDropped, offered, config.maxSpanEdgeKeys, key);
          spanEdgesDropped := spanEdgesDropped + 1;
          return total;
        }
        TakeNew(spanEdgeCounts, total, spanEdgesDropped, offered, config.maxSpanEdgeKeys, key);
        spanEdgeCounts := spanEdgeCounts[key := 1];
        return;
      }
      CountKnown(spanEdgeCounts, total, spanEdgesDropped, offered, config.maxSpanEdgeKeys, key);
      spanEdgeCounts := spanEdgeCounts[key := spanEdgeCounts[key] + 1];
    }

    /** At close every pending edge is resolved against the live spans or counted as an orphan, and the
        resolved ones go through their own bounded table. */
    method ResolveSpanEdges()
      requires spanEdgeCounts == map[] && spanEdgesDropped == 0 && orphanParentEdges == 0
      modifies this`spanEdgeCounts, this`spanEdgesDropped, this`orphanParentEdges
      ensures var resolved := Resolved(pendingSpanEdges, spanTemplates);
              && orphanParentEdges + |resolved| == |pendingSpanEdges|
              && exists t :: Refines(spanEdgeCounts, t, spanEdgesDropped, resolved, config.maxSpanEdgeKeys)
    {
      hide Refines;
      ghost var total: nat := 0;
      NothingOffered<(InternalId, InternalId)>(config.maxSpanEdgeKeys);
      for k := 0 to |pendingSpanEdges|
        invariant orphanParentEdges + |Resolved(pendingSpanEdges[..k], spanTemplates)| == k
        invariant Refines(spanEdgeCounts, total, spanEdgesDropped, Resolved(pendingSpanEdges[..k], spanTemplates),
                          config.maxSpanEdgeKeys)
      {
        var edge := pendingSpanEdges[k];
        assert pendingSpanEdges[..k + 1][..k] == pendingSpanEdges[..k];
        if edge.parent !in spanTemplates {
          orphanParentEdges := orphanParentEdges + 1;
        } else {
          total := AccountSpanEdge(spanTemplates[edge.parent].template, edge.child,
                                   Resolved(pendingSpanEdges[..k], spanTemplates), total);
        }
      }
      assert pendingSpanEdges[..|pendingSpanEdges|] == pendingSpanEdges;
    }

    // -------------------------------------------------------------- ingest

    /** A level is counted together with its provenance, and an empty component is not a location. */
    method CountInto(b: Bucket, e: Event) returns (bucket: Bucket)
      ensures bucket == CountedLine(b, e)
    {
      bucket := b.(count := b.count + 1);
      bucket := bucket.(levels := Bumped(bucket.levels, e.level));
      if e.declared {
        bucket := bucket.(declared := Bumped(bucket.declared, e.level));
      }
      bucket := bucket.(roles := Bumped(bucket.roles, e.role), allEchoed := bucket.allEchoed && e.echoed);
      if e.component != [] {
        bucket := bucket.(components := Bumped(bucket.components, e.component));
      }
    }

    /** Counts the line in its bucket and in the cube's joint. */
    method CountLine(e: Event)
      requires CountingValid(lines, buckets, cubeBase, events, identify)
      modifies this`lines, this`buckets, this`cubeBase, this`events
      ensures CountingValid(lines, buckets, cubeBase, events, identify) && events == old(events) + [e]
          && lines == old(lines) + 1
    {
      hide *;
      LineCounted(lines, buckets, cubeBase, events, identify, e);
      var id, joint := identify(e.template), JointOf(e);
      var bucket := CountInto(if id in buckets then buckets[id] else NewBucket(lines), e);
      CountedBucketIs(buckets, lines, id, e);
      buckets := buckets[id := bucket];
      lines := lines + 1;
      cubeBase := Bumped(cubeBase, joint);
      events := events + [e];
    }

    /** A record outside every trace forms its n-gram in the global ring. */
    method FormGlobalNgram(id: InternalId)
      requires RingsValid(globalRing, traceRings, traceRingFifo, config.maxActiveTraces, history)
      requires TableValid(ngramCounts, ngramTotal, ngramDropped, formed, history, config)
          && (config.ngramSize == 2 || config.ngramSize == 3)
      modifies this`globalRing, this`ngramCounts, this`ngramTotal, this`ngramDropped, this`formed, this`history
      ensures RingsValid(globalRing, traceRings, traceRingFifo, config.maxActiveTraces, history)
      ensures TableValid(ngramCounts, ngramTotal, ngramDropped, formed, history, config)
      ensures history == old(history) + [Observation(Some(Global), id)]
          && formed == old(formed) + RingKey(old(globalRing), id, config.ngramSize)
    {
      hide *;
      RingsParts(globalRing, traceRings, traceRingFifo, config.maxActiveTraces, history);
      TableParts(ngramCounts, ngramTotal, ngramDropped, formed, history, config);
      ghost var was := formed;
      var ring := AccountNgramInto(globalRing, id);
      GlobalForms(globalRing, history, id, ngramCounts, ngramTotal, ngramDropped, was, formed, config);
      GlobalAdvances(globalRing, ring, traceRings, traceRingFifo, config.maxActiveTraces, history, id);
      globalRing := ring;
      history := history + [Observation(Some(Global), id)];
    }

    /** A record of a trace forms its n-gram in that trace's own ring. */
    method FormTraceNgram(t: TraceId, id: InternalId)
      requires RingsValid(globalRing, traceRings, traceRingFifo, config.maxActiveTraces, history)
      requires TableValid(ngramCounts, ngramTotal, ngramDropped, formed, history, config)
          && (config.ngramSize == 2 || config.ngramSize == 3)
      modifies this`traceRings, this`traceRingFifo, this`ngramCounts, this`ngramTotal,
               this`ngramDropped, this`formed, this`history
      ensures RingsValid(globalRing, traceRings, traceRingFifo, config.maxActiveTraces, history)
      ensures TableValid(ngramCounts, ngramTotal, ngramDropped, formed, history, config)
      ensures history == old(history) + [Observation(Some(Trace(t)), id)]
      ensures formed == old(formed) + RingKey(if t in old(traceRings) then old(traceRings)[t] else EMPTY_RING, id,
                                              config.ngramSize)
    {
      hide *;
      RingsParts(globalRing, traceRings, traceRingFifo, config.maxActiveTraces, history);
      TableParts(ngramCounts, ngramTotal, ngramDropped, formed, history, config);
      ghost var rings, fifo := traceRings, traceRingFifo;
      TraceRingFor(t);
      TraceOpens(globalRing, rings, fifo, traceRings, traceRingFifo, config.maxActiveTraces, history, t);
      OpenedRing(rings, fifo, config.maxActiveTraces, t);
      ghost var live, was := traceRings, formed;
      var ring := AccountNgramInto(traceRings[t], id);
      Requeued(traceRings, traceRingFifo, config.maxActiveTraces, t, ring);
      TraceForms(globalRing, live, traceRingFifo, history, t, id, ngramCounts, ngramTotal, ngramDropped, was, formed,
                 config);
      TraceAdvances(globalRing, live, traceRingFifo, config.maxActiveTraces, history, t, id, ring);
      traceRings := traceRings[t := ring];
      history := history + [Observation(Some(Trace(t)), id)];
    }

    /** A record that is no span forms its n-gram in its own trace's ring when traces are scoped, in the global one
        otherwise. */
    method FormNgram(e: Event, id: InternalId)
      requires RingsValid(globalRing, traceRings, traceRingFifo, config.maxActiveTraces, history)
          && !e.trace.isSpan
      requires TableValid(ngramCounts, ngramTotal, ngramDropped, formed, history, config)
          && (config.ngramSize == 2 || config.ngramSize == 3)
      modifies this`globalRing, this`traceRings, this`traceRingFifo, this`ngramCounts, this`ngramTotal,
               this`ngramDropped, this`formed, this`history
      ensures RingsValid(globalRing, traceRings, traceRingFifo, config.maxActiveTraces, history)
      ensures TableValid(ngramCounts, ngramTotal, ngramDropped, formed, history, config)
      ensures history == old(history) + [Observation(StreamFor(e, config.scoping), id)]
      ensures formed == old(formed) + RingKey(RingOf(e, config.scoping, old(globalRing), old(traceRings)), id,
                                              config.ngramSize)
    {
      hide *;
      Routes(e, config.scoping, globalRing, traceRings);
      if config.scoping && e.trace.present {
        FormTraceNgram(e.trace.traceId, id);
      } else {
        FormGlobalNgram(id);
      }
    }

    /** A span record is observed in no stream: its causality is declared, not read off the log order. */
    method ObserveSpan(e: Event, id: InternalId)
      requires RingsValid(globalRing, traceRings, traceRingFifo, config.maxActiveTraces, history)
      requires TableValid(ngramCounts, ngramTotal, ngramDropped, formed, history, config)
      requires QueueValid(spanTemplates, spanFifo, config.maxActiveSpans)
      modifies this`spanRecords, this`spanTemplates, this`spanFifo, this`pendingSpanEdges, this`history
      ensures RingsValid(globalRing, traceRings, traceRingFifo, config.maxActiveTraces, history)
      ensures TableValid(ngramCounts, ngramTotal, ngramDropped, formed, history, config)
      ensures QueueValid(spanTemplates, spanFifo, config.maxActiveSpans)
          && history == old(history) + [Observation(None, id)]
      ensures (spanTemplates, spanFifo)
           == Enqueued(old(spanTemplates), old(spanFifo), config.maxActiveSpans, e.trace.spanId,
                       SpanNode(id, e.component))
      ensures pendingSpanEdges == old(pendingSpanEdges) + PendingOf(e, id)
    {
      hide *;
      SpanObserved(globalRing, traceRings, traceRingFifo, ngramCounts, ngramTotal, ngramDropped, formed, history,
                   id, config);
      RecordSpan(e, id);
      history := history + [Observation(None, id)];
    }

    /** A record is observed once: a span by the span table, any other by the ring of its stream. */
    method ObserveRecord(e: Event, id: InternalId)
      requires RingsValid(globalRing, traceRings, traceRingFifo, config.maxActiveTraces, history)
      requires TableValid(ngramCounts, ngramTotal, ngramDropped, formed, history, config)
          && (config.ngramSize == 2 || config.ngramSize == 3)
      requires QueueValid(spanTemplates, spanFifo, config.maxActiveSpans)
      modifies this`globalRing, this`traceRings, this`traceRingFifo, this`ngramCounts, this`ngramTotal,
               this`ngramDropped, this`formed, this`history, this`spanRecords, this`spanTemplates, this`spanFifo,
               this`pendingSpanEdges
      ensures RingsValid(globalRing, traceRings, traceRingFifo, config.maxActiveTraces, history)
      ensures TableValid(ngramCounts, ngramTotal, ngramDropped, formed, history, config)
      ensures QueueValid(spanTemplates, spanFifo, config.maxActiveSpans)
      ensures history == old(history) + [Observation(StreamFor(e, config.scoping), id)]
      ensures Routed(e, id, config, RingOf(e, config.scoping, old(globalRing), old(traceRings)), old(formed), formed,
                     old(spanTemplates), old(spanFifo), spanTemplates, spanFifo, old(pendingSpanEdges),
                     pendingSpanEdges)
    {
      hide *;
      Routes(e, config.scoping, globalRing, traceRings);
      ghost var ring, keys := RingOf(e, config.scoping, globalRing, traceRings), formed;
      ghost var spans, fifo, pending := spanTemplates, spanFifo, pendingSpanEdges;
      if e.trace.isSpan {
        ObserveSpan(e, id);
      } else {
        FormNgram(e, id);
      }
      IsRouted(e, id, config, ring, keys, formed, spans, fifo, spanTemplates, spanFifo, pending, pendingSpanEdges);
    }

    /** One admitted line: counted in its bucket and joint, then observed. */
    method IngestLookedUpEvent(e: Event, id: InternalId)
      requires Valid() && id < |templates| && templates[id] == identify(e.template)
      modifies this`lines, this`buckets, this`cubeBase, this`events, this`history, this`globalRing, this`traceRings,
               this`traceRingFifo, this`ngramCounts, this`ngramTotal, this`ngramDropped, this`formed,
               this`spanRecords, this`spanTemplates, this`spanFifo, this`pendingSpanEdges
      ensures Valid() && events == old(events) + [e]
      ensures Routed(e, id, config, RingOf(e, config.scoping, old(globalRing), old(traceRings)), old(formed), formed,
                     old(spanTemplates), old(spanFifo), spanTemplates, spanFifo, old(pendingSpanEdges),
                     pendingSpanEdges)
    {
      hide *;
      ValidParts();
      Observes(history, events, templates, templates, identify, config.scoping, e, id);
      CountLine(e);
      ObserveRecord(e, id);
      PartsValid();
    }

    /** A line is refused as a whole or accepted as a whole: a refusal, or an ingest outside a window,
        leaves the engine as it was. */
    method IngestEvent(e: Event, admit: Text -> bool) returns (outcome: Ingested)
      requires Valid()
      modifies this
      ensures Valid() && open == old(open)
      ensures outcome == NotOpen <==> !old(open)
      ensures outcome == Refused <==>
                old(open) && identify(e.template) !in old(templateIndex) && identify(e.template) !in old(registry)
                    && !admit(e.template)
      ensures outcome != Accepted ==> unchanged(this)
      ensures outcome == Accepted ==> events == old(events) + [e]
    {
      hide *;
      if !open {
        return NotOpen;
      }
      var lookup := ContentTemplateIdFor(e.template, admit);
      if lookup.None? {
        return Refused;
      }
      IngestLookedUpEvent(e, lookup.value);
      return Accepted;
    }

    // -------------------------------------------------------------- close

    /** Closing resolves the declared edges, freezes the window into its document and resets everything of
        it. The document is a function of what was ingested and accounts for every line of it: as top_k,
        reservoir and tail, and at the all-star cell of its cube. */
    method CloseWindow() returns (closing: Closing, ghost w: Window, ghost graph: Graph)
      requires Valid() && |cubeBase| <= STAR
      modifies this
      ensures Valid() && !open
      ensures closing == NeverOpened <==> !old(open)
      ensures closing == NeverOpened ==> unchanged(this)
      ensures closing.Closed? ==> Empty() && registry == old(registry) && closing.ngramsDropped == old(ngramDropped)
      ensures closing.Closed? ==> Accounted(closing.document, old(lines), old(buckets))
      ensures closing.Closed? ==> closing.document.lines == |old(events)|
      ensures closing.Closed? ==> IsDocument(closing.document, w, graph, old(lines), old(buckets), old(cubeBase),
                                             old(ngramCounts), old(ngramTotal), old(ngramDropped),
                                             old(templateIndex), old(templates), config)
      ensures closing.Closed? ==> EdgesResolved(closing, old(pendingSpanEdges), old(spanTemplates),
                                                config.maxSpanEdgeKeys)
    {
      hide *;
      w, graph := Window(0, map[], map[], map[], config.document.closing), map[];
      if !open {
        return NeverOpened, w, graph;
      }
      ValidParts();
      ClosingReady(lines, buckets, cubeBase, events, identify, ngramCounts, ngramTotal, ngramDropped, formed, history,
                   config, templateCache, templateIndex, templates, registry);
      ResolveSpanEdges();
      var document;
      document, w, graph := CloseDocument(lines, buckets, cubeBase, ngramCounts, ngramTotal, ngramDropped,
                                          templateIndex, templates, config.ngramSize, config.document);
      DocumentIs(document, w, graph, lines, buckets, cubeBase, ngramCounts, ngramTotal, ngramDropped, templateIndex,
                 templates, config);
      closing := Closed(document, spanEdgeCounts, spanEdgesDropped, orphanParentEdges, ngramDropped);
      EdgesAre(closing, pendingSpanEdges, spanTemplates, config.maxSpanEdgeKeys);
      ResetWindowState();
    }

    // -------------------------------------------------------------- what every run keeps

    /** Every line ingested is counted once in a bucket and once in the cube base. */
    lemma EveryLineCounted()
      requires Valid()
      ensures lines == |events| == SetSum(buckets.Keys, BucketCount(buckets))
          == SetSum(cubeBase.Keys, CountOf(cubeBase))
    {
      LinesConserved(lines, buckets, cubeBase, events, identify);
    }

    /** The n-gram table holds exactly the first keys formed with their exact counts, and counts every other. */
    lemma NgramTableExact(key: NGramKey)
      requires Valid()
      ensures var first := Distinct(formed)[..Min(config.maxNgramKeys, |Distinct(formed)|)];
              && (key in ngramCounts <==> key in first)
              && (key in ngramCounts ==> ngramCounts[key] == Occurrences(formed, key))
              && ngramDropped == Outside(formed, Elements(first)) && ngramTotal + ngramDropped == |formed|
      ensures SetSum(ngramCounts.Keys, CountOf(ngramCounts)) == ngramTotal
    {
      RetainedAreFirst(formed, config.maxNgramKeys);
      TotalIsKept(ngramCounts, ngramTotal, ngramDropped, formed, config.maxNgramKeys);
    }

    /** What was formed is exactly, stream by stream, the consecutive windows within each stay: every time the bound
        evicted a trace its records fall apart there, and nowhere else. */
    lemma NgramsAreStayWindows(streams: seq<Stream>)
      requires Valid() && NoDuplicates(streams) && Opened(history) <= Elements(streams)
      ensures multiset(formed) == KeptTogether(history, config.maxActiveTraces, streams, config.ngramSize)
    {
      FormedIsKept(history, config.maxActiveTraces, streams, config.ngramSize);
    }

    /** While the traces of a window fit the bound, what was formed is exactly, stream by stream, the
        consecutive windows of each stream's own records. */
    lemma NgramsAreStreamWindows(streams: seq<Stream>)
      requires Valid() && (config.maxActiveTraces == 0 || |TracesOf(history)| <= config.maxActiveTraces)
      requires NoDuplicates(streams) && Opened(history) <= Elements(streams)
      ensures multiset(formed) == FormedTogether(history, streams, config.ngramSize)
    {
      NgramsAreStayWindows(streams);
      FittingKeepsAll(history, config.maxActiveTraces, streams, config.ngramSize);
    }

    /** Two records share an internal id exactly when they share a content id. */
    lemma InternalIdsStandForContent(i: nat, j: nat)
      requires Valid() && i < |history| && j < |history|
      ensures history[i].id == history[j].id <==> identify(events[i].template) == identify(events[j].template)
    {
      hide RingsValid, CountingValid, Refines, QueueValid;
    }
  }

  /** The table refines what was formed, and what was formed is what the stays of the history form. */
  ghost predicate TableValid(counts: map<NGramKey, nat>, total: nat, dropped: nat, formed: seq<NGramKey>,
                             history: History, config: Config) {
    && Refines(counts, total, dropped, formed, config.maxNgramKeys)
    && (config.ngramSize > 0 ==> formed == Formed(Resident(history, config.maxActiveTraces), config.ngramSize))
  }

  /** The ring the next record of an event's stream reads. */
  function RingOf(e: Event, scoping: bool, globalRing: Ring, rings: map<TraceId, Ring>): Ring {
    if scoping && e.trace.present then if e.trace.traceId in rings then rings[e.trace.traceId] else EMPTY_RING
        else globalRing
  }

  function Interned(registry: map<TemplateId, Text>, id: TemplateId, text: Text): (r: map<TemplateId, Text>)
    ensures registry.Keys <= r.Keys && id in r
  {
    if id in registry then registry else registry[id := text]
  }

  lemma CountedBucketIs(buckets: map<TemplateId, Bucket>, lines: nat, id: TemplateId, e: Event)
    ensures CountedBucket(buckets, lines, id, e)
        == CountedLine(if id in buckets then buckets[id] else NewBucket(lines), e)
  {}

  lemma Routes(e: Event, scoping: bool, globalRing: Ring, rings: map<TraceId, Ring>)
    ensures StreamFor(e, scoping) == if e.trace.isSpan then None
        else if scoping && e.trace.present then Some(Trace(e.trace.traceId)) else Some(Global)
    ensures RingOf(e, scoping, globalRing, rings)
         == if scoping && e.trace.present then if e.trace.traceId in rings then rings[e.trace.traceId] else EMPTY_RING
             else globalRing
  {}

  lemma NothingIngested(config: Config, identify: Identify, registry: map<TemplateId, Text>)
    ensures IdentityValid(map[], map[], [], registry, identify)
    ensures CountingValid(0, map[], map[], [], identify)
    ensures HistoryValid([], [], [], identify, config.scoping)
    ensures RingsValid(EMPTY_RING, map[], [], config.maxActiveTraces, [])
    ensures TableValid(map[], 0, 0, [], [], config)
    ensures QueueValid<SpanId, SpanNode>(map[], [], config.maxActiveSpans)
  {
    NothingOffered<NGramKey>(config.maxNgramKeys);
    hide Refines;
  }

  /** What one record does beyond being counted: a span enters the span table and leaves its parent pending,
      any other record forms what the ring of its stream completes. */
  ghost predicate Routed(e: Event, id: InternalId, config: Config, ring: Ring, keys: seq<NGramKey>,
                         keys': seq<NGramKey>, spans: map<SpanId, SpanNode>, fifo: seq<SpanId>,
                         spans': map<SpanId, SpanNode>, fifo': seq<SpanId>,
                         pending: seq<PendingEdge>, pending': seq<PendingEdge>) {
    var node := SpanNode(id, e.component);
    if e.trace.isSpan then
      && keys' == keys && pending' == pending + PendingOf(e, id)
      && (spans', fifo') == Enqueued(spans, fifo, config.maxActiveSpans, e.trace.spanId, node)
    else
      keys' == keys + RingKey(ring, id, config.ngramSize) && spans' == spans && fifo' == fifo && pending' == pending
  }

  lemma IsRouted(e: Event, id: InternalId, config: Config, ring: Ring, keys: seq<NGramKey>, keys': seq<NGramKey>,
                 spans: map<SpanId, SpanNode>, fifo: seq<SpanId>, spans': map<SpanId, SpanNode>, fifo': seq<SpanId>,
                 pending: seq<PendingEdge>, pending': seq<PendingEdge>)
    requires e.trace.isSpan ==> keys' == keys && pending' == pending + PendingOf(e, id)
    requires e.trace.isSpan ==>
               (spans', fifo') == Enqueued(spans, fifo, config.maxActiveSpans, e.trace.spanId,
                                           SpanNode(id, e.component))
    requires !e.trace.isSpan ==>
               keys' == keys + RingKey(ring, id, config.ngramSize) && spans' == spans && fifo' == fifo
                   && pending' == pending
    ensures Routed(e, id, config, ring, keys, keys', spans, fifo, spans', fifo', pending, pending')
  {
    hide Enqueued, PendingOf, RingKey;
  }

  /** Every line is in one of the three parts, and under the cube's all-star cell. */
  ghost predicate Accounted(doc: ClosedWindow, lines: nat, buckets: map<TemplateId, Bucket>) {
    && doc.lines == lines && Mass(doc.stats) == lines && BlockInRange(doc.cube) && ApexCount(doc.cube) == lines
    && TopKIds(doc.stats) !! ReservoirIds(doc.stats)
    && doc.stats.uniqueTemplates == |doc.stats.topK| + |doc.stats.reservoir| + doc.stats.tailUnique == |buckets|
  }

  /** The document of a window's counted state. */
  ghost predicate IsDocument(doc: ClosedWindow, w: Window, graph: Graph, lines: nat, buckets: map<TemplateId, Bucket>,
                             base: map<Joint, nat>, counts: map<NGramKey, nat>, total: nat, dropped: nat,
                             index: map<TemplateId, InternalId>, templates: seq<TemplateId>, config: Config) {
    && GraphFor(graph, counts, total, config.document)
    && FrozenAs(w, lines, buckets, graph, total, index, config.document)
    && doc.lines == lines && doc.stats == ClosedStats(w) && CubeFor(doc.cube, base, config.document)
    && doc.behavior == BehaviorFor(counts, total, dropped, templates, config.ngramSize, config.document.topNgrams)
    && PathFor(doc.path, graph, buckets, templates, total, config.document)
  }

  /** One counted state has one document: no hash order of any table reaches it. */
  lemma DocumentUnique(doc: ClosedWindow, w: Window, graph: Graph, doc': ClosedWindow, w': Window, graph': Graph,
                       lines: nat, buckets: map<TemplateId, Bucket>, base: map<Joint, nat>,
                       counts: map<NGramKey, nat>, total: nat, dropped: nat, index: map<TemplateId, InternalId>,
                       templates: seq<TemplateId>, config: Config)
    requires IsDocument(doc, w, graph, lines, buckets, base, counts, total, dropped, index, templates, config)
    requires IsDocument(doc', w', graph', lines, buckets, base, counts, total, dropped, index, templates, config)
    requires forall k :: k in counts ==> counts[k] > 0
    ensures doc == doc'
  {
    hide GraphIs, FrozenAs, PathFor, CubeFor, ClosedStats, NeedsGraph, BehaviorFor;
    if NeedsGraph(total, config.document) { GraphUnique(graph, graph', counts); }
    GraphForPositive(graph, counts, total, config.document);
    FrozenUnique(w, w', lines, buckets, graph, total, index, config.document);
    PathUnique(doc.path, doc'.path, graph, buckets, templates, total, config.document);
    CubeUnique(doc.cube, doc'.cube, base, config.document);
  }

  lemma DocumentIs(doc: ClosedWindow, w: Window, graph: Graph, lines: nat, buckets: map<TemplateId, Bucket>,
                   base: map<Joint, nat>, counts: map<NGramKey, nat>, total: nat, dropped: nat,
                   index: map<TemplateId, InternalId>, templates: seq<TemplateId>, config: Config)
    requires GraphFor(graph, counts, total, config.document)
    requires FrozenAs(w, lines, buckets, graph, total, index, config.document)
    requires doc.lines == lines && doc.stats == ClosedStats(w) && CubeFor(doc.cube, base, config.document)
    requires doc.behavior
        == BehaviorFor(counts, total, dropped, templates, config.ngramSize, config.document.topNgrams)
    requires PathFor(doc.path, graph, buckets, templates, total, config.document)
    requires Mass(doc.stats) == lines && BlockInRange(doc.cube) && ApexCount(doc.cube) == lines
        && TopKIds(doc.stats) !! ReservoirIds(doc.stats)
    requires doc.stats.uniqueTemplates == |doc.stats.topK| + |doc.stats.reservoir| + doc.stats.tailUnique == |buckets|
    ensures IsDocument(doc, w, graph, lines, buckets, base, counts, total, dropped, index, templates, config)
        && Accounted(doc, lines, buckets)
  {
    hide GraphFor, FrozenAs, ClosedStats, PathFor, CubeFor, BehaviorFor, Mass, BlockInRange, ApexCount, TopKIds,
        ReservoirIds;
  }

  /** Every declared edge found its parent or is an orphan; the found ones went through their own bounded table. */
  ghost predicate EdgesResolved(closing: Closing, pending: seq<PendingEdge>, spans: map<SpanId, SpanNode>, cap: nat)
    requires closing.Closed?
  {
    && closing.orphans + |Resolved(pending, spans)| == |pending|
    && exists total: nat :: Refines(closing.spanEdges, total, closing.spanEdgesDropped, Resolved(pending, spans), cap)
  }

  lemma EdgesAre(closing: Closing, pending: seq<PendingEdge>, spans: map<SpanId, SpanNode>, cap: nat)
    requires closing.Closed? && closing.orphans + |Resolved(pending, spans)| == |pending|
    requires exists total: nat :: Refines(closing.spanEdges, total, closing.spanEdgesDropped,
                                          Resolved(pending, spans), cap)
    ensures EdgesResolved(closing, pending, spans, cap)
  {
    hide Refines;
  }

  /** Every n-gram counted is made of ids that stand for a content. */
  lemma KnownIds(counts: map<NGramKey, nat>, total: nat, dropped: nat, formed: seq<NGramKey>, history: History,
                 config: Config, events: seq<Event>, cache: map<Text, InternalId>, index: map<TemplateId, InternalId>,
                 templates: seq<TemplateId>, registry: map<TemplateId, Text>, identify: Identify)
    requires TableValid(counts, total, dropped, formed, history, config) && config.ngramSize > 0
    requires HistoryValid(history, events, templates, identify, config.scoping)
    requires IdentityValid(cache, index, templates, registry, identify)
    ensures Nameable(counts, templates)
  {
    TableParts(counts, total, dropped, formed, history, config);
    hide Formed, Resident;
    assert IdsBelow(history, |templates|);
    ResidentIds(history, config.maxActiveTraces, |templates|);
    FormedIds(Resident(history, config.maxActiveTraces), config.ngramSize, |templates|);
    CountedWereOffered(counts, total, dropped, formed, config.maxNgramKeys);
  }

  lemma CountedWereOffered<K>(counts: map<K, nat>, total: nat, dropped: nat, offered: seq<K>, cap: nat)
    requires Refines(counts, total, dropped, offered, cap)
    ensures forall k :: k in counts ==> k in offered
  {
    RetainedAreFirst(offered, cap);
    DistinctIs(offered);
    forall k | k in counts ensures k in offered {
      assert k in Elements(Retained(offered, cap));
      assert k in Distinct(offered) && k in Elements(Distinct(offered));
    }
  }

  lemma LinesAreEvents(lines: nat, buckets: map<TemplateId, Bucket>, base: map<Joint, nat>, events: seq<Event>,
                       identify: Identify)
    requires CountingValid(lines, buckets, base, events, identify)
    ensures lines == |events|
  {
    hide BucketIs, Tallied, Contents;
  }

  lemma RolesAreCounted(lines: nat, buckets: map<TemplateId, Bucket>, base: map<Joint, nat>, events: seq<Event>,
                        identify: Identify)
    requires CountingValid(lines, buckets, base, events, identify)
    ensures RolesCounted(buckets) && forall id :: id in buckets ==> buckets[id].count > 0
  {
    hide Tallied, FirstIndex;
    forall id | id in buckets ensures buckets[id].count > 0
        && forall k :: k in buckets[id].roles ==> buckets[id].roles[k] > 0 {
      OwnCount(events, identify, id);
      assert id in Elements(Contents(events, identify));
      TalliedPositive(buckets[id].roles, RolesOf(Own(events, identify, id)));
    }
  }

  lemma TalliedPositive<K>(counts: map<K, nat>, s: seq<K>)
    requires Tallied(counts, s)
    ensures forall k :: k in counts ==> counts[k] > 0
  {
    forall k | k in counts ensures counts[k] > 0 { assert k in Elements(s); }
  }

  lemma RefinedPositive<K>(counts: map<K, nat>, total: nat, dropped: nat, offered: seq<K>, cap: nat)
    requires Refines(counts, total, dropped, offered, cap)
    ensures forall k :: k in counts ==> counts[k] > 0
  {
    CountedWereOffered(counts, total, dropped, offered, cap);
  }

  lemma IndexInRange(cache: map<Text, InternalId>, index: map<TemplateId, InternalId>, templates: seq<TemplateId>,
                     registry: map<TemplateId, Text>, identify: Identify)
    requires IdentityValid(cache, index, templates, registry, identify)
    ensures forall id :: id in index ==> index[id] < |templates|
  {
    forall id | id in index ensures index[id] < |templates| {
      assert id in Elements(templates);
      var i :| 0 <= i < |templates| && templates[i] == id;
    }
  }

  lemma ClosingReady(lines: nat, buckets: map<TemplateId, Bucket>, base: map<Joint, nat>, events: seq<Event>,
                     identify: Identify,
                     counts: map<NGramKey, nat>, total: nat, dropped: nat, formed: seq<NGramKey>,
                         history: History, config: Config,
                     cache: map<Text, InternalId>, index: map<TemplateId, InternalId>, templates: seq<TemplateId>,
                         registry: map<TemplateId, Text>)
    requires CountingValid(lines, buckets, base, events, identify)
        && TableValid(counts, total, dropped, formed, history, config)
    requires IdentityValid(cache, index, templates, registry, identify)
        && HistoryValid(history, events, templates, identify, config.scoping) && config.ngramSize > 0
    ensures Nameable(counts, templates)
    ensures RolesCounted(buckets) && (forall id :: id in buckets ==> buckets[id].count > 0)
        && (forall k :: k in counts ==> counts[k] > 0)
    ensures forall id :: id in index ==> index[id] < |templates|
    ensures SetSum(buckets.Keys, BucketCount(buckets)) == lines == SetSum(base.Keys, CountOf(base))
    ensures lines == |events|
  {
    hide *;
    KnownIds(counts, total, dropped, formed, history, config, events, cache, index, templates, registry, identify);
    LinesAreEvents(lines, buckets, base, events, identify);
    RolesAreCounted(lines, buckets, base, events, identify);
    LinesConserved(lines, buckets, base, events, identify);
    TableParts(counts, total, dropped, formed, history, config);
    RefinedPositive(counts, total, dropped, formed, config.maxNgramKeys);
    IndexInRange(cache, index, templates, registry, identify);
  }

  lemma TableSize<K>(counts: map<K, nat>, total: nat, dropped: nat, offered: seq<K>, cap: nat)
    requires Refines(counts, total, dropped, offered, cap)
    ensures |counts| <= cap
  {}

  lemma QueueFacts<K, V>(table: map<K, V>, fifo: seq<K>, bound: nat)
    requires QueueValid(table, fifo, bound)
    ensures |table| == |fifo| && (bound > 0 ==> |fifo| <= bound)
  {
    QueueSize(table, fifo);
  }

  /** A table and its queue after a key is looked up: a known key moves nothing, a new one at the bound
      evicts the oldest. */
  function Enqueued<K, V>(table: map<K, V>, fifo: seq<K>, bound: nat, key: K, value: V): (map<K, V>, seq<K>) {
    if key in table then (table, fifo)
    else if bound > 0 && |table| >= bound && fifo != [] then ((table - {fifo[0]})[key := value], fifo[1..] + [key])
    else (table[key := value], fifo + [key])
  }

  /** Looking a key up keeps the table and its queue in step, duplicate-free and within the bound. */
  lemma EnqueuedValid<K, V>(table: map<K, V>, fifo: seq<K>, bound: nat, key: K, value: V)
    requires QueueValid(table, fifo, bound)
    ensures var after := Enqueued(table, fifo, bound, key, value);
            QueueValid(after.0, after.1, bound) && key in after.0
  {
    hide QueueValid;
    if key !in table {
      QueueFacts(table, fifo, bound);
      if bound > 0 && |table| >= bound && fifo != [] {
        Evicted(table, fifo, bound);
        QueueFacts(table - {fifo[0]}, fifo[1..], bound);
        Queued(table - {fifo[0]}, fifo[1..], bound, key, value);
      } else {
        Queued(table, fifo, bound, key, value);
      }
    }
  }

  lemma OldestIsLive<K, V>(table: map<K, V>, fifo: seq<K>, bound: nat)
    requires QueueValid(table, fifo, bound) && fifo != []
    ensures fifo[0] in table
  {
    assert fifo[0] in Elements(fifo);
  }

  function PendingOf(e: Event, id: InternalId): seq<PendingEdge> {
    if e.trace.parent.Some? then [PendingEdge(id, e.trace.parent.value)] else []
  }

  function Resolved(pending: seq<PendingEdge>, spans: map<SpanId, SpanNode>): seq<(InternalId, InternalId)> {
    if pending == [] then []
    else
      var front, edge := Resolved(pending[..|pending| - 1], spans), pending[|pending| - 1];
      if edge.parent in spans then front + [(spans[edge.parent].template, edge.child)] else front
  }

  lemma RingsParts(globalRing: Ring, rings: map<TraceId, Ring>, fifo: seq<TraceId>, bound: nat, history: History)
    requires RingsValid(globalRing, rings, fifo, bound, history)
    ensures QueueValid(rings, fifo, bound) && Holds(globalRing, Present(history, bound, Global))
  {
    hide QueueValid, Holds, Present;
  }

  lemma TableParts(counts: map<NGramKey, nat>, total: nat, dropped: nat, formed: seq<NGramKey>, history: History,
                   config: Config)
    requires TableValid(counts, total, dropped, formed, history, config)
    ensures Refines(counts, total, dropped, formed, config.maxNgramKeys)
    ensures config.ngramSize > 0 ==> formed == Formed(Resident(history, config.maxActiveTraces), config.ngramSize)
  {
    hide Refines, Formed, Resident;
  }

  /** A ring that holds what its stream goes on from forms what the history forms. */
  lemma RingForms(ring: Ring, history: History, s: Stream, id: InternalId, counts: map<NGramKey, nat>, total: nat,
                  dropped: nat, before: seq<NGramKey>, after: seq<NGramKey>, config: Config)
    requires config.ngramSize == 2 || config.ngramSize == 3
    requires Holds(ring, Resumed(history, config.maxActiveTraces, s))
    requires before == Formed(Resident(history, config.maxActiveTraces), config.ngramSize)
    requires after == before + RingKey(ring, id, config.ngramSize)
    requires Refines(counts, total, dropped, after, config.maxNgramKeys)
    ensures TableValid(counts, total, dropped, after, history + [Observation(Some(s), id)], config)
  {
    hide Refines, Holds, Resident, Formed, RingKey, Completed, Resumed;
    ResidentForms(history, Observation(Some(s), id), config.maxActiveTraces, config.ngramSize);
    RingFollows(ring, Resumed(history, config.maxActiveTraces, s), id, config.ngramSize);
  }

  lemma GlobalForms(ring: Ring, history: History, id: InternalId, counts: map<NGramKey, nat>, total: nat,
                    dropped: nat, before: seq<NGramKey>, after: seq<NGramKey>, config: Config)
    requires (config.ngramSize == 2 || config.ngramSize == 3)
        && Holds(ring, Present(history, config.maxActiveTraces, Global))
    requires before == Formed(Resident(history, config.maxActiveTraces), config.ngramSize)
    requires after == before + RingKey(ring, id, config.ngramSize)
    requires Refines(counts, total, dropped, after, config.maxNgramKeys)
    ensures TableValid(counts, total, dropped, after, history + [Observation(Some(Global), id)], config)
  {
    hide Refines, Holds, Resident, Formed, RingKey, Present, TableValid;
    RingForms(ring, history, Global, id, counts, total, dropped, before, after, config);
  }

  lemma GlobalAdvances(was: Ring, ring: Ring, rings: map<TraceId, Ring>, fifo: seq<TraceId>, bound: nat,
                       history: History, id: InternalId)
    requires RingsValid(was, rings, fifo, bound, history) && ring == Pushed(was, id)
    ensures RingsValid(ring, rings, fifo, bound, history + [Observation(Some(Global), id)])
  {
    var o := Observation(Some(Global), id);
    HistorySnoc(history, o, bound);
    RingHoldsOn(was, Present(history, bound, Global), id);
    hide Holds, QueueValid, Present, Live, Pushed;
    forall s ensures Present(history + [o], bound, s)
        == if s == Global then Present(history, bound, s) + [id] else Present(history, bound, s)
        { PresentSnoc(history, o, bound, s); }
  }

  lemma SpanObserved(globalRing: Ring, rings: map<TraceId, Ring>, fifo: seq<TraceId>, counts: map<NGramKey, nat>,
                     total: nat, dropped: nat, formed: seq<NGramKey>, history: History, id: InternalId, config: Config)
    requires RingsValid(globalRing, rings, fifo, config.maxActiveTraces, history)
    requires TableValid(counts, total, dropped, formed, history, config)
    ensures RingsValid(globalRing, rings, fifo, config.maxActiveTraces, history + [Observation(None, id)])
    ensures TableValid(counts, total, dropped, formed, history + [Observation(None, id)], config)
  {
    var o, bound := Observation(None, id), config.maxActiveTraces;
    HistorySnoc(history, o, bound);
    hide Holds, QueueValid, Present, Live, Refines, Formed, Resident;
    if config.ngramSize > 0 { ResidentForms(history, o, bound, config.ngramSize); }
    forall s ensures Present(history + [o], bound, s) == Present(history, bound, s)
        { PresentSnoc(history, o, bound, s); }
  }

  /** Rings between looking a trace up and recording its record: the trace has one, which holds what it resumes. */
  ghost predicate TraceOpen(globalRing: Ring, rings: map<TraceId, Ring>, fifo: seq<TraceId>, bound: nat,
                            history: History, t: TraceId) {
    && QueueValid(rings, fifo, bound) && fifo == LiveWith(Live(history, bound), bound, t) && t in rings
    && Holds(globalRing, Present(history, bound, Global)) && Holds(rings[t], Resumed(history, bound, Trace(t)))
    && forall u :: u in rings && u != t ==> Holds(rings[u], Present(history, bound, Trace(u)))
  }

  lemma EnqueuedIsAdmitted<V>(table: map<TraceId, V>, fifo: seq<TraceId>, bound: nat, t: TraceId, value: V)
    requires QueueValid(table, fifo, bound)
    ensures (t in table <==> t in fifo) && Enqueued(table, fifo, bound, t, value).1 == LiveWith(fifo, bound, t)
  {
    QueueFacts(table, fifo, bound);
    assert t in fifo <==> t in Elements(fifo);
  }

  lemma TraceOpens(globalRing: Ring, rings: map<TraceId, Ring>, fifo: seq<TraceId>, rings': map<TraceId, Ring>,
                   fifo': seq<TraceId>, bound: nat, history: History, t: TraceId)
    requires RingsValid(globalRing, rings, fifo, bound, history) && QueueValid(rings', fifo', bound) && t in rings'
    requires (rings', fifo') == Enqueued(rings, fifo, bound, t, EMPTY_RING)
    ensures TraceOpen(globalRing, rings', fifo', bound, history, t)
  {
    hide QueueValid, Holds, Present, Live, LiveWith;
    EnqueuedIsAdmitted(rings, fifo, bound, t, EMPTY_RING);
    EmptyHolds();
  }

  lemma EmptyHolds()
    ensures Holds(EMPTY_RING, [])
  {}

  lemma OpenedRing(rings: map<TraceId, Ring>, fifo: seq<TraceId>, bound: nat, t: TraceId)
    ensures var live := Enqueued(rings, fifo, bound, t, EMPTY_RING).0;
            t in live && live[t] == if t in rings then rings[t] else EMPTY_RING
  {}

  lemma TraceForms(globalRing: Ring, rings: map<TraceId, Ring>, fifo: seq<TraceId>, history: History, t: TraceId,
                   id: InternalId, counts: map<NGramKey, nat>, total: nat, dropped: nat, before: seq<NGramKey>,
                   after: seq<NGramKey>, config: Config)
    requires TraceOpen(globalRing, rings, fifo, config.maxActiveTraces, history, t)
        && (config.ngramSize == 2 || config.ngramSize == 3)
    requires before == Formed(Resident(history, config.maxActiveTraces), config.ngramSize)
    requires after == before + RingKey(rings[t], id, config.ngramSize)
        && Refines(counts, total, dropped, after, config.maxNgramKeys)
    ensures TableValid(counts, total, dropped, after, history + [Observation(Some(Trace(t)), id)], config)
  {
    hide Refines, Holds, QueueValid, Resident, Formed, RingKey, Resumed, TableValid;
    RingForms(rings[t], history, Trace(t), id, counts, total, dropped, before, after, config);
  }

  lemma TraceAdvances(globalRing: Ring, rings: map<TraceId, Ring>, fifo: seq<TraceId>, bound: nat, history: History,
                      t: TraceId, id: InternalId, ring: Ring)
    requires TraceOpen(globalRing, rings, fifo, bound, history, t) && QueueValid(rings[t := ring], fifo, bound)
        && ring == Pushed(rings[t], id)
    ensures RingsValid(globalRing, rings[t := ring], fifo, bound, history + [Observation(Some(Trace(t)), id)])
  {
    var o := Observation(Some(Trace(t)), id);
    HistorySnoc(history, o, bound);
    RingHoldsOn(rings[t], Resumed(history, bound, Trace(t)), id);
    hide Holds, QueueValid, Present, Live, Pushed, Resumed;
    forall s ensures Present(history + [o], bound, s)
        == if s == Trace(t) then Resumed(history, bound, s) + [id] else Present(history, bound, s)
        { PresentSnoc(history, o, bound, s); }
  }

  lemma MoreTemplates(history: History, events: seq<Event>, before: seq<TemplateId>,
                      templates: seq<TemplateId>, identify: Identify, scoping: bool)
    requires HistoryValid(history, events, before, identify, scoping) && before <= templates
    ensures HistoryValid(history, events, templates, identify, scoping)
  {}

  lemma Observes(history: History, events: seq<Event>, before: seq<TemplateId>, templates: seq<TemplateId>,
                 identify: Identify,
                 scoping: bool, e: Event, id: InternalId)
    requires HistoryValid(history, events, before, identify, scoping) && before <= templates
    requires id < |templates| && templates[id] == identify(e.template)
    ensures HistoryValid(history + [Observation(StreamFor(e, scoping), id)], events + [e], templates, identify, scoping)
  {}
}
