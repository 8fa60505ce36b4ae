/** What the transition analysis of a window says: the weight of an edge, the surprise of a template, the step of the
    dominant path. */
module PathReading {
  import opened Orders
  import opened Sums
  import opened BoundedTable
  import opened Streams
  import opened RunningBest
  import opened SalienceScores
  import opened Transitions
  import opened DominantPath
  import opened Identifiers
  import opened WindowState
  import WindowClose
  import WindowDocument

  // ---------------------------------------------------------------- edges

  /** The n-grams that open with a template, and with two templates in turn. */
  ghost function OpeningWith(counts: map<NGramKey, nat>, from: InternalId): set<NGramKey> {
    set k | k in counts && |k| >= 2 && k[0] == from
  }

  ghost function OpeningWithBoth(counts: map<NGramKey, nat>, from: InternalId, to: InternalId): set<NGramKey> {
    set k | k in counts && |k| >= 2 && k[0] == from && k[1] == to
  }

  lemma OpeningsAre(counts: map<NGramKey, nat>, from: InternalId, to: InternalId)
    requires forall k :: k in counts ==> |k| >= 2
    ensures KeysFrom(counts.Keys, from) == OpeningWith(counts, from)
    ensures KeysBetween(counts.Keys, from, to) == OpeningWithBoth(counts, from, to)
  {}

  /** There is an edge between two templates exactly when some n-gram opens with them in turn; it weighs what those
      n-grams count together, and what leaves a template is what all that open with it count. */
  lemma EdgeWeighs(graph: Graph, counts: map<NGramKey, nat>, from: InternalId, to: InternalId)
    requires GraphIs(graph, counts, counts.Keys) && forall k :: k in counts ==> |k| >= 2
    ensures from in graph <==> OpeningWith(counts, from) != {}
    ensures from in graph && to in graph[from] <==> OpeningWithBoth(counts, from, to) != {}
    ensures from in graph && to in graph[from] ==>
              graph[from][to] == SetSum(OpeningWithBoth(counts, from, to), CountOf(counts))
    ensures from in graph ==> Total(graph[from]) == SetSum(OpeningWith(counts, from), CountOf(counts))
  {
    OpeningsAre(counts, from, to);
    if from in graph {
      OutgoingIs(graph, counts, counts.Keys, from);
      assert SuccessorsAre(graph[from], counts, counts.Keys, from);
    }
    EdgesThere(counts, from, to);
    hide SetSum, Total, KeysFrom, KeysBetween, Image;
  }

  lemma EdgesThere(counts: map<NGramKey, nat>, from: InternalId, to: InternalId)
    ensures from in Image(counts.Keys, Source) <==> KeysFrom(counts.Keys, from) != {}
    ensures to in Image(KeysFrom(counts.Keys, from), Target) <==> KeysBetween(counts.Keys, from, to) != {}
    ensures KeysBetween(counts.Keys, from, to) != {} ==> KeysFrom(counts.Keys, from) != {}
  {
    if from in Image(counts.Keys, Source) {
      var k :| k in counts && Source(k) == from;
      assert k in KeysFrom(counts.Keys, from);
    }
    if k :| k in KeysFrom(counts.Keys, from) { assert Source(k) == from; }
    if to in Image(KeysFrom(counts.Keys, from), Target) {
      var k :| k in KeysFrom(counts.Keys, from) && Target(k) == to;
      assert k in KeysBetween(counts.Keys, from, to);
    }
    if k :| k in KeysBetween(counts.Keys, from, to) {
      assert Target(k) == to && k in KeysFrom(counts.Keys, from);
    }
  }

  // ---------------------------------------------------------------- surprise

  function ShareOf(e: Edge): real { e.count as real / e.outgoing as real }

  lemma BeatsByShare(a: Edge, b: Edge)
    ensures EdgeBeats(a, b) <==> ShareOf(a) > ShareOf(b) || (ShareOf(a) == ShareOf(b) && a.count > b.count)
  {
    var p, q := ShareOf(a), ShareOf(b);
    var x, y := a.outgoing as real, b.outgoing as real;
    assert a.count as real == p * x && b.count as real == q * y;
    assert (a.count * b.outgoing) as real == p * (x * y) && (b.count * a.outgoing) as real == q * (x * y);
    if p > q { BelowTimes(q, p, x * y); }
    if p < q { BelowTimes(p, q, x * y); }
  }

  /** A template surprises by its likeliest way in: of the edges that lead to it, the one taken by the greatest part of
      what leaves its source, the more observed of equals; and not at all when no edge leads to it. */
  lemma LikeliestDecides(graph: Graph, to: InternalId, surprise: nat)
    requires SurpriseIs(graph, to, surprise)
    ensures exists best: Edge ::
              && surprise == SurpriseBand(best.count, best.outgoing)
              && (best == Ratio(0, 1) || best in EdgesInto(graph, graph.Keys, to))
              && (forall e :: e in EdgesInto(graph, graph.Keys, to) ==>
                    ShareOf(e) < ShareOf(best) || (ShareOf(e) == ShareOf(best) && e.count <= best.count))
  {
    var edges := EdgesInto(graph, graph.Keys, to) + {NO_EDGE};
    var best: Edge :| IsStrongest(EdgeBeats, edges, best) && surprise == SurpriseBand(best.count, best.outgoing);
    hide EdgesInto, ShareOf, SurpriseBand, EdgeBeats;
    forall e | e in EdgesInto(graph, graph.Keys, to)
      ensures ShareOf(e) < ShareOf(best) || (ShareOf(e) == ShareOf(best) && e.count <= best.count)
    {
      assert !EdgeBeats(e, best);
      BeatsByShare(e, best);
    }
  }

  // ---------------------------------------------------------------- the path

  /** The busiest successor is the one most observed, and of those observed alike the lowest id. */
  lemma BusiestIsMostObserved(counts: map<InternalId, nat>, id: InternalId)
    ensures IsBusiest(counts, id)
       <==> id in counts && forall k :: k in counts && k != id ==>
              counts[k] < counts[id] || (counts[k] == counts[id] && id < k)
  {
    if IsBusiest(counts, id) {
      forall k | k in counts && k != id ensures counts[k] < counts[id] || (counts[k] == counts[id] && id < k) {
        assert !VotesBeat(Votes(k, counts[k]), Votes(id, counts[id]));
      }
    }
  }

  /** A dominant path begins with the template that has the most lines, of equals the one first given an id, and each
      step goes to the busiest successor of the last. */
  lemma PathBegins(path: seq<TemplateId>, graph: Graph, buckets: map<TemplateId, Bucket>, templates: seq<TemplateId>,
                   total: nat, config: WindowDocument.DocumentConfig)
    requires WindowDocument.PathFor(path, graph, buckets, templates, total, config) && path != []
    requires NoDuplicates(templates) && buckets.Keys <= Elements(templates)
    ensures path[0] in buckets
    ensures exists start: nat :: start < |templates| && templates[start] == path[0]
              && forall k: nat :: k < |templates| && k != start && templates[k] in buckets ==>
                   buckets[templates[k]].count < buckets[path[0]].count
                   || (buckets[templates[k]].count == buckets[path[0]].count && start < k)
  {
    var counts := WindowDocument.CountsById(buckets, templates);
    var start: InternalId, ids: seq<InternalId> :|
      WindowDocument.IsStart(start, counts)
      && IsDominantPath(ids, graph, |templates|, start, config.pathSteps)
      && WindowDocument.IsNamed(path, ids, templates);
    assert ids[0] == start && path[0] == templates[start];
    hide IsDominantPath;
    SomeCounted(buckets, templates);
    BusiestIsMostObserved(counts, start);
    forall k: nat | k < |templates| && k != start && templates[k] in buckets
      ensures buckets[templates[k]].count < buckets[path[0]].count
           || (buckets[templates[k]].count == buckets[path[0]].count && start < k)
    {
      assert k in counts && counts[k] == buckets[templates[k]].count;
    }
  }

  lemma SomeCounted(buckets: map<TemplateId, Bucket>, templates: seq<TemplateId>)
    requires buckets.Keys <= Elements(templates)
    ensures WindowDocument.CountsById(buckets, templates) == map[] ==> buckets == map[]
  {
    if id :| id in buckets {
      assert id in Elements(templates);
      var i :| 0 <= i < |templates| && templates[i] == id;
      assert i in WindowDocument.CountsById(buckets, templates);
    }
  }

  /** The surprise of every template of a frozen window is that of its likeliest way in over the window's n-grams, as
      soon as the window keeps a reservoir or n-grams and formed one. */
  lemma SurpriseOfWindow(w: WindowClose.Window, lines: nat, buckets: map<TemplateId, Bucket>, graph: Graph, total: nat,
                         index: map<TemplateId, InternalId>, counts: map<NGramKey, nat>,
                         config: WindowDocument.DocumentConfig, id: TemplateId)
    requires WindowDocument.FrozenAs(w, lines, buckets, graph, total, index, config)
    requires WindowDocument.GraphFor(graph, counts, total, config) && id in index
    requires config.closing.caps.size > 0 || config.topNgrams > 0
    ensures total == 0 ==> id !in w.surprise
    ensures total > 0 ==> GraphIs(graph, counts, counts.Keys)
    ensures total > 0 ==> id in w.surprise && SurpriseIs(graph, index[id], w.surprise[id])
  {
    hide GraphIs, SurpriseIs;
  }
}
