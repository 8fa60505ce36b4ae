/** The transition graph read off the n-gram table, the surprise of each template's likeliest way in, and the
    greedy walk along the likeliest ways out. */
module Transitions {
  import opened Orders
  import opened Sums
  import opened BoundedTable
  import opened Streams
  import opened RunningBest
  import opened SalienceScores

  type Successors = map<InternalId, nat>

  type Graph = map<InternalId, Successors>

  // ---------------------------------------------------------------- the graph

  function Source(key: NGramKey): InternalId { if |key| >= 2 then key[0] else 0 }

  function Target(key: NGramKey): InternalId { if |key| >= 2 then key[1] else 0 }

  ghost function KeysFrom(keys: set<NGramKey>, from: InternalId): set<NGramKey> { Fiber(keys, Source, from) }

  ghost function KeysBetween(keys: set<NGramKey>, from: InternalId, to: InternalId): set<NGramKey>
      { Fiber(KeysFrom(keys, from), Target, to) }

  /** Every edge weighs what the n-grams opening with it count together. */
  ghost predicate GraphIs(graph: Graph, counts: map<NGramKey, nat>, keys: set<NGramKey>) {
    && graph.Keys == Image(keys, Source)
    && forall from :: from in graph ==> SuccessorsAre(graph[from], counts, keys, from)
  }

  ghost predicate SuccessorsAre(row: Successors, counts: map<NGramKey, nat>, keys: set<NGramKey>, from: InternalId) {
    && row.Keys == Image(KeysFrom(keys, from), Target)
    && forall to :: to in row ==> row[to] == SetSum(KeysBetween(keys, from, to), CountOf(counts))
  }

  function AddEdge(graph: Graph, from: InternalId, to: InternalId, count: nat): Graph {
    var row := if from in graph then graph[from] else map[];
    graph[from := row[to := (if to in row then row[to] else 0) + count]]
  }

  lemma EdgeAdded(row: Successors, counts: map<NGramKey, nat>, keys: set<NGramKey>, key: NGramKey)
    requires key in counts && key !in keys && SuccessorsAre(row, counts, keys, Source(key))
    ensures var to := Target(key);
            SuccessorsAre(row[to := (if to in row then row[to] else 0) + counts[key]], counts, keys + {key},
                          Source(key))
  {
    var from, target := Source(key), Target(key);
    assert KeysFrom(keys + {key}, from) == KeysFrom(keys, from) + {key};
    forall to ensures KeysBetween(keys + {key}, from, to) == if to == target then KeysBetween(keys, from, to) + {key}
        else KeysBetween(keys, from, to) {}
    SetSumAdd(KeysBetween(keys, from, target), key, CountOf(counts));
    if target !in row { assert KeysBetween(keys, from, target) == {}; }
    assert Image(KeysFrom(keys, from) + {key}, Target) == Image(KeysFrom(keys, from), Target) + {target};
  }

  lemma OtherRow(row: Successors, counts: map<NGramKey, nat>, keys: set<NGramKey>, key: NGramKey, from: InternalId)
    requires SuccessorsAre(row, counts, keys, from) && from != Source(key)
    ensures SuccessorsAre(row, counts, keys + {key}, from)
  {
    assert KeysFrom(keys + {key}, from) == KeysFrom(keys, from);
  }

  lemma GraphGrows(graph: Graph, counts: map<NGramKey, nat>, keys: set<NGramKey>, key: NGramKey)
    requires GraphIs(graph, counts, keys) && key in counts && key !in keys
    ensures GraphIs(AddEdge(graph, Source(key), Target(key), counts[key]), counts, keys + {key})
  {
    hide SuccessorsAre;
    var source := Source(key);
    var row: Successors := if source in graph then graph[source] else map[];
    if source !in graph {
      assert KeysFrom(keys, source) == {} by { assert forall k :: k in keys ==> Source(k) in Image(keys, Source); }
      NoSuccessors(counts, keys, source);
    }
    EdgeAdded(row, counts, keys, key);
    forall from | from in graph && from != source ensures SuccessorsAre(graph[from], counts, keys + {key}, from) {
      OtherRow(graph[from], counts, keys, key, from);
    }
    assert Image(keys + {key}, Source) == Image(keys, Source) + {source};
    hide Image;
  }

  lemma NoSuccessors(counts: map<NGramKey, nat>, keys: set<NGramKey>, from: InternalId)
    requires KeysFrom(keys, from) == {}
    ensures SuccessorsAre(map[], counts, keys, from)
  {
    assert Image(KeysFrom(keys, from), Target) == {};
  }

  method BuildTransitions(counts: map<NGramKey, nat>) returns (graph: Graph)
    ensures GraphIs(graph, counts, counts.Keys)
  {
    graph := map[];
    var left := counts.Keys;
    while left != {}
      invariant left <= counts.Keys && GraphIs(graph, counts, counts.Keys - left)
      decreases left
    {
      var key :| key in left;
      GraphGrows(graph, counts, counts.Keys - left, key);
      assert counts.Keys - (left - {key}) == counts.Keys - left + {key};
      graph := AddEdge(graph, Source(key), Target(key), counts[key]);
      left := left - {key};
    }
    assert counts.Keys - left == counts.Keys;
  }

  ghost function Total(row: Successors): nat { SetSum(row.Keys, CountOf(row)) }

  /** What leaves a template is every n-gram that starts with it. */
  lemma OutgoingIs(graph: Graph, counts: map<NGramKey, nat>, keys: set<NGramKey>, from: InternalId)
    requires GraphIs(graph, counts, keys) && from in graph
    ensures Total(graph[from]) == SetSum(KeysFrom(keys, from), CountOf(counts))
  {
    var row := graph[from];
    assert SuccessorsAre(row, counts, keys, from);
    FiberSum(KeysFrom(keys, from), Target, CountOf(counts));
    SetSumSame(row.Keys, CountOf(row), FiberTotal(KeysFrom(keys, from), Target, CountOf(counts)));
  }

  // ---------------------------------------------------------------- surprise

  datatype Ratio = Ratio(count: nat, outgoing: nat)

  type Edge = e: Ratio | e.outgoing > 0 witness Ratio(0, 1)

  const NO_EDGE: Edge := Ratio(0, 1)

  /** A greater share of its source, compared by cross-multiplying; more observations on equal shares. */
  const EdgeBeats: (Edge, Edge) -> bool :=
    (a: Edge, b: Edge) => a.count * b.outgoing > b.count * a.outgoing
        || (a.count * b.outgoing == b.count * a.outgoing && a.count > b.count)

  lemma CrossTransitive(a: nat, b: nat, c: nat, x: nat, y: nat, z: nat)
    requires x > 0 && y > 0 && z > 0 && a * y >= b * x && b * z >= c * y
    ensures a * z >= c * x && (a * z == c * x ==> a * y == b * x && b * z == c * y)
  {
    assert (a * z) * y == (a * y) * z >= (b * x) * z == (b * z) * x >= (c * y) * x == (c * x) * y by {
      Rearranged(a, z, y);
      Rearranged(b, x, z);
      Rearranged(c, y, x);
      Scaled(b * x, a * y, z);
      Scaled(c * y, b * z, x);
    }
    Cancelled(c * x, a * z, y);
    if a * z == c * x {
      Strict(b * x, a * y, z);
      Strict(c * y, b * z, x);
    }
  }

  lemma Rearranged(a: nat, b: nat, c: nat)
    ensures (a * b) * c == (a * c) * b
  {}

  lemma Scaled(a: nat, b: nat, k: nat)
    requires a <= b
    ensures a * k <= b * k
  {
    assert (b - a) * k >= 0;
  }

  lemma Strict(a: nat, b: nat, k: nat)
    requires a <= b && k > 0 && b * k <= a * k
    ensures a == b
  {
    var d: nat := b - a;
    assert d * k == b * k - a * k;
    assert d == 0 || d * k >= k;
  }

  lemma Cancelled(a: nat, b: nat, k: nat)
    requires a * k <= b * k && k > 0
    ensures a <= b
  {
    var d := a - b;
    assert d * k == a * k - b * k;
    assert d <= 0 || d * k >= k;
  }

  lemma EdgeBeatsIsWeak()
    ensures StrictWeak(EdgeBeats)
  {
    forall x, y, z | EdgeBeats(x, y) && EdgeBeats(y, z) ensures EdgeBeats(x, z) {
      CrossTransitive(x.count, y.count, z.count, x.outgoing, y.outgoing, z.outgoing);
    }
    forall x, y, z | EdgeBeats(x, z) ensures EdgeBeats(x, y) || EdgeBeats(y, z) {
      if !EdgeBeats(x, y) && !EdgeBeats(y, z) {
        CrossTransitive(z.count, y.count, x.count, z.outgoing, y.outgoing, x.outgoing);
      }
    }
  }

  ghost predicate Positive(graph: Graph)
      { forall from, to :: from in graph && to in graph[from] ==> graph[from][to] > 0 }

  ghost function EdgesInto(graph: Graph, froms: set<InternalId>, to: InternalId): set<Edge> {
    set from | from in froms && from in graph && to in graph[from]
        && Total(graph[from]) > 0 :: Ratio(graph[from][to], Total(graph[from]))
  }

  /** The edges the n-gram table itself gives: what each source's n-grams count on the way to a template, out of
      all they count. */
  ghost function CountedEdges(counts: map<NGramKey, nat>, to: InternalId): set<Edge> {
    set from | from in Image(counts.Keys, Source) && to in Image(KeysFrom(counts.Keys, from), Target)
        && SetSum(KeysFrom(counts.Keys, from), CountOf(counts)) > 0
      :: Ratio(SetSum(KeysBetween(counts.Keys, from, to), CountOf(counts)),
               SetSum(KeysFrom(counts.Keys, from), CountOf(counts)))
  }

  /** The graph's edges are the table's. */
  lemma EdgesAreCounted(graph: Graph, counts: map<NGramKey, nat>, to: InternalId)
    requires GraphIs(graph, counts, counts.Keys)
    ensures EdgesInto(graph, graph.Keys, to) == CountedEdges(counts, to)
  {
    forall from | from in graph ensures Total(graph[from]) == SetSum(KeysFrom(counts.Keys, from), CountOf(counts))
        && SuccessorsAre(graph[from], counts, counts.Keys, from) {
      OutgoingIs(graph, counts, counts.Keys, from);
    }
    hide Total, SetSum, KeysFrom, KeysBetween, Image;
  }

  /** The surprise of a template is the band of its likeliest incoming edge; none counts as no edge. */
  ghost predicate SurpriseIs(graph: Graph, to: InternalId, surprise: nat) {
    exists best: Edge :: IsStrongest(EdgeBeats, EdgesInto(graph, graph.Keys, to) + {NO_EDGE},
                                     best) && surprise == SurpriseBand(best.count, best.outgoing)
  }

  lemma EdgesNeverTie(a: Edge, b: Edge)
    requires a != b && (a.count > 0 || a == NO_EDGE) && (b.count > 0 || b == NO_EDGE)
    ensures EdgeBeats(a, b) || EdgeBeats(b, a)
  {
    if a.count > 0 && b.count > 0 && a.count * b.outgoing == b.count * a.outgoing && a.count == b.count {
      if a.outgoing < b.outgoing {
        Strict(a.outgoing, b.outgoing, a.count);
      } else {
        Strict(b.outgoing, a.outgoing, a.count);
      }
    }
  }

  /** No iteration order of the transition maps can change a template's surprise. */
  lemma SurpriseUnique(graph: Graph, to: InternalId, s: nat, s': nat)
    requires Positive(graph) && SurpriseIs(graph, to, s) && SurpriseIs(graph, to, s')
    ensures s == s'
  {
    var edges := EdgesInto(graph, graph.Keys, to) + {NO_EDGE};
    var best: Edge :| IsStrongest(EdgeBeats, edges, best) && s == SurpriseBand(best.count, best.outgoing);
    var best': Edge :| IsStrongest(EdgeBeats, edges, best') && s' == SurpriseBand(best'.count, best'.outgoing);
    assert forall e :: e in edges ==> e.count > 0 || e == NO_EDGE;
    hide EdgesInto, EdgeBeats, IsStrongest, SurpriseBand, Positive;
    forall x, y | x in edges && y in edges && x != y ensures EdgeBeats(x, y) || EdgeBeats(y, x) { EdgesNeverTie(x, y); }
    StrongestUnique(EdgeBeats, edges, best, best');
  }

  method OutgoingOf(row: Successors) returns (outgoing: nat)
    ensures outgoing == Total(row)
  {
    outgoing := 0;
    var left := row.Keys;
    assert row.Keys - left == {};
    while left != {}
      invariant left <= row.Keys && outgoing == SetSum(row.Keys - left, CountOf(row))
      decreases left
    {
      var to :| to in left;
      SetSumAdd(row.Keys - left, to, CountOf(row));
      assert row.Keys - (left - {to}) == row.Keys - left + {to};
      outgoing := outgoing + row[to];
      left := left - {to};
    }
    assert row.Keys - left == row.Keys;
  }

  ghost predicate BestSoFar(graph: Graph, done: set<InternalId>, best: seq<Edge>) {
    forall to :: 0 <= to < |best| ==> IsStrongest(EdgeBeats, EdgesInto(graph, done, to) + {NO_EDGE}, best[to])
  }

  /** The edges into a template offered once part of a source's row has been read. */
  ghost function Offered(graph: Graph, done: set<InternalId>, row: Successors, left: set<InternalId>, outgoing: nat,
                         to: InternalId): set<Edge>
    requires outgoing > 0
  {
    if to in row && to !in left then EdgesInto(graph, done, to) + {NO_EDGE} + {Ratio(row[to], outgoing)}
        else EdgesInto(graph, done, to) + {NO_EDGE}
  }

  lemma RowOffered(graph: Graph, done: set<InternalId>, from: InternalId, to: InternalId)
    requires from in graph && from !in done && Total(graph[from]) > 0
    ensures Offered(graph, done, graph[from], {}, Total(graph[from]), to) == EdgesInto(graph, done + {from}, to)
        + {NO_EDGE}
  {}

  /** Offers each edge out of one source to the template it leads to. */
  method OfferRow(graph: Graph, ghost done: set<InternalId>, from: InternalId, best: seq<Edge>) returns (r: seq<Edge>)
    requires from in graph && from !in done && BestSoFar(graph, done, best)
    ensures |r| == |best| && BestSoFar(graph, done + {from}, r)
  {
    var row := graph[from];
    var outgoing := OutgoingOf(row);
    r := best;
    if outgoing == 0 {
      assert forall to :: EdgesInto(graph, done + {from}, to) == EdgesInto(graph, done, to);
      return;
    }
    r := OfferEdges(graph, done, row, outgoing, best);
    forall to | 0 <= to < |r| ensures IsStrongest(EdgeBeats, EdgesInto(graph, done + {from}, to) + {NO_EDGE}, r[to]) {
      RowOffered(graph, done, from, to);
    }
  }

  method OfferEdges(graph: Graph, ghost done: set<InternalId>, row: Successors, outgoing: nat, best: seq<Edge>)
      returns (r: seq<Edge>)
    requires outgoing > 0 && BestSoFar(graph, done, best)
    ensures |r| == |best| && forall to :: 0 <= to < |r| ==>
        IsStrongest(EdgeBeats, Offered(graph, done, row, {}, outgoing, to), r[to])
  {
    hide EdgeBeats, IsStrongest, StrictWeak, EdgesInto;
    EdgeBeatsIsWeak();
    r := best;
    var left := row.Keys;
    while left != {}
      invariant left <= row.Keys && |r| == |best|
      invariant forall to :: 0 <= to < |r| ==>
          IsStrongest(EdgeBeats, Offered(graph, done, row, left, outgoing, to), r[to])
      decreases left
    {
      var to :| to in left;
      if to < |r| {
        var edge: Edge := Ratio(row[to], outgoing);
        OfferStep(EdgeBeats, EdgesInto(graph, done, to) + {NO_EDGE}, r[to], edge);
        if EdgeBeats(edge, r[to]) {
          r := r[to := edge];
        }
      }
      left := left - {to};
    }
  }

  method IncomingSurprise(graph: Graph, nodes: nat) returns (surprise: seq<nat>)
    ensures |surprise| == nodes && forall to :: 0 <= to < nodes ==> SurpriseIs(graph, to, surprise[to])
  {
    var best: seq<Edge> := seq(nodes, _ => NO_EDGE);
    forall to | 0 <= to < nodes ensures IsStrongest(EdgeBeats, EdgesInto(graph, {}, to) + {NO_EDGE}, best[to]) {
      assert EdgesInto(graph, {}, to) + {NO_EDGE} == {NO_EDGE};
    }
    var left := graph.Keys;
    assert graph.Keys - left == {};
    while left != {}
      invariant left <= graph.Keys && |best| == nodes && BestSoFar(graph, graph.Keys - left, best)
      decreases left
    {
      var from :| from in left;
      best := OfferRow(graph, graph.Keys - left, from, best);
      assert graph.Keys - (left - {from}) == graph.Keys - left + {from};
      left := left - {from};
    }
    assert graph.Keys - left == graph.Keys;
    surprise := seq(nodes, i requires 0 <= i < nodes => SurpriseBand(best[i].count, best[i].outgoing));
    forall to | 0 <= to < nodes ensures SurpriseIs(graph, to, surprise[to]) {
      assert IsStrongest(EdgeBeats, EdgesInto(graph, graph.Keys, to) + {NO_EDGE}, best[to]);
    }
  }
}
