/** The greedy walk from the busiest template along each template's likeliest way out. */
module DominantPath {
  import opened Orders
  import opened Streams
  import opened RunningBest
  import opened Transitions

  datatype Votes = Votes(id: InternalId, count: nat)

  /** More observations first, then the lower id. */
  const VotesBeat: (Votes, Votes) -> bool := (a: Votes, b: Votes) => a.count > b.count
      || (a.count == b.count && a.id < b.id)

  lemma VotesBeatIsTotal()
    ensures StrictTotal(VotesBeat) && StrictWeak(VotesBeat)
  {
    forall x, y ensures x == y || VotesBeat(x, y) || VotesBeat(y, x)
        { assert x == Votes(x.id, x.count) && y == Votes(y.id, y.count); }
    TotalIsWeak(VotesBeat);
  }

  function VotesOf(counts: map<InternalId, nat>): (r: set<Votes>)
    ensures forall k :: k in counts ==> Votes(k, counts[k]) in r
    ensures forall v :: v in r ==> v.id in counts && v.count == counts[v.id]
  {
    set k | k in counts :: Votes(k, counts[k])
  }

  ghost predicate IsBusiest(counts: map<InternalId, nat>, id: InternalId) {
    id in counts && IsStrongest(VotesBeat, VotesOf(counts), Votes(id, counts[id]))
  }

  lemma BusiestUnique(counts: map<InternalId, nat>, a: InternalId, b: InternalId)
    requires IsBusiest(counts, a) && IsBusiest(counts, b)
    ensures a == b
  {
    VotesBeatIsTotal();
    StrongestTotal(VotesBeat, VotesOf(counts), Votes(a, counts[a]), Votes(b, counts[b]));
  }

  /** The busiest of some counted ids; id 0 when there is none. */
  method Busiest(counts: map<InternalId, nat>) returns (id: InternalId)
    requires forall k :: k in counts ==> counts[k] > 0
    ensures if counts == map[] then id == 0 else IsBusiest(counts, id)
  {
    VotesBeatIsTotal();
    var votes := VotesOf(counts);
    var best := PickStrongest(VotesBeat, Votes(0, 0), votes);
    if counts != map[] {
      var k :| k in counts;
      assert !VotesBeat(Votes(k, counts[k]), best);
      assert IsStrongest(VotesBeat, votes, best);
    } else {
      assert votes == {};
    }
    return best.id;
  }

  ghost predicate StepsTo(graph: Graph, from: InternalId, to: InternalId)
      { from in graph && IsBusiest(graph[from], to) }

  /** Every step goes where most observations go, and none returns to a template already on the path. */
  ghost predicate Greedy(path: seq<InternalId>, graph: Graph, nodes: nat) {
    && NoDuplicates(path) && (forall i :: 0 <= i < |path| ==> path[i] < nodes)
    && forall i :: 0 <= i < |path| - 1 ==> StepsTo(graph, path[i], path[i + 1])
  }

  /** No further step is possible: no way out, or the likeliest one leads back or off the table. */
  ghost predicate Stuck(path: seq<InternalId>, graph: Graph, nodes: nat)
    requires path != []
  {
    forall to: InternalId :: StepsTo(graph, path[|path| - 1], to) ==> to in path || to >= nodes
  }

  ghost predicate IsDominantPath(path: seq<InternalId>, graph: Graph, nodes: nat, start: InternalId, steps: nat) {
    if start >= nodes then path == []
    else
        path != [] && path[0] == start && Greedy(path, graph, nodes) && |path| <= steps + 1
            && (|path| == steps + 1 || Stuck(path, graph, nodes))
  }

  /** The walk is greedy and simple, as long as it may be and no longer than the step bound allows. */
  method BuildDominantPath(graph: Graph, nodes: nat, start: InternalId, steps: nat) returns (path: seq<InternalId>)
    requires Positive(graph)
    ensures IsDominantPath(path, graph, nodes, start, steps)
  {
    path := [];
    if start >= nodes {
      return;
    }
    path := [start];
    var current := start;
    for step := 0 to steps
      invariant |path| == step + 1 && path[0] == start && current == path[step] && Greedy(path, graph, nodes)
    {
      if current !in graph || graph[current] == map[] {
        return;
      }
      var to := Busiest(graph[current]);
      assert StepsTo(graph, current, to);
      if to in path || to >= nodes {
        forall other: InternalId | StepsTo(graph, current, other)
            ensures other in path || other >= nodes { BusiestUnique(graph[current], to, other); }
        return;
      }
      path := path + [to];
      current := to;
    }
  }

  /** Two greedy walks from one start agree as far as both go. */
  lemma {:induction false} GreedyAgrees(a: seq<InternalId>, b: seq<InternalId>, graph: Graph, nodes: nat, n: nat)
    requires Greedy(a, graph, nodes) && Greedy(b, graph, nodes) && 0 < n <= |a| && n <= |b| && a[0] == b[0]
    ensures a[..n] == b[..n]
  {
    if n > 1 {
      GreedyAgrees(a, b, graph, nodes, n - 1);
      assert a[n - 2] == a[..n - 1][n - 2] && b[n - 2] == b[..n - 1][n - 2];
      assert StepsTo(graph, a[n - 2], a[n - 2 + 1]) && StepsTo(graph, b[n - 2], b[n - 2 + 1]);
      BusiestUnique(graph[a[n - 2]], a[n - 1], b[n - 1]);
      assert a[..n] == a[..n - 1] + [a[n - 1]] && b[..n] == b[..n - 1] + [b[n - 1]];
    }
  }

  lemma LongerIsNotStuck(a: seq<InternalId>, b: seq<InternalId>, graph: Graph, nodes: nat)
    requires a != [] && |a| < |b| && Greedy(b, graph, nodes) && b[..|a|] == a
    ensures !Stuck(a, graph, nodes)
  {
    var n := |a|;
    assert a[n - 1] == b[n - 1];
    assert StepsTo(graph, b[n - 1], b[n - 1 + 1]);
    assert b[n] !in a by { assert forall i :: 0 <= i < n ==> a[i] == b[i] && b[i] != b[n]; }
  }

  /** A window has one dominant path: no iteration order of the transition maps can change it. */
  lemma DominantPathUnique(a: seq<InternalId>, b: seq<InternalId>, graph: Graph, nodes: nat, start: InternalId,
                           steps: nat)
    requires IsDominantPath(a, graph, nodes, start, steps) && IsDominantPath(b, graph, nodes, start, steps)
    ensures a == b && NoDuplicates(a) && |a| <= steps + 1
  {
    if start < nodes {
      var n := if |a| <= |b| then |a| else |b|;
      GreedyAgrees(a, b, graph, nodes, n);
      hide Stuck;
      assert a[..|a|] == a && b[..|b|] == b;
      if |a| < |b| { LongerIsNotStuck(a, b, graph, nodes); }
      if |b| < |a| { LongerIsNotStuck(b, a, graph, nodes); }
    }
  }
}
