/**
 * The minimum-spanning-tree weight used as the A* heuristic (`mstWeight`
 * and `completeCityGraph` in deliberative/src/template/Graph.java and
 * deliberative/src/deliberative/Graph.java).  Kruskal's algorithm: the
 * edges are polled lightest first, and an edge is kept exactly when its two
 * endpoints have different roots in the disjoint-set forest, whose first
 * root is then hung under the second.  Edge weights are natural numbers
 * here; where they come from (a coordinate distance or a road distance) is
 * a parameter.
 */
module Kruskal {
  import opened Forest
  import Collections

  datatype Edge<N> = Edge(a: N, b: N, weight: nat)

  /** The total weight of a sequence of edges. */
  function Weights<N(==, !new)>(es: seq<Edge<N>>): nat
    decreases |es|
  {
    if es == [] then 0 else Weights(es[..|es| - 1]) + es[|es| - 1].weight
  }

  /** An edge the priority queue may poll next: one of the lightest left. */
  predicate Lightest<N(==, !new)>(e: Edge<N>, queue: set<Edge<N>>) {
    e in queue && forall d :: d in queue ==> e.weight <= d.weight
  }

  /** A non-empty queue always has a lightest edge. */
  lemma {:induction false} LightestExists<N(!new)>(queue: set<Edge<N>>)
    requires queue != {}
    ensures exists e :: Lightest(e, queue)
    decreases |queue|
  {
    var x :| x in queue;
    if queue - {x} != {} {
      LightestExists(queue - {x});
      var e :| Lightest(e, queue - {x});
      if x.weight < e.weight {
        assert Lightest(x, queue);
      } else {
        assert Lightest(e, queue);
      }
    } else {
      assert Lightest(x, queue);
    }
  }

  predicate NonDecreasing<N(==, !new)>(es: seq<Edge<N>>) {
    forall i, j :: 0 <= i < j < |es| ==> es[i].weight <= es[j].weight
  }

  /** The edges Kruskal's algorithm keeps, with the forest it has built. */
  datatype Trace<N> = Trace(accepted: seq<Edge<N>>, parents: map<N, N>, rank: map<N, nat>, height: nat)

  /**
   * Kruskal's algorithm over the edges in the order they were polled, from
   * an empty forest: a polled edge is kept exactly when its endpoints have
   * different roots, and then its first root is hung under its second; an
   * edge whose endpoints share a root is skipped and changes nothing.
   */
  ghost function Run<N(!new)>(polled: seq<Edge<N>>): (r: Trace<N>)
    ensures Ranked(r.parents, r.rank, r.height)
    ensures |r.accepted| <= |polled|
    decreases |polled|
  {
    if polled == [] then Trace([], map[], map[], 0)
    else
      var t := Run(polled[..|polled| - 1]);
      var e := polled[|polled| - 1];
      var rootA := Find(t.parents, t.rank, t.height, e.a);
      var rootB := Find(t.parents, t.rank, t.height, e.b);
      if rootA != rootB then
        FindIsRoot(t.parents, t.rank, t.height, e.a, {});
        FindIsRoot(t.parents, t.rank, t.height, e.b, {});
        LinkFind(t.parents, t.rank, t.height, rootA, rootB, rootA);
        Trace(t.accepted + [e], t.parents[rootA := rootB], LinkRank(t.rank, rootA, rootB), LinkHeight(t.rank, t.height, rootA))
      else
        t
  }

  /** Run over polled keeps accepted and builds the forest given by parents, rank and height. */
  ghost predicate Kept<N(!new)>(polled: seq<Edge<N>>, accepted: seq<Edge<N>>, parents: map<N, N>, rank: map<N, nat>, height: nat)
  {
    var t := Run(polled);
    t.accepted == accepted && t.parents == parents && t.rank == rank && t.height == height
  }


  /** The nodes that are roots of the forest. */
  ghost function Roots<N(!new)>(nodes: set<N>, parents: map<N, N>): set<N> {
    set x | x in nodes && x !in parents
  }

  /** The forest links nodes of the graph only. */
  ghost predicate Within<N(!new)>(nodes: set<N>, parents: map<N, N>) {
    forall x :: x in parents ==> x in nodes && parents[x] in nodes
  }

  /**
   * What holds between two polls of `mstWeight`: the edges polled so far
   * came out lightest first and none is left in the queue; every polled
   * edge's endpoints share a root; each kept edge made one root fewer; the
   * kept edges and the forest are those of Run over the polled edges; and
   * the total is the weight of the kept edges.
   */
  ghost predicate Progress<N(!new)>(nodes: set<N>, edges: set<Edge<N>>, queue: set<Edge<N>>, polled: seq<Edge<N>>,
                              accepted: seq<Edge<N>>, total: nat, parents: map<N, N>, rank: map<N, nat>, height: nat)
  {
    && (forall e :: e in edges <==> e in polled || e in queue)
    && (forall e :: e in polled ==> e !in queue)
    && |polled| + |queue| == |edges|
    && NonDecreasing(polled)
    && (forall i, d :: 0 <= i < |polled| && d in queue ==> polled[i].weight <= d.weight)
    && Ranked(parents, rank, height) && Within(nodes, parents)
    && |Roots(nodes, parents)| + |accepted| == |nodes|
    && (forall e :: e in polled ==> Find(parents, rank, height, e.a) == Find(parents, rank, height, e.b))
    && total == Weights(accepted) && (forall e :: e in accepted ==> e in edges)
    && Kept(polled, accepted, parents, rank, height)
  }

  /** Before the first poll. */
  lemma ProgressStart<N(!new)>(nodes: set<N>, edges: set<Edge<N>>)
    ensures Progress(nodes, edges, edges, [], [], 0, map[], map[], 0)
  {
    assert Roots(nodes, map[]) == nodes;
  }

  /** Polling a lightest edge keeps the queue and the polled edges in order. */
  lemma PollOrder<N(!new)>(edges: set<Edge<N>>, queue: set<Edge<N>>, polled: seq<Edge<N>>, edge: Edge<N>)
    requires forall e :: e in edges <==> e in polled || e in queue
    requires forall e :: e in polled ==> e !in queue
    requires |polled| + |queue| == |edges|
    requires NonDecreasing(polled)
    requires forall i, d :: 0 <= i < |polled| && d in queue ==> polled[i].weight <= d.weight
    requires Lightest(edge, queue)
    ensures forall e :: e in edges <==> e in polled + [edge] || e in queue - {edge}
    ensures forall e :: e in polled + [edge] ==> e !in queue - {edge}
    ensures |polled + [edge]| + |queue - {edge}| == |edges|
    ensures NonDecreasing(polled + [edge])
    ensures forall i, d :: 0 <= i < |polled + [edge]| && d in queue - {edge} ==> (polled + [edge])[i].weight <= d.weight
  {
  }

  /** An edge whose endpoints already share a root is skipped. */
  lemma SkipStep<N(!new)>(nodes: set<N>, edges: set<Edge<N>>, queue: set<Edge<N>>, polled: seq<Edge<N>>,
                    accepted: seq<Edge<N>>, total: nat, parents: map<N, N>, rank: map<N, nat>, height: nat, edge: Edge<N>)
    requires Progress(nodes, edges, queue, polled, accepted, total, parents, rank, height)
    requires Lightest(edge, queue)
    requires Find(parents, rank, height, edge.a) == Find(parents, rank, height, edge.b)
    ensures Progress(nodes, edges, queue - {edge}, polled + [edge], accepted, total, parents, rank, height)
  {
    PollOrder(edges, queue, polled, edge);
    KeptSkip(polled, accepted, parents, rank, height, edge);
  }

  /** An edge whose endpoints have different roots is kept, and its first root is hung under its second. */
  lemma MergeStep<N(!new)>(nodes: set<N>, edges: set<Edge<N>>, queue: set<Edge<N>>, polled: seq<Edge<N>>,
                     accepted: seq<Edge<N>>, total: nat, parents: map<N, N>, rank: map<N, nat>, height: nat,
                     edge: Edge<N>, rootA: N, rootB: N)
    requires Progress(nodes, edges, queue, polled, accepted, total, parents, rank, height)
    requires Lightest(edge, queue) && edge.a in nodes && edge.b in nodes
    requires rootA == Find(parents, rank, height, edge.a) && rootB == Find(parents, rank, height, edge.b)
    requires rootA != rootB
    ensures Progress(nodes, edges, queue - {edge}, polled + [edge], accepted + [edge], total + edge.weight,
                     parents[rootA := rootB], LinkRank(rank, rootA, rootB), LinkHeight(rank, height, rootA))
  {
    PollOrder(edges, queue, polled, edge);
    FindIsRoot(parents, rank, height, edge.a, nodes);
    FindIsRoot(parents, rank, height, edge.b, nodes);
    var parents', rank', height' := parents[rootA := rootB], LinkRank(rank, rootA, rootB), LinkHeight(rank, height, rootA);
    forall x
      ensures Find(parents', rank', height', x) == if Find(parents, rank, height, x) == rootA then rootB else Find(parents, rank, height, x)
    {
      LinkFind(parents, rank, height, rootA, rootB, x);
    }
    LinkFind(parents, rank, height, rootA, rootB, rootA);
    assert Roots(nodes, parents') == Roots(nodes, parents) - {rootA};
    assert (accepted + [edge])[..|accepted|] == accepted;
    KeptMerge(polled, accepted, parents, rank, height, edge, rootA, rootB);
  }

  /** Run skips an edge whose ends already share a root. */
  lemma KeptSkip<N(!new)>(polled: seq<Edge<N>>, accepted: seq<Edge<N>>, parents: map<N, N>, rank: map<N, nat>, height: nat,
                          edge: Edge<N>)
    requires Kept(polled, accepted, parents, rank, height)
    requires Find(parents, rank, height, edge.a) == Find(parents, rank, height, edge.b)
    ensures Kept(polled + [edge], accepted, parents, rank, height)
  {
    assert (polled + [edge])[..|polled|] == polled;
  }

  /** Run keeps an edge whose ends have different roots, linking the first root under the second. */
  lemma KeptMerge<N(!new)>(polled: seq<Edge<N>>, accepted: seq<Edge<N>>, parents: map<N, N>, rank: map<N, nat>, height: nat,
                           edge: Edge<N>, rootA: N, rootB: N)
    requires Kept(polled, accepted, parents, rank, height)
    requires rootA == Find(parents, rank, height, edge.a) && rootB == Find(parents, rank, height, edge.b)
    requires rootA != rootB
    ensures Kept(polled + [edge], accepted + [edge], parents[rootA := rootB], LinkRank(rank, rootA, rootB),
                 LinkHeight(rank, height, rootA))
  {
    assert (polled + [edge])[..|polled|] == polled;
  }

  /** After the last poll. */
  lemma ProgressEnd<N(!new)>(nodes: set<N>, edges: set<Edge<N>>, polled: seq<Edge<N>>,
                       accepted: seq<Edge<N>>, total: nat, parents: map<N, N>, rank: map<N, nat>, height: nat)
    requires forall e :: e in edges ==> e.a in nodes && e.b in nodes
    requires Progress(nodes, edges, {}, polled, accepted, total, parents, rank, height)
    ensures accepted != [] ==> |accepted| < |nodes|
    ensures edges == {} ==> total == 0
  {
    if accepted != [] {
      assert accepted[0] in edges;
      FindIsRoot(parents, rank, height, accepted[0].a, nodes);
      assert Find(parents, rank, height, accepted[0].a) in Roots(nodes, parents);
    }
  }

  /**
   * `mstWeight` of deliberative/src/template/Graph.java, which keeps the
   * parent map itself.  The edges come out lightest first; the total is
   * the weight of the edges kept; each kept edge joined two trees, so at
   * most one edge fewer than there are nodes is kept and none without
   * edges; the kept edges and the forest are Run's over the edges in the
   * order polled; and at the end the two endpoints of every edge share a
   * root.
   */
  method TemplateMstWeight<N(==, !new)>(nodes: set<N>, edges: set<Edge<N>>)
    returns (total: nat, ghost polled: seq<Edge<N>>, ghost accepted: seq<Edge<N>>,
             ghost parents: map<N, N>, ghost rank: map<N, nat>, ghost height: nat)
    requires forall e :: e in edges ==> e.a in nodes && e.b in nodes
    ensures NonDecreasing(polled) && |polled| == |edges| && forall e :: e in edges <==> e in polled
    ensures total == Weights(accepted) && forall e :: e in accepted ==> e in edges
    ensures Kept(polled, accepted, parents, rank, height)
    ensures |Roots(nodes, parents)| + |accepted| == |nodes|
    ensures accepted != [] ==> |accepted| < |nodes|
    ensures edges == {} ==> total == 0
    ensures Ranked(parents, rank, height)
    ensures forall e :: e in edges ==> Find(parents, rank, height, e.a) == Find(parents, rank, height, e.b)
  {
    var queue := edges;
    var links: map<N, N> := map[];
    total, polled, accepted, rank, height := 0, [], [], map[], 0;
    ProgressStart(nodes, edges);
    while queue != {}
      invariant Progress(nodes, edges, queue, polled, accepted, total, links, rank, height)
      decreases |queue|
    {
      LightestExists(queue);
      var edge :| Lightest(edge, queue);
      var rootA := Root(links, rank, height, edge.a);
      var rootB := Root(links, rank, height, edge.b);
      if rootA != rootB {
        MergeStep(nodes, edges, queue, polled, accepted, total, links, rank, height, edge, rootA, rootB);
        total := total + edge.weight;
        accepted := accepted + [edge];
        links, rank, height := links[rootA := rootB], LinkRank(rank, rootA, rootB), LinkHeight(rank, height, rootA);
      } else {
        SkipStep(nodes, edges, queue, polled, accepted, total, links, rank, height, edge);
      }
      queue := queue - {edge};
      polled := polled + [edge];
    }
    ProgressEnd(nodes, edges, polled, accepted, total, links, rank, height);
    parents := links;
  }

  /**
   * `mstWeight` of deliberative/src/deliberative/Graph.java, the same loop
   * over a `DisjointSet` object: `root` for both endpoints and `connect`
   * on two distinct roots.  The kept edges and the object's forest are
   * Run's over the edges in the order polled.
   */
  method AgentMstWeight<N(==, !new)>(nodes: set<N>, edges: set<Edge<N>>)
    returns (total: nat, ghost polled: seq<Edge<N>>, ghost accepted: seq<Edge<N>>, forest: DisjointSet<N>)
    requires forall e :: e in edges ==> e.a in nodes && e.b in nodes
    ensures NonDecreasing(polled) && |polled| == |edges| && forall e :: e in edges <==> e in polled
    ensures total == Weights(accepted) && forall e :: e in accepted ==> e in edges
    ensures forest.Valid() && |Roots(nodes, forest.parents)| + |accepted| == |nodes|
    ensures Kept(polled, accepted, forest.parents, forest.rank, forest.height)
    ensures accepted != [] ==> |accepted| < |nodes|
    ensures edges == {} ==> total == 0
    ensures forall e :: e in edges ==> forest.RootOf(e.a) == forest.RootOf(e.b)
  {
    var queue := edges;
    forest := new DisjointSet();
    total, polled, accepted := 0, [], [];
    ProgressStart(nodes, edges);
    while queue != {}
      invariant forest.Valid()
      invariant Progress(nodes, edges, queue, polled, accepted, total, forest.parents, forest.rank, forest.height)
      decreases |queue|
    {
      LightestExists(queue);
      var edge :| Lightest(edge, queue);
      var rootA := forest.Root(edge.a);
      var rootB := forest.Root(edge.b);
      if rootA != rootB {
        MergeStep(nodes, edges, queue, polled, accepted, total, forest.parents, forest.rank, forest.height, edge, rootA, rootB);
        total := total + edge.weight;
        accepted := accepted + [edge];
        forest.Connect(rootA, rootB);
      } else {
        SkipStep(nodes, edges, queue, polled, accepted, total, forest.parents, forest.rank, forest.height, edge);
      }
      queue := queue - {edge};
      polled := polled + [edge];
    }
    ProgressEnd(nodes, edges, polled, accepted, total, forest.parents, forest.rank, forest.height);
  }

  // ---------------------------------------------------------------------------
  // The complete graph over the cities
  // ---------------------------------------------------------------------------

  /** The edges between the cities at positions k < l of the list, for the pairs enumerated before (i, j). */
  ghost function EdgesBefore<N>(order: seq<N>, weight: (N, N) -> nat, i: int, j: int): set<Edge<N>> {
    set k, l | 0 <= k < l < |order| && (k < i || (k == i && l < j)) :: Edge(order[k], order[l], weight(order[k], order[l]))
  }

  /** Every unordered pair of distinct list entries, as one edge from the earlier to the later. */
  lemma OnePerPair<N>(order: seq<N>, weight: (N, N) -> nat, edges: set<Edge<N>>)
    requires Collections.Distinct(order) && edges == EdgesBefore(order, weight, |order|, 0)
    ensures forall e :: e in edges ==> e.a in order && e.b in order && e.a != e.b && e.weight == weight(e.a, e.b)
    ensures forall a, b :: a in order && b in order && a != b ==>
      ((Edge(a, b, weight(a, b)) in edges) != (Edge(b, a, weight(b, a)) in edges))
  {
    forall e | e in edges
      ensures e.a in order && e.b in order && e.a != e.b && e.weight == weight(e.a, e.b)
    {
      var k, l :| 0 <= k < l < |order| && e == Edge(order[k], order[l], weight(order[k], order[l]));
      assert Collections.Entry(order, k) != Collections.Entry(order, l);
    }
    forall a, b | a in order && b in order && a != b
      ensures (Edge(a, b, weight(a, b)) in edges) != (Edge(b, a, weight(b, a)) in edges)
    {
      var k :| 0 <= k < |order| && order[k] == a;
      var l :| 0 <= l < |order| && order[l] == b;
      if k < l {
        assert Edge(a, b, weight(a, b)) in edges;
        if Edge(b, a, weight(b, a)) in edges {
          var k', l' :| 0 <= k' < l' < |order| && Edge(b, a, weight(b, a)) == Edge(order[k'], order[l'], weight(order[k'], order[l']));
          Collections.SamePosition(order, k', l);
          Collections.SamePosition(order, l', k);
        }
      } else {
        assert Edge(b, a, weight(b, a)) in edges;
        if Edge(a, b, weight(a, b)) in edges {
          var k', l' :| 0 <= k' < l' < |order| && Edge(a, b, weight(a, b)) == Edge(order[k'], order[l'], weight(order[k'], order[l']));
          Collections.SamePosition(order, k', k);
          Collections.SamePosition(order, l', l);
        }
      }
    }
  }

  /**
   * `completeCityGraph`: the cities are listed in some order, and the pair
   * loop adds one edge from the i-th to the j-th city for every i < j.  So
   * every edge joins two different cities with their weight, and every
   * unordered pair of different cities gets exactly one edge.
   */
  method CompleteCityGraph<N(==)>(cities: set<N>, weight: (N, N) -> nat) returns (edges: set<Edge<N>>)
    ensures forall e :: e in edges ==> e.a in cities && e.b in cities && e.a != e.b && e.weight == weight(e.a, e.b)
    ensures forall a, b :: a in cities && b in cities && a != b ==>
      ((Edge(a, b, weight(a, b)) in edges) != (Edge(b, a, weight(b, a)) in edges))
  {
    var order := Collections.ListOf(cities);
    edges := {};
    var i := 0;
    while i < |order| - 1
      invariant 0 <= i && (|order| > 0 ==> i <= |order| - 1)
      invariant edges == EdgesBefore(order, weight, i, i + 1)
    {
      var j := i + 1;
      while j < |order|
        invariant i + 1 <= j <= |order|
        invariant edges == EdgesBefore(order, weight, i, j)
      {
        AddPair(order, weight, i, j);
        edges := edges + {Edge(order[i], order[j], weight(order[i], order[j]))};
        j := j + 1;
      }
      NextRow(order, weight, i);
      i := i + 1;
    }
    LastRow(order, weight, i);
    OnePerPair(order, weight, edges);
  }

  lemma AddPair<N>(order: seq<N>, weight: (N, N) -> nat, i: nat, j: nat)
    requires i < j < |order|
    ensures EdgesBefore(order, weight, i, j + 1) == EdgesBefore(order, weight, i, j) + {Edge(order[i], order[j], weight(order[i], order[j]))}
  {
  }

  lemma NextRow<N>(order: seq<N>, weight: (N, N) -> nat, i: nat)
    ensures EdgesBefore(order, weight, i, |order|) == EdgesBefore(order, weight, i + 1, i + 2)
  {
  }

  lemma LastRow<N>(order: seq<N>, weight: (N, N) -> nat, i: nat)
    requires |order| > 0 ==> i == |order| - 1
    ensures EdgesBefore(order, weight, i, i + 1) == EdgesBefore(order, weight, |order|, 0)
  {
  }
}
