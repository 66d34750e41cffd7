/**
 * The A* heuristic of a deliberative state (`heuristic` in
 * deliberative/src/template/State.java): the cities the vehicle must still
 * visit are collected, joined pairwise by `completeCityGraph`, and the
 * weight of a minimum spanning tree of that graph, found by `mstWeight`, is
 * charged at the vehicle's cost per kilometre.  The distance between two
 * cities is a parameter.
 */
module Heuristic {
  import opened Routing
  import opened DeliberativeState
  import opened Forest
  import opened Kruskal

  /** A city still to visit: the current one, either end of a waiting task, or the destination of a carried one. */
  ghost predicate ToVisit(s: State, c: City) {
    || c == s.city
    || (exists t :: t in s.available && (c == t.pickupCity || c == t.deliveryCity))
    || (exists t :: t in s.transported && c == t.deliveryCity)
  }

  /** The set the heuristic builds, one task at a time. */
  method CitiesToVisit(s: State) returns (cities: set<City>)
    ensures forall c :: c in cities <==> ToVisit(s, c)
  {
    cities := {};
    var waiting := s.available;
    while waiting != {}
      invariant waiting <= s.available
      invariant forall c :: c in cities <==>
        exists t :: t in s.available && t !in waiting && (c == t.pickupCity || c == t.deliveryCity)
      decreases |waiting|
    {
      var t :| t in waiting;
      cities := cities + {t.deliveryCity, t.pickupCity};
      waiting := waiting - {t};
    }
    ghost var ends := cities;
    var carried := s.transported;
    while carried != {}
      invariant carried <= s.transported
      invariant forall c :: c in cities <==>
        c in ends || exists t :: t in s.transported && t !in carried && c == t.deliveryCity
      decreases |carried|
    {
      var t :| t in carried;
      cities := cities + {t.deliveryCity};
      carried := carried - {t};
    }
    cities := cities + {s.city};
  }

  /**
   * `heuristic`: the result is the cost per kilometre times the weight of
   * the edges Kruskal's algorithm keeps when it polls the complete graph
   * over the cities to visit lightest first (`Kruskal.Run` over `polled`).  The kept
   * edges are one fewer than the cities, each joins two of them at their
   * distance, and in the forest they build all of the cities share one
   * root: they form a spanning tree of the cities.
   */
  method Estimate(s: State, v: Vehicle, dist: (City, City) -> nat)
    returns (h: nat, cities: set<City>, ghost polled: seq<Edge<City>>, ghost tree: seq<Edge<City>>,
             ghost parents: map<City, City>, ghost rank: map<City, nat>, ghost height: nat)
    ensures forall c :: c in cities <==> ToVisit(s, c)
    ensures forall e :: e in polled ==> e.a in cities && e.b in cities && e.a != e.b && e.weight == dist(e.a, e.b)
    ensures forall a, b :: a in cities && b in cities && a != b ==>
      ((Edge(a, b, dist(a, b)) in polled) != (Edge(b, a, dist(b, a)) in polled))
    ensures NonDecreasing(polled) && Kept(polled, tree, parents, rank, height)
    ensures h == Weights(tree) * v.costPerKm
    ensures |tree| == |cities| - 1
    ensures forall e :: e in tree ==> e.a in cities && e.b in cities && e.a != e.b && e.weight == dist(e.a, e.b)
    ensures Ranked(parents, rank, height)
    ensures forall a, b :: a in cities && b in cities ==> Find(parents, rank, height, a) == Find(parents, rank, height, b)
  {
    cities := CitiesToVisit(s);
    var edges := CompleteCityGraph(cities, dist);
    var total;
    total, polled, tree, parents, rank, height := TemplateMstWeight(cities, edges);
    h := total * v.costPerKm;
    forall a, b | a in cities && b in cities
      ensures Find(parents, rank, height, a) == Find(parents, rank, height, b)
    {
      if a != b {
        if Edge(a, b, dist(a, b)) !in edges {
          assert Edge(b, a, dist(b, a)) in edges;
        }
      }
    }
    assert ToVisit(s, s.city);
    SpanningRoots(cities, parents, rank, height, s.city);
  }

  /** In a forest where all the nodes share one root, at most one node is a root. */
  lemma SpanningRoots(nodes: set<City>, parents: map<City, City>, rank: map<City, nat>, height: nat, r: City)
    requires Ranked(parents, rank, height) && r in nodes
    requires forall a, b :: a in nodes && b in nodes ==> Find(parents, rank, height, a) == Find(parents, rank, height, b)
    ensures |Roots(nodes, parents)| <= 1
  {
    forall x | x in Roots(nodes, parents)
      ensures x == Find(parents, rank, height, r)
    {
      assert Find(parents, rank, height, x) == x;
    }
    if Roots(nodes, parents) != {} {
      assert Roots(nodes, parents) == {Find(parents, rank, height, r)};
    }
  }
}
