/**
 * The randomized initial assignment both local-search solvers start from
 * (`randomVehicleWithCapacityAtLeast`, `randomIndices` and
 * `initialAssignment`, written identically in the auction and the
 * centralized solver).  Random draws are nondeterministic choices.
 */
module Construction {
  import opened Routing
  import Collections
  import opened CostEval
  import opened Feasibility

  /** The vehicles able to carry the given weight, in the vehicles' order. */
  function Capable(vs: seq<Vehicle>, weight: int): (r: seq<Vehicle>)
    ensures forall v :: v in r <==> v in vs && v.capacity >= weight
    ensures |r| <= |vs|
  {
    if vs == [] then []
    else Capable(vs[..|vs| - 1], weight) + (if vs[|vs| - 1].capacity >= weight then [vs[|vs| - 1]] else [])
  }

  /**
   * A vehicle drawn among those whose capacity is at least the given weight;
   * None where the source's draw from an empty list throws.
   */
  method RandomVehicleWithCapacityAtLeast(p: Problem, weight: int) returns (r: Option<Vehicle>)
    ensures r.None? <==> Capable(p.vehicles, weight) == []
    ensures r.Some? ==> r.value in p.vehicles && r.value.capacity >= weight
  {
    var capable: seq<Vehicle> := [];
    for i := 0 to |p.vehicles|
      invariant capable == Capable(p.vehicles[..i], weight)
    {
      assert p.vehicles[..i + 1][..i] == p.vehicles[..i];
      if p.vehicles[i].capacity >= weight {
        capable := capable + [p.vehicles[i]];
      }
    }
    assert p.vehicles[..|p.vehicles|] == p.vehicles;
    if |capable| == 0 {
      return None;
    }
    var index :| 0 <= index < |capable|;
    return Some(capable[index]);
  }

  /** 0, 1, ..., n - 1. */
  function Range(n: nat): (r: seq<int>)
    ensures |r| == n && forall i :: 0 <= i < n ==> r[i] == i
  {
    if n == 0 then [] else Range(n - 1) + [n - 1]
  }

  /** A sequence with the same elements, counted with multiplicity, as Range(n) holds each of 0..n-1 exactly once. */
  lemma PermutationOfRange(s: seq<int>, n: nat)
    requires multiset(s) == multiset(Range(n))
    ensures |s| == n
    ensures forall k :: k in s <==> 0 <= k < n
    ensures forall i :: 0 <= i < |s| ==> 0 <= s[i] < n
    ensures forall i, j :: 0 <= i < j < |s| ==> s[i] != s[j]
  {
    assert |s| == |multiset(s)| == |multiset(Range(n))| == n;
    forall k
      ensures k in s <==> 0 <= k < n
    {
      RangeCount(n, k);
      assert k in s <==> k in multiset(s);
    }
    forall i | 0 <= i < |s|
      ensures 0 <= s[i] < n
    {
      assert s[i] in s;
    }
    forall i, j | 0 <= i < j < |s|
      ensures s[i] != s[j]
    {
      RangeCount(n, s[i]);
      Occurrences(s, i, j);
    }
  }

  lemma {:induction false} RangeCount(n: nat, k: int)
    ensures multiset(Range(n))[k] == if 0 <= k < n then 1 else 0
  {
    if n > 0 {
      RangeCount(n - 1, k);
      assert multiset(Range(n)) == multiset(Range(n - 1)) + multiset{n - 1};
    }
  }

  /** A value at two positions occurs at least twice. */
  lemma Occurrences(s: seq<int>, i: nat, j: nat)
    requires i < j < |s|
    ensures s[i] == s[j] ==> multiset(s)[s[i]] >= 2
  {
    assert s == s[..i] + [s[i]] + s[i + 1..j] + [s[j]] + s[j + 1..];
  }

  /** A random permutation of 0..max-1: the list 0..max-1, shuffled. */
  method RandomIndices(max: nat) returns (indices: seq<int>)
    ensures multiset(indices) == multiset(Range(max))
  {
    var ordered: seq<int> := [];
    for i := 0 to max
      invariant ordered == Range(i)
    {
      ordered := ordered + [i];
    }
    indices := Collections.Shuffle(ordered);
  }

  // ---------------------------------------------------------------------------
  // The initial assignment
  // ---------------------------------------------------------------------------

  /**
   * Every route is its vehicle's label followed by adjacent pickup/delivery
   * pairs of the same task, each light enough for the vehicle.
   */
  predicate Paired(p: Problem, chains: seq<seq<Node>>)
    requires |chains| == |p.vehicles|
  {
    forall v :: 0 <= v < |chains| ==> PairedRoute(chains[v], p.vehicles[v].capacity)
  }

  predicate PairedRoute(c: seq<Node>, capacity: int) {
    && |c| % 2 == 1
    && forall j :: 1 <= j < |c| && j % 2 == 1 ==> PairAt(c, j, capacity)
  }

  /** Position j of c holds a pickup light enough for the vehicle, and position j + 1 its delivery. */
  predicate PairAt(c: seq<Node>, j: nat, capacity: int)
    requires j < |c|
  {
    c[j].Pick? && j + 1 < |c| && c[j + 1] == Del(c[j].task) && c[j].task.weight <= capacity
  }

  /** The labels of the tasks at the given indices. */
  function Placed(p: Problem, indices: seq<int>): set<Node> {
    (set i | i in indices && 0 <= i < |p.tasks| :: Pick(p.tasks[i])) +
    (set i | i in indices && 0 <= i < |p.tasks| :: Del(p.tasks[i]))
  }

  function EmptyRoutes(vs: seq<Vehicle>): (chains: seq<seq<Node>>)
    ensures |chains| == |vs| && forall v :: 0 <= v < |vs| ==> chains[v] == [Veh(vs[v])]
  {
    if vs == [] then [] else EmptyRoutes(vs[..|vs| - 1]) + [[Veh(vs[|vs| - 1])]]
  }

  lemma {:induction false} NodesOfEmptyRoutes(vs: seq<Vehicle>)
    ensures NodesOf(EmptyRoutes(vs)) == set v | v in vs :: Veh(v)
  {
    if vs != [] {
      var chains := EmptyRoutes(vs);
      assert chains[..|chains| - 1] == EmptyRoutes(vs[..|vs| - 1]);
      NodesOfEmptyRoutes(vs[..|vs| - 1]);
      assert Elems(chains[|chains| - 1]) == {Veh(vs[|vs| - 1])};
      assert forall v :: v in vs <==> v in vs[..|vs| - 1] || v == vs[|vs| - 1];
    }
  }

  /** The map sending every vehicle's label to the end marker encodes one empty route per vehicle. */
  lemma EmptyEncodes(p: Problem, next: Successors)
    requires DistinctVehicles(p) && next.Keys == VehicleNodes(p) && forall x :: x in next ==> next[x] == End
    ensures Encodes(p, next, EmptyRoutes(p.vehicles)) && Closed(p, next)
  {
    NodesOfEmptyRoutes(p.vehicles);
    EmptyChains(p, next);
    EmptySlots(p);
    EmptyClosed(p, next);
  }

  lemma EmptyChains(p: Problem, next: Successors)
    requires next.Keys == VehicleNodes(p) && forall x :: x in next ==> next[x] == End
    ensures forall v :: 0 <= v < |p.vehicles| ==> IsChain(next, EmptyRoutes(p.vehicles)[v])
  {
    var chains := EmptyRoutes(p.vehicles);
    forall v | 0 <= v < |chains|
      ensures IsChain(next, chains[v])
    {
      assert Veh(p.vehicles[v]) in VehicleNodes(p);
    }
  }

  lemma EmptySlots(p: Problem)
    requires DistinctVehicles(p)
    ensures var chains := EmptyRoutes(p.vehicles);
      forall v, w, k, l {:trigger Slot(chains, v, k), Slot(chains, w, l)} ::
        0 <= v < w < |chains| && 0 <= k < |chains[v]| && 0 <= l < |chains[w]| ==> Slot(chains, v, k) != Slot(chains, w, l)
  {
    var chains := EmptyRoutes(p.vehicles);
    forall v, w, k, l | 0 <= v < w < |chains| && 0 <= k < |chains[v]| && 0 <= l < |chains[w]|
      ensures Slot(chains, v, k) != Slot(chains, w, l)
    {
      assert VehicleAt(p, v) != VehicleAt(p, w);
    }
  }

  lemma EmptyClosed(p: Problem, next: Successors)
    requires next.Keys == VehicleNodes(p) && forall x :: x in next ==> next[x] == End
    ensures Closed(p, next)
  {
    forall i | 0 <= i < |p.vehicles|
      ensures Veh(p.vehicles[i]) in next
    {
      assert Veh(p.vehicles[i]) in VehicleNodes(p);
    }
  }

  lemma EmptyPaired(p: Problem)
    ensures Paired(p, EmptyRoutes(p.vehicles))
  {
    var chains := EmptyRoutes(p.vehicles);
    forall v | 0 <= v < |chains|
      ensures PairedRoute(chains[v], p.vehicles[v].capacity)
    {
      assert |chains[v]| == 1;
    }
  }

  /** Replacing route v by one holding the same labels and the set s more adds exactly s to NodesOf. */
  lemma {:induction false} NodesOfGrow(chains: seq<seq<Node>>, v: nat, c: seq<Node>, s: set<Node>)
    requires v < |chains| && Elems(c) == Elems(chains[v]) + s
    ensures NodesOf(chains[v := c]) == NodesOf(chains) + s
  {
    var n := |chains| - 1;
    var chains' := chains[v := c];
    assert chains'[..n] == if v < n then chains[..n][v := c] else chains[..n];
    if v < n {
      NodesOfGrow(chains[..n], v, c, s);
    }
  }

  /**
   * Pushing a new pickup/delivery pair at the head of route v, as the
   * construction does for each task, keeps the map encoding the routes.
   */
  lemma PushPair(p: Problem, next: Successors, chains: seq<seq<Node>>, v: nat, t: Task)
    requires Encodes(p, next, chains) && v < |chains| && Pick(t) !in next && Del(t) !in next
    ensures var h := Veh(p.vehicles[v]);
      var next' := next[h := Pick(t)][Pick(t) := Del(t)][Del(t) := next[h]];
      Encodes(p, next', chains[v := [h, Pick(t), Del(t)] + chains[v][1..]])
  {
    var h := Veh(p.vehicles[v]);
    var next' := next[h := Pick(t)][Pick(t) := Del(t)][Del(t) := next[h]];
    var c := chains[v];
    var c' := [h, Pick(t), Del(t)] + c[1..];
    var chains' := chains[v := c'];
    assert IsChain(next, c) && c[0] == h;
    PushedChain(next, c, t);
    forall w | 0 <= w < |chains| && w != v
      ensures IsChain(next', chains[w])
    {
      OtherChain(p, next, chains, v, w, t);
    }
    forall w, u, k, l | 0 <= w < u < |chains'| && 0 <= k < |chains'[w]| && 0 <= l < |chains'[u]|
      ensures Slot(chains', w, k) != Slot(chains', u, l)
    {
      PushedSlots(p, next, chains, v, t, w, u, k, l);
    }
    assert Elems(c') == Elems(c) + {Pick(t), Del(t)} by {
      assert c == [h] + c[1..];
    }
    NodesOfGrow(chains, v, c', {Pick(t), Del(t)});
  }

  lemma PushedChain(next: Successors, c: seq<Node>, t: Task)
    requires IsChain(next, c) && Pick(t) !in next && Del(t) !in next
    ensures var h := c[0];
      IsChain(next[h := Pick(t)][Pick(t) := Del(t)][Del(t) := next[h]], [h, Pick(t), Del(t)] + c[1..])
  {
    var h := c[0];
    var next' := next[h := Pick(t)][Pick(t) := Del(t)][Del(t) := next[h]];
    var c' := [h, Pick(t), Del(t)] + c[1..];
    forall j | 0 <= j < |c'|
      ensures c'[j] in next' && next'[c'[j]] == At(c', j + 1)
    {
      if j >= 3 {
        assert Pos(c, 0) != Pos(c, j - 2);
        assert c'[j] == c[j - 2] && c[j - 2] != h;
        assert next[c[j - 2]] == At(c, j - 1);
      } else if j == 2 {
        assert next[c[0]] == At(c, 1);
      }
    }
    forall i, j | 0 <= i < j < |c'|
      ensures Pos(c', i) != Pos(c', j)
    {
      if i >= 3 {
        assert Pos(c, i - 2) != Pos(c, j - 2);
        assert c'[i] == c[i - 2] && c'[j] == c[j - 2];
      } else if j >= 3 {
        assert c'[j] == c[j - 2] && c[j - 2] in next;
        if i == 0 {
          assert Pos(c, 0) != Pos(c, j - 2);
        }
      }
    }
  }

  lemma OtherChain(p: Problem, next: Successors, chains: seq<seq<Node>>, v: nat, w: nat, t: Task)
    requires Encodes(p, next, chains) && v < |chains| && w < |chains| && w != v && Pick(t) !in next && Del(t) !in next
    ensures var h := Veh(p.vehicles[v]);
      IsChain(next[h := Pick(t)][Pick(t) := Del(t)][Del(t) := next[h]], chains[w])
  {
    var h := Veh(p.vehicles[v]);
    var next' := next[h := Pick(t)][Pick(t) := Del(t)][Del(t) := next[h]];
    var c := chains[w];
    assert IsChain(next, c);
    forall j | 0 <= j < |c|
      ensures c[j] in next' && next'[c[j]] == At(c, j + 1)
    {
      if v < w {
        assert Slot(chains, v, 0) != Slot(chains, w, j);
      } else {
        assert Slot(chains, w, j) != Slot(chains, v, 0);
      }
      assert next[c[j]] == At(c, j + 1);
    }
  }

  lemma PushedSlots(p: Problem, next: Successors, chains: seq<seq<Node>>, v: nat, t: Task, w: nat, u: nat, k: nat, l: nat)
    requires Encodes(p, next, chains) && v < |chains| && Pick(t) !in next && Del(t) !in next
    requires var chains' := chains[v := [Veh(p.vehicles[v]), Pick(t), Del(t)] + chains[v][1..]];
      w < u < |chains'| && k < |chains'[w]| && l < |chains'[u]|
    ensures var chains' := chains[v := [Veh(p.vehicles[v]), Pick(t), Del(t)] + chains[v][1..]];
      Slot(chains', w, k) != Slot(chains', u, l)
  {
    var chains' := chains[v := [Veh(p.vehicles[v]), Pick(t), Del(t)] + chains[v][1..]];
    // Each slot of chains' is a slot of chains, or one of the new labels.
    var k0 := if w == v then (if k == 0 then 0 else if k <= 2 then -1 else k - 2) else k;
    var l0 := if u == v then (if l == 0 then 0 else if l <= 2 then -1 else l - 2) else l;
    if k0 >= 0 && l0 >= 0 {
      assert Slot(chains', w, k) == Slot(chains, w, k0);
      assert Slot(chains', u, l) == Slot(chains, u, l0);
      assert Slot(chains, w, k0) != Slot(chains, u, l0);
    } else if k0 < 0 {
      assert Slot(chains', w, k) in {Pick(t), Del(t)};
      assert chains[u][l0] in next;
    } else {
      assert Slot(chains', u, l) in {Pick(t), Del(t)};
      assert chains[w][k0] in next;
    }
  }

  lemma PushPaired(p: Problem, chains: seq<seq<Node>>, v: nat, t: Task)
    requires |chains| == |p.vehicles| && Paired(p, chains) && v < |chains| && |chains[v]| > 0
    requires t.weight <= p.vehicles[v].capacity
    ensures Paired(p, chains[v := [chains[v][0], Pick(t), Del(t)] + chains[v][1..]])
  {
    var c := chains[v];
    var c' := [c[0], Pick(t), Del(t)] + c[1..];
    assert PairedRoute(c, p.vehicles[v].capacity);
    forall j | 1 <= j < |c'| && j % 2 == 1
      ensures PairAt(c', j, p.vehicles[v].capacity)
    {
      if j >= 3 {
        assert PairAt(c, j - 2, p.vehicles[v].capacity);
        assert c'[j] == c[j - 2] && c'[j + 1] == c[j - 1];
      }
    }
  }

  lemma PushClosed(p: Problem, next: Successors, h: Node, t: Task)
    requires Closed(p, next) && h in next && t in p.tasks
    ensures Closed(p, next[h := Pick(t)][Pick(t) := Del(t)][Del(t) := next[h]])
  {
    var next' := next[h := Pick(t)][Pick(t) := Del(t)][Del(t) := next[h]];
    forall x | x in next'
      ensures next'[x] == End || (next'[x] in next' && !next'[x].Veh?)
      ensures x.Pick? || x.Del? ==> x.task in p.tasks
    {
      assert next[h] == next[h];
      if x in next {
        assert next[x] == next[x];
      }
    }
  }

  /** A task not yet handled has no label in the map. */
  lemma NotPlacedYet(p: Problem, order: seq<int>, k: nat)
    requires DistinctTasks(p) && multiset(order) == multiset(Range(|p.tasks|)) && k < |order|
    ensures 0 <= order[k] < |p.tasks|
    ensures Pick(p.tasks[order[k]]) !in Placed(p, order[..k]) && Del(p.tasks[order[k]]) !in Placed(p, order[..k])
    ensures Placed(p, order[..k + 1]) == Placed(p, order[..k]) + {Pick(p.tasks[order[k]]), Del(p.tasks[order[k]])}
  {
    PermutationOfRange(order, |p.tasks|);
    assert order[k] in order;
    forall i | i in order[..k] && 0 <= i < |p.tasks|
      ensures p.tasks[i] != p.tasks[order[k]]
    {
      var m :| 0 <= m < k && order[m] == i;
      assert TaskAt(p, i) != TaskAt(p, order[k]);
    }
    assert order[..k + 1] == order[..k] + [order[k]];
  }

  lemma AllPlaced(p: Problem, order: seq<int>)
    requires multiset(order) == multiset(Range(|p.tasks|))
    ensures Placed(p, order) == TaskNodes(p)
  {
    PermutationOfRange(order, |p.tasks|);
    forall x | x in TaskNodes(p)
      ensures x in Placed(p, order)
    {
      var i :| 0 <= i < |p.tasks| && (x == Pick(p.tasks[i]) || x == Del(p.tasks[i]));
      assert i in order;
    }
  }

  /** Some vehicle can carry task i. */
  predicate HasCapable(p: Problem, i: int) {
    0 <= i < |p.tasks| && Capable(p.vehicles, p.tasks[i].weight) != []
  }

  lemma AllCapable(p: Problem, order: seq<int>)
    requires multiset(order) == multiset(Range(|p.tasks|))
    requires forall m :: 0 <= m < |order| ==> 0 <= order[m] < |p.tasks| && HasCapable(p, order[m])
    ensures forall i :: 0 <= i < |p.tasks| ==> HasCapable(p, i)
  {
    PermutationOfRange(order, |p.tasks|);
    forall i | 0 <= i < |p.tasks|
      ensures HasCapable(p, i)
    {
      assert i in order;
    }
  }

  /** Past the head, the labels at even positions of a paired route are deliveries. */
  lemma EvenIsDelivery(c: seq<Node>, capacity: int, j: nat)
    requires PairedRoute(c, capacity) && 2 <= j < |c|
    ensures j % 2 == 0 ==> c[j].Del?
  {
    if j % 2 == 0 {
      assert (j - 1) % 2 == 1;
      assert PairAt(c, j - 1, capacity);
    }
  }

  /** In a paired route every pickup is followed by its own delivery. */
  lemma PairedRouteSuccessor(next: Successors, c: seq<Node>, capacity: int, j: nat)
    requires IsChain(next, c) && PairedRoute(c, capacity) && 1 <= j < |c| && c[j].Pick?
    ensures next[c[j]] == Del(c[j].task)
  {
    if j >= 2 {
      EvenIsDelivery(c, capacity, j);
    }
    assert j % 2 == 1;
    assert PairAt(c, j, capacity);
    assert next[c[j]] == At(c, j + 1);
  }

  lemma PairedSuccessor(p: Problem, next: Successors, chains: seq<seq<Node>>, t: Task)
    requires Encodes(p, next, chains) && Paired(p, chains) && Pick(t) in next
    ensures next[Pick(t)] == Del(t)
  {
    var v, j := FindSlot(p, next, chains, Pick(t));
    assert IsChain(next, chains[v]) && PairedRoute(chains[v], p.vehicles[v].capacity);
    assert chains[v][0].Veh?;
    PairedRouteSuccessor(next, chains[v], p.vehicles[v].capacity, j);
  }

  /** The map from every vehicle's label to an end marker: each vehicle's route is empty. */
  method EmptyAssignment(p: Problem) returns (next: Successors)
    ensures next.Keys == VehicleNodes(p) && forall x :: x in next ==> next[x] == End
  {
    next := map[];
    for v := 0 to |p.vehicles|
      invariant next.Keys == set i | 0 <= i < v :: Veh(p.vehicles[i])
      invariant forall x :: x in next ==> next[x] == End
    {
      next := next[Veh(p.vehicles[v]) := End];
    }
    forall x | x in VehicleNodes(p)
      ensures x in next
    {
      var w :| w in p.vehicles && x == Veh(w);
      var i :| 0 <= i < |p.vehicles| && p.vehicles[i] == w;
    }
  }

  /** One step of the construction's loop keeps its invariant. */
  lemma PushStep(p: Problem, next: Successors, chains: seq<seq<Node>>, order: seq<int>, k: nat, v: nat)
    requires DistinctTasks(p) && multiset(order) == multiset(Range(|p.tasks|)) && k < |order|
    requires Encodes(p, next, chains) && Closed(p, next) && Paired(p, chains)
    requires next.Keys == VehicleNodes(p) + Placed(p, order[..k])
    requires 0 <= order[k] < |p.tasks| && v < |p.vehicles| && p.tasks[order[k]].weight <= p.vehicles[v].capacity
    ensures var t := p.tasks[order[k]];
      var h := Veh(p.vehicles[v]);
      var next' := next[h := Pick(t)][Pick(t) := Del(t)][Del(t) := next[h]];
      var chains' := chains[v := [h, Pick(t), Del(t)] + chains[v][1..]];
      && Encodes(p, next', chains') && Closed(p, next') && Paired(p, chains')
      && next'.Keys == VehicleNodes(p) + Placed(p, order[..k + 1])
  {
    NotPlacedYet(p, order, k);
    var t := p.tasks[order[k]];
    var h := Veh(p.vehicles[v]);
    assert Pick(t) !in VehicleNodes(p) && Del(t) !in VehicleNodes(p);
    PushPair(p, next, chains, v, t);
    assert chains[v][0] == h;
    PushPaired(p, chains, v, t);
    assert h in VehicleNodes(p);
    PushClosed(p, next, h, t);
  }

  /** The loop of the construction: the tasks' pairs pushed in the given order. */
  method PushAll(p: Problem, empty: Successors, order: seq<int>) returns (r: Option<Successors>, ghost chains: seq<seq<Node>>)
    requires DistinctTasks(p) && DistinctVehicles(p)
    requires empty.Keys == VehicleNodes(p) && forall x :: x in empty ==> empty[x] == End
    requires multiset(order) == multiset(Range(|p.tasks|))
    ensures r.None? ==> exists i :: 0 <= i < |p.tasks| && !HasCapable(p, i)
    ensures r.Some? ==> forall m :: 0 <= m < |order| ==> HasCapable(p, order[m])
    ensures r.Some? ==> Encodes(p, r.value, chains) && Closed(p, r.value) && Paired(p, chains)
    ensures r.Some? ==> r.value.Keys == VehicleNodes(p) + Placed(p, order)
  {
    var next := empty;
    chains := EmptyRoutes(p.vehicles);
    EmptyEncodes(p, next);
    EmptyPaired(p);
    assert order[..0] == [];
    for k := 0 to |order|
      invariant Encodes(p, next, chains) && Closed(p, next) && Paired(p, chains)
      invariant next.Keys == VehicleNodes(p) + Placed(p, order[..k])
      invariant forall m :: 0 <= m < k ==> HasCapable(p, order[m])
    {
      NotPlacedYet(p, order, k);
      var t := p.tasks[order[k]];
      var vehicle := RandomVehicleWithCapacityAtLeast(p, t.weight);
      if vehicle.None? {
        assert !HasCapable(p, order[k]);
        return None, chains;
      }
      assert HasCapable(p, order[k]);
      ghost var v :| 0 <= v < |p.vehicles| && p.vehicles[v] == vehicle.value;
      var h := Veh(vehicle.value);
      var current := next[h];
      PushStep(p, next, chains, order, k, v);
      next := next[h := Pick(t)][Pick(t) := Del(t)][Del(t) := current];
      chains := chains[v := [h, Pick(t), Del(t)] + chains[v][1..]];
      forall m | 0 <= m < k + 1
        ensures HasCapable(p, order[m])
      {
        if m == k {
          assert HasCapable(p, order[k]);
        }
      }
    }
    assert order[..|order|] == order;
    return Some(next), chains;
  }

  /**
   * The initial assignment: every vehicle's route starts empty, then, for
   * the tasks in a random order, the task's pickup and delivery are pushed
   * at the head of a random vehicle able to carry it.  None where the
   * source throws because some task fits no vehicle.
   */
  method InitialAssignment(p: Problem) returns (r: Option<Successors>, ghost chains: seq<seq<Node>>)
    requires DistinctTasks(p) && DistinctVehicles(p)
    ensures r.None? <==> exists i :: 0 <= i < |p.tasks| && !HasCapable(p, i)
    ensures r.Some? ==> WellFormed(p, r.value) && Encodes(p, r.value, chains) && Paired(p, chains)
    ensures r.Some? ==> forall t :: t in p.tasks ==> r.value[Pick(t)] == Del(t)
  {
    var next := EmptyAssignment(p);
    var order := RandomIndices(|p.tasks|);
    r, chains := PushAll(p, next, order);
    if r.Some? {
      PermutationOfRange(order, |p.tasks|);
      AllPlaced(p, order);
      AllCapable(p, order);
      forall t | t in p.tasks
        ensures r.value[Pick(t)] == Del(t)
      {
        assert Pick(t) in TaskNodes(p);
        PairedSuccessor(p, r.value, chains, t);
      }
    }
  }

  // ---------------------------------------------------------------------------
  // The initial assignment is feasible
  // ---------------------------------------------------------------------------

  /** Before every pickup of a paired route the vehicle is empty. */
  lemma {:induction false} PairedLoad(c: seq<Node>, capacity: int, j: nat)
    requires PairedRoute(c, capacity) && |c| > 0 && c[0].Veh? && j <= |c| && j % 2 == 1
    ensures Load(c[..j]) == 0
  {
    if j == 1 {
      assert c[..1][..0] == [];
    } else {
      PairedLoad(c, capacity, j - 2);
      assert (j - 2) % 2 == 1;
      assert PairAt(c, j - 2, capacity);
      assert c[..j][..j - 1] == c[..j - 1];
      assert c[..j - 1][..j - 2] == c[..j - 2];
    }
  }

  /** Every check the evaluator makes at a position of a paired route passes. */
  lemma PairedStep(p: Problem, chains: seq<seq<Node>>, v: nat, j: nat)
    requires Layout(p, chains) && Paired(p, chains) && v < |chains| && j < |chains[v]|
    ensures StepOK(p, chains, v, j)
  {
    var c := chains[v];
    var capacity := p.vehicles[v].capacity;
    assert PairedRoute(c, capacity);
    if j > 0 && j % 2 == 1 {
      assert PairAt(c, j, capacity);
      NotSeenYet(p, chains, v, j);
      NotSeenYet(p, chains, v, j + 1);
      PairedLoad(c, capacity, j);
      assert c[..j + 1] == c[..j] + [c[j]];
      assert Load(c[..j + 1]) == Load(c[..j]) + c[j].task.weight by {
        assert c[..j + 1][..j] == c[..j];
      }
    } else if j > 0 {
      assert (j - 1) % 2 == 1;
      assert PairAt(c, j - 1, capacity);
      assert c[..j][j - 1] == c[j - 1];
    }
  }

  /**
   * A paired encoding passes every check of the evaluator: its cost is
   * finite, the sum over vehicles of route length times cost per kilometre.
   */
  lemma PairedCost(p: Problem, succ: Successors, chains: seq<seq<Node>>)
    requires WellFormed(p, succ) && Encodes(p, succ, chains) && Paired(p, chains) && DistinctIds(p)
    ensures CostOf(p, succ, Ids(p)) == Fin(RoutesCost(p, chains, 0))
  {
    LayoutOf(p, succ, chains);
    forall v, k | 0 <= v < |chains| && 0 <= k < |chains[v]|
      ensures StepOK(p, chains, v, k)
    {
      PairedStep(p, chains, v, k);
    }
    CostOfRoutes(p, succ, chains);
  }

  /**
   * An assignment `initialAssignment` can return: well formed, and every
   * route a run of pickup-delivery pairs that fit the vehicle.
   */
  ghost predicate Initial(p: Problem, succ: Successors) {
    WellFormed(p, succ) && exists chains :: Encodes(p, succ, chains) && Paired(p, chains)
  }

  /** An initial assignment is feasible: the evaluator gives it a finite cost. */
  lemma InitialFeasible(p: Problem, succ: Successors)
    requires Initial(p, succ) && DistinctIds(p)
    ensures CostOf(p, succ, Ids(p)).Fin?
  {
    var chains :| Encodes(p, succ, chains) && Paired(p, chains);
    PairedCost(p, succ, chains);
  }

  /** Every assignment in xs is one the construction builds. */
  ghost predicate Initials(p: Problem, xs: seq<Successors>) {
    forall k {:trigger Initial(p, xs[k])} :: 0 <= k < |xs| ==> Initial(p, xs[k])
  }

  /** An assignment the construction built, with the chains it encodes, joins the list. */
  lemma InitialsSnoc(p: Problem, xs: seq<Successors>, s: Successors, chains: seq<seq<Node>>)
    requires Initials(p, xs) && WellFormed(p, s) && Encodes(p, s, chains) && Paired(p, chains)
    ensures Initials(p, xs + [s]) && (xs + [s])[|xs|] == s
  {
    var xs' := xs + [s];
    forall k | 0 <= k < |xs'|
      ensures Initial(p, xs'[k])
    {
      if k < |xs| {
        assert xs'[k] == xs[k] && Initial(p, xs[k]);
      } else {
        assert xs'[k] == s;
      }
    }
  }

  /**
   * A local search that starts from an initial assignment and keeps the
   * cheapest assignment it visits ends with a finite cost, when the
   * evaluator counts exactly the problem's task ids.
   */
  lemma BestFeasible(p: Problem, keys: set<int>, best: Successors, bestCost: Cost, visited: seq<Successors>, bests: seq<Cost>,
                     initials: seq<Successors>)
    requires Tracked(p, keys, best, bestCost, visited, bests) && Initials(p, initials)
    requires visited != [] && initials != [] && visited[0] == initials[0]
    requires DistinctIds(p) && Ids(p) == keys
    ensures bestCost.Fin?
  {
    assert visited[0] in visited && NoCheaper(p, keys, bestCost, visited[0]) && Initial(p, initials[0]);
    InitialFeasible(p, initials[0]);
  }
}
