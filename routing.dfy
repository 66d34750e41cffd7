/**
 * The pickup-and-delivery routing model shared by both local-search solvers.
 *
 * A candidate solution is nothing but a successor map from routing labels to
 * routing labels.  Each vehicle's route is the chain that starts at its
 * vehicle label and follows the map until the end marker.  Labels carry the
 * vehicle or task they stand for, as the source's label objects do.
 */
module Routing {

  /** A result that may be missing, where the source throws instead. */
  datatype Option<T> = None | Some(value: T)

  /** A city of the topology, identified by its index. */
  type City = nat

  datatype Vehicle = Vehicle(id: int, home: City, capacity: int, costPerKm: nat)

  datatype Task = Task(id: int, pickupCity: City, deliveryCity: City, weight: int)

  /** The four label variants: a vehicle's route head, a pickup, a delivery, the end of a route. */
  datatype Node = Veh(vehicle: Vehicle) | Pick(task: Task) | Del(task: Task) | End

  /** Vehicles and tasks of one solve, with the topology's distance function. */
  datatype Problem = Problem(vehicles: seq<Vehicle>, tasks: seq<Task>, dist: (City, City) -> nat)

  /** An assignment: the successor of every label that is not an end marker. */
  type Successors = map<Node, Node>

  /** The load change a label causes: +weight at a pickup, -weight at a delivery. */
  function WeightChange(x: Node): (w: int)
    ensures x.Pick? ==> w == x.task.weight
    ensures x.Del? ==> w == -x.task.weight
    ensures x.Veh? || x.End? ==> w == 0
  {
    match x
    case Pick(t) => t.weight
    case Del(t) => -t.weight
    case _ => 0
  }

  function CityOf(x: Node): City
    requires !x.End?
  {
    match x
    case Veh(v) => v.home
    case Pick(t) => t.pickupCity
    case Del(t) => t.deliveryCity
  }

  /** Distance of the hop from x to its successor y; the hop into the end marker is free. */
  function Hop(p: Problem, x: Node, y: Node): (d: nat)
    ensures x == End || y == End ==> d == 0
    ensures x != End && y != End ==> d == p.dist(CityOf(x), CityOf(y))
  {
    if x == End || y == End then 0 else p.dist(CityOf(x), CityOf(y))
  }

  /** What the hop from x to y costs a vehicle paying cpk per kilometre. */
  function HopCost(p: Problem, x: Node, y: Node, cpk: nat): nat {
    Hop(p, x, y) * cpk
  }

  function VehicleNodes(p: Problem): set<Node> {
    set v | v in p.vehicles :: Veh(v)
  }

  function TaskNodes(p: Problem): set<Node> {
    (set t | t in p.tasks :: Pick(t)) + (set t | t in p.tasks :: Del(t))
  }

  /** Every label of the problem: the keys of every assignment the solvers build. */
  function AllNodes(p: Problem): set<Node> {
    VehicleNodes(p) + TaskNodes(p)
  }

  function Ids(p: Problem): set<int> {
    set t | t in p.tasks :: t.id
  }

  /** No two tasks share an id: the status map then has one entry per task. */
  predicate DistinctIds(p: Problem) {
    forall i, j {:trigger TaskAt(p, i), TaskAt(p, j)} ::
      0 <= i < |p.tasks| && 0 <= j < |p.tasks| && TaskAt(p, i).id == TaskAt(p, j).id ==> TaskAt(p, i) == TaskAt(p, j)
  }

  /** The tasks come from a set: no task is listed twice. */
  predicate DistinctTasks(p: Problem) {
    forall i, j {:trigger TaskAt(p, i), TaskAt(p, j)} ::
      0 <= i < |p.tasks| && 0 <= j < |p.tasks| && TaskAt(p, i) == TaskAt(p, j) ==> i == j
  }

  /** The vehicles come from a list without repetition. */
  predicate DistinctVehicles(p: Problem) {
    forall i, j {:trigger VehicleAt(p, i), VehicleAt(p, j)} ::
      0 <= i < |p.vehicles| && 0 <= j < |p.vehicles| && VehicleAt(p, i) == VehicleAt(p, j) ==> i == j
  }

  // Distinctness is stated over these terms so that it is only instantiated
  // where a proof names a position.
  function TaskAt(p: Problem, i: nat): Task
    requires i < |p.tasks|
  {
    p.tasks[i]
  }

  function VehicleAt(p: Problem, i: nat): Vehicle
    requires i < |p.vehicles|
  {
    p.vehicles[i]
  }

  /**
   * What walking the chains relies on: every vehicle label is a key, every
   * successor is the end marker or a non-vehicle key (so a walk never
   * re-enters a vehicle label), and every task
   * label stands for a task of the problem.
   */
  predicate Closed(p: Problem, succ: Successors) {
    && (forall i :: 0 <= i < |p.vehicles| ==> Veh(p.vehicles[i]) in succ)
    && forall x {:trigger succ[x]} :: x in succ ==>
      && (succ[x] == End || (succ[x] in succ && !succ[x].Veh?))
      && (x.Pick? || x.Del? ==> x.task in p.tasks)
  }

  /** The shape every assignment of the solvers has: its keys are all labels, and it is closed. */
  predicate WellFormed(p: Problem, succ: Successors) {
    succ.Keys == AllNodes(p) && Closed(p, succ)
  }

  lemma TaskKey(p: Problem, succ: Successors, x: Node)
    requires Closed(p, succ) && x in succ && (x.Pick? || x.Del?)
    ensures x.task in p.tasks
  {
    assert succ[x] == succ[x];
  }

  /** A label of the problem that is a pickup or delivery stands for one of its tasks. */
  lemma TaskLabel(p: Problem, x: Node)
    requires x in AllNodes(p) && (x.Pick? || x.Del?)
    ensures x.task in p.tasks
  {
    assert x in TaskNodes(p);
  }

  // ---------------------------------------------------------------------------
  // Routes as explicit chains
  // ---------------------------------------------------------------------------

  function Elems(c: seq<Node>): set<Node> {
    set x | x in c
  }

  /** All labels on the given chains. */
  function NodesOf(chains: seq<seq<Node>>): set<Node> {
    if chains == [] then {} else NodesOf(chains[..|chains| - 1]) + Elems(chains[|chains| - 1])
  }

  /** The label after position j of chain c, or the end marker after its last label. */
  function At(c: seq<Node>, j: nat): Node {
    if j < |c| then c[j] else End
  }

  /** c is a route of succ: it starts at a key, follows succ, visits no label twice and stops at End. */
  predicate IsChain(succ: Successors, c: seq<Node>) {
    && |c| > 0
    && (forall j :: 0 <= j < |c| ==> c[j] in succ)
    && (forall j {:trigger succ[c[j]]} :: 0 <= j < |c| ==> succ[c[j]] == At(c, j + 1))
    && (forall j :: 1 <= j < |c| ==> c[j].Pick? || c[j].Del?)
    && (forall i, j {:trigger Pos(c, i), Pos(c, j)} :: 0 <= i < j < |c| ==> Pos(c, i) != Pos(c, j))
  }

  /**
   * Position j of chain c.  Distinctness within a route is stated over Pos
   * terms so that it is only instantiated where a proof names a position.
   */
  function Pos(c: seq<Node>, j: nat): Node
    requires j < |c|
  {
    c[j]
  }

  /**
   * Position k of route v.  Distinctness across routes is stated over Slot
   * terms so that it is only instantiated where a proof names a slot.
   */
  function Slot(chains: seq<seq<Node>>, v: nat, k: nat): Node
    requires v < |chains| && k < |chains[v]|
  {
    chains[v][k]
  }

  /**
   * succ is exactly the given routes, one per vehicle in the vehicles' order:
   * route v starts at vehicle v's label, routes share no label, and every
   * key of succ lies on some route.
   */
  predicate Encodes(p: Problem, succ: Successors, chains: seq<seq<Node>>) {
    && |chains| == |p.vehicles|
    && (forall v :: 0 <= v < |chains| ==> IsChain(succ, chains[v]) && chains[v][0] == Veh(p.vehicles[v]))
    && (forall v, w, k, l {:trigger Slot(chains, v, k), Slot(chains, w, l)} ::
          0 <= v < w < |chains| && 0 <= k < |chains[v]| && 0 <= l < |chains[w]| ==> Slot(chains, v, k) != Slot(chains, w, l))
    && NodesOf(chains) == succ.Keys
  }

  lemma NodesOfSnoc(chains: seq<seq<Node>>, v: nat)
    requires v < |chains|
    ensures NodesOf(chains[..v + 1]) == NodesOf(chains[..v]) + Elems(chains[v])
  {
    assert chains[..v + 1][..v] == chains[..v];
  }

  lemma NodesOfAll(chains: seq<seq<Node>>)
    ensures NodesOf(chains[..|chains|]) == NodesOf(chains)
  {
    assert chains[..|chains|] == chains;
  }

  /** A label lies in NodesOf(chains[..v]) exactly when some earlier chain holds it. */
  lemma {:induction false} InNodesOf(chains: seq<seq<Node>>, v: nat, x: Node)
    requires v <= |chains|
    ensures x in NodesOf(chains[..v]) <==> exists w :: 0 <= w < v && x in chains[w]
  {
    if v > 0 {
      NodesOfSnoc(chains, v - 1);
      InNodesOf(chains, v - 1, x);
    } else {
      assert chains[..0] == [];
    }
  }

  /** The label reached from x after n hops along succ; a walk that reaches a non-key (the end marker) stays there. */
  function Advance(succ: Successors, x: Node, n: nat): Node {
    if n == 0 then x
    else
      var y := Advance(succ, x, n - 1);
      if y in succ then succ[y] else y
  }

  /** A walk of k + 1 hops from x is a walk of k hops from the label after x. */
  lemma {:induction false} AdvanceFront(succ: Successors, x: Node, k: nat)
    requires x in succ
    ensures Advance(succ, x, k + 1) == Advance(succ, succ[x], k)
  {
    if k > 0 {
      AdvanceFront(succ, x, k - 1);
    }
  }

  /** Every key of an encoding map lies at some position of some route. */
  lemma FindSlot(p: Problem, succ: Successors, chains: seq<seq<Node>>, x: Node) returns (v: nat, j: nat)
    requires Encodes(p, succ, chains) && x in succ
    ensures v < |chains| && j < |chains[v]| && chains[v][j] == x
  {
    InNodesOf(chains, |chains|, x);
    NodesOfAll(chains);
    v :| 0 <= v < |chains| && x in chains[v];
    j :| 0 <= j < |chains[v]| && chains[v][j] == x;
  }

  /** No label of route v lies on an earlier route. */
  lemma EarlierDisjoint(p: Problem, succ: Successors, chains: seq<seq<Node>>, v: nat)
    requires Encodes(p, succ, chains) && v < |chains|
    ensures NodesOf(chains[..v]) !! Elems(chains[v])
  {
    forall x | x in Elems(chains[v])
      ensures x !in NodesOf(chains[..v])
    {
      var k :| 0 <= k < |chains[v]| && chains[v][k] == x;
      forall w, l | 0 <= w < v && 0 <= l < |chains[w]|
        ensures chains[w][l] != x
      {
        assert Slot(chains, w, l) != Slot(chains, v, k);
      }
      InNodesOf(chains, v, x);
    }
  }
  // ---------------------------------------------------------------------------
  // The splice both `move` operators perform
  // ---------------------------------------------------------------------------

  /**
   * Takes the pickup after bp and the delivery after bd out of their chain:
   * bp is linked to what followed the pickup and bd to what followed the
   * delivery, or, when the delivery directly follows the pickup, bp to what
   * followed the delivery.  The pickup and delivery keep their entries.
   */
  function Unlink(succ: Successors, bp: Node, bd: Node): (m: Successors)
    requires bp in succ && bd in succ && succ[bp] in succ && succ[bd] in succ
    ensures m.Keys == succ.Keys
    ensures forall x :: x in succ && x != bp && x != bd ==> m[x] == succ[x]
    ensures succ[bp] == bd ==> m[bp] == succ[succ[bd]]
    ensures succ[bp] != bd && bp != bd ==> m[bp] == succ[succ[bp]] && m[bd] == succ[succ[bd]]
  {
    var pickup := succ[bp];
    var delivery := succ[bd];
    if pickup == bd then succ[bp := succ[delivery]]
    else succ[bp := succ[pickup]][bd := succ[delivery]]
  }

  /**
   * Splices pickup and delivery back in after the anchors nbp and nbd of m:
   * nbp -> pickup -> (old successor of nbp) ... nbd -> delivery -> (old
   * successor of nbd), or nbp -> pickup -> delivery -> (old successor of
   * nbp) when both anchors are the same label.
   */
  function Relink(m: Successors, pickup: Node, delivery: Node, nbp: Node, nbd: Node): (r: Successors)
    requires nbp in m && nbd in m && pickup in m && delivery in m
    ensures r.Keys == m.Keys
    ensures forall x :: x in m && x != nbp && x != nbd && x != pickup && x != delivery ==> r[x] == m[x]
  {
    var newAfterPickup := m[nbp];
    var newAfterDelivery := m[nbd];
    var r := m[nbp := pickup][delivery := newAfterDelivery];
    if nbp == nbd then r[pickup := delivery]
    else r[pickup := newAfterPickup][nbd := delivery]
  }

  /**
   * With anchors distinct from the moved labels, the relinked map reads
   * nbp -> pickup and delivery -> (old successor of nbd); the pickup is
   * followed by the delivery when the anchors coincide, and otherwise by the
   * old successor of nbp, with nbd -> delivery.
   */
  lemma RelinkReads(m: Successors, pickup: Node, delivery: Node, nbp: Node, nbd: Node)
    requires nbp in m && nbd in m && pickup in m && delivery in m
    requires pickup != delivery && nbp !in {pickup, delivery} && nbd !in {pickup, delivery}
    ensures var r := Relink(m, pickup, delivery, nbp, nbd);
      && r[nbp] == pickup
      && r[delivery] == m[nbd]
      && (nbp == nbd ==> r[pickup] == delivery)
      && (nbp != nbd ==> r[pickup] == m[nbp] && r[nbd] == delivery)
  {
  }

  lemma UnlinkClosed(p: Problem, succ: Successors, bp: Node, bd: Node)
    requires Closed(p, succ) && bp in succ && bd in succ && succ[bp] in succ && succ[bd] in succ
    ensures Closed(p, Unlink(succ, bp, bd))
  {
    var m := Unlink(succ, bp, bd);
    assert succ[succ[bp]] == succ[succ[bp]] && succ[succ[bd]] == succ[succ[bd]];
    forall x | x in m
      ensures m[x] == End || (m[x] in m && !m[x].Veh?)
      ensures x.Pick? || x.Del? ==> x.task in p.tasks
    {
      assert succ[x] == succ[x];
    }
  }

  lemma RelinkKeepsClosed(p: Problem, m: Successors, pickup: Node, delivery: Node, nbp: Node, nbd: Node)
    requires Closed(p, m) && nbp in m && nbd in m && pickup in m && delivery in m
    requires !pickup.Veh? && !delivery.Veh?
    ensures Closed(p, Relink(m, pickup, delivery, nbp, nbd))
  {
    var r := Relink(m, pickup, delivery, nbp, nbd);
    assert m[nbp] == m[nbp] && m[nbd] == m[nbd];
    forall x | x in r
      ensures r[x] == End || (r[x] in r && !r[x].Veh?)
      ensures x.Pick? || x.Del? ==> x.task in p.tasks
    {
      assert m[x] == m[x];
    }
  }

  /** The splice keeps an assignment closed: nothing is linked to a vehicle label and no key appears or disappears. */
  lemma RelinkClosed(p: Problem, succ: Successors, bp: Node, bd: Node, nbp: Node, nbd: Node)
    requires Closed(p, succ)
    requires bp in succ && bd in succ && succ[bp] in succ && succ[bd] in succ && nbp in succ && nbd in succ
    ensures var r := Relink(Unlink(succ, bp, bd), succ[bp], succ[bd], nbp, nbd);
      r.Keys == succ.Keys && Closed(p, r)
  {
    UnlinkClosed(p, succ, bp, bd);
    assert succ[bp] == succ[bp] && succ[bd] == succ[bd];
    RelinkKeepsClosed(p, Unlink(succ, bp, bd), succ[bp], succ[bd], nbp, nbd);
  }
}
