/**
 * The local-search solver of the centralized agent
 * (centralized/src/template/ConstraintOptimizationProblem.java).  It shares
 * the routing model, the evaluator and the initial assignment with the
 * auction solver; it differs in its neighbourhood: one task drawn at
 * random is taken out of its route and put back at every position of every
 * route whose load admits it, and every neighbour is accepted.
 *
 * The evaluator's status map is keyed by 0 .. n-1, so task ids are assumed
 * to be exactly those indices.  Random draws are nondeterministic choices,
 * the wall-clock budget is an iteration count, and walks along a route stop
 * after as many hops as there are labels.
 */
module CentralizedSolver {
  import opened Routing
  import opened CostEval
  import Collections
  import Construction

  /** The status keys of the centralized evaluator. */
  function TaskIndices(n: nat): set<int> {
    set k | k in Construction.Range(n)
  }

  /** The status keys are exactly 0 .. n-1. */
  lemma TaskIndicesMembers(n: nat)
    ensures forall i :: i in TaskIndices(n) <==> 0 <= i < n
  {
    var r := Construction.Range(n);
    forall i
      ensures i in TaskIndices(n) <==> 0 <= i < n
    {
      if 0 <= i < n {
        assert r[i] == i;
      }
      if i in TaskIndices(n) {
        var j :| 0 <= j < |r| && r[j] == i;
      }
    }
  }

  /** What the evaluator's keys assume: every task id is an index of the task list. */
  predicate DenseIds(p: Problem) {
    Ids(p) <= TaskIndices(|p.tasks|)
  }

  // ---------------------------------------------------------------------------
  // move
  // ---------------------------------------------------------------------------

  /**
   * The capacity test of `move`.  The source admits a position only when the
   * load through the anchor plus the task's weight is strictly below the
   * capacity (`inclusive` false); the evaluator rejects a load only when it
   * exceeds the capacity, so the corrected test (`inclusive` true) admits
   * equality.
   */
  predicate Admits(load: int, weight: int, capacity: int, inclusive: bool) {
    if inclusive then load + weight <= capacity else load + weight < capacity
  }

  /**
   * The innermost loop of `move`: the pair goes after nbp and its delivery
   * after nbd, for nbd walked forward from its current value up to and
   * including the last label of the route, except for the pair of anchors
   * the task was taken from.
   */
  function DeliveryPlacements(p: Problem, m: Successors, pickup: Node, delivery: Node, bp: Node, bd: Node,
                              nbp: Node, nbd: Node, fuel: nat): seq<Successors>
    requires Closed(p, m) && pickup in m && delivery in m && nbp in m && (nbd == End || nbd in m)
    decreases fuel
  {
    if fuel == 0 || nbd == End then []
    else
      (if nbd != bd || nbp != bp then [Relink(m, pickup, delivery, nbp, nbd)] else [])
      + DeliveryPlacements(p, m, pickup, delivery, bp, bd, nbp, m[nbd], fuel - 1)
  }

  /**
   * The middle loop of `move`: nbp walks a route from its vehicle label up
   * to and including its last label, accumulating the load through nbp; the
   * delivery positions after nbp are tried when the capacity test admits the
   * task's weight on top of that load.
   */
  function PickupPlacements(p: Problem, m: Successors, pickup: Node, delivery: Node, bp: Node, bd: Node,
                            capacity: int, nbp: Node, load: int, fuel: nat, inclusive: bool): seq<Successors>
    requires Closed(p, m) && pickup in m && delivery in m && (nbp == End || nbp in m)
    decreases fuel
  {
    if fuel == 0 || nbp == End then []
    else
      var through := load + WeightChange(nbp);
      (if Admits(through, WeightChange(pickup), capacity, inclusive)
       then DeliveryPlacements(p, m, pickup, delivery, bp, bd, nbp, nbp, |m|) else [])
      + PickupPlacements(p, m, pickup, delivery, bp, bd, capacity, m[nbp], through, fuel - 1, inclusive)
  }

  /** The outer loop of `move`: the routes of the vehicles from index v on, in order. */
  function Placements(p: Problem, m: Successors, pickup: Node, delivery: Node, bp: Node, bd: Node, v: nat, inclusive: bool): seq<Successors>
    requires Closed(p, m) && pickup in m && delivery in m && v <= |p.vehicles|
    decreases |p.vehicles| - v
  {
    if v == |p.vehicles| then []
    else
      var w := VehicleAt(p, v);
      PickupPlacements(p, m, pickup, delivery, bp, bd, w.capacity, Veh(w), 0, |m|, inclusive)
      + Placements(p, m, pickup, delivery, bp, bd, v + 1, inclusive)
  }

  /**
   * All relocations of the task whose pickup follows bp and whose delivery
   * follows bd: the pair is unlinked once, and every admitted position of
   * every route gives a relinked copy of the unlinked plan.
   */
  function Relocations(p: Problem, succ: Successors, bp: Node, bd: Node, inclusive: bool): seq<Successors>
    requires Closed(p, succ) && bp in succ && bd in succ && succ[bp] in succ && succ[bd] in succ
  {
    UnlinkClosed(p, succ, bp, bd);
    Placements(p, Unlink(succ, bp, bd), succ[bp], succ[bd], bp, bd, 0, inclusive)
  }

  /** The load after the label x and the j labels that follow it, starting from load. */
  function LoadThrough(m: Successors, x: Node, load: int, j: nat): int
    decreases j
  {
    var through := load + WeightChange(x);
    if j == 0 then through else LoadThrough(m, if x in m then m[x] else x, through, j - 1)
  }

  /**
   * r is the plan m with the pair put back after the anchors a and b, which
   * are labels of m other than the pair of anchors the task came from.
   */
  predicate PlacedAt(m: Successors, pickup: Node, delivery: Node, bp: Node, bd: Node, a: Node, b: Node, r: Successors) {
    a in m && b in m && pickup in m && delivery in m && (b != bd || a != bp) && r == Relink(m, pickup, delivery, a, b)
  }

  /** Every delivery placement puts the delivery after a label b, k hops on from nbd, other than the old pair of anchors. */
  lemma {:induction false} DeliveryPlacementWitness(p: Problem, m: Successors, pickup: Node, delivery: Node, bp: Node, bd: Node,
                                                    nbp: Node, nbd: Node, fuel: nat, r: Successors) returns (k: nat, b: Node)
    requires Closed(p, m) && pickup in m && delivery in m && nbp in m && (nbd == End || nbd in m)
    requires r in DeliveryPlacements(p, m, pickup, delivery, bp, bd, nbp, nbd, fuel)
    ensures k < fuel && b == Advance(m, nbd, k) && PlacedAt(m, pickup, delivery, bp, bd, nbp, b, r)
    decreases fuel
  {
    var found: seq<Successors> := if nbd != bd || nbp != bp then [Relink(m, pickup, delivery, nbp, nbd)] else [];
    var rest := DeliveryPlacements(p, m, pickup, delivery, bp, bd, nbp, m[nbd], fuel - 1);
    assert DeliveryPlacements(p, m, pickup, delivery, bp, bd, nbp, nbd, fuel) == found + rest;
    if r in found {
      k, b := 0, nbd;
    } else {
      var k';
      k', b := DeliveryPlacementWitness(p, m, pickup, delivery, bp, bd, nbp, m[nbd], fuel - 1, r);
      AdvanceFront(m, nbd, k');
      k := k' + 1;
    }
  }

  /** One hop more at the front of a walk: the anchor and the load through it are those of the walk from the next label. */
  lemma ShiftAnchor(m: Successors, nbp: Node, load: int, j: nat)
    requires nbp in m
    ensures Advance(m, nbp, j + 1) == Advance(m, m[nbp], j)
    ensures LoadThrough(m, nbp, load, j + 1) == LoadThrough(m, m[nbp], load + WeightChange(nbp), j)
  {
    AdvanceFront(m, nbp, j);
  }

  /**
   * Every placement along a route puts the pickup after a label a, j hops
   * on from nbp, whose load through it passes the capacity test, and the
   * delivery after a label b, k hops further on.
   */
  lemma {:induction false} PickupPlacementWitness(p: Problem, m: Successors, pickup: Node, delivery: Node, bp: Node, bd: Node,
                                                  capacity: int, nbp: Node, load: int, fuel: nat, inclusive: bool, r: Successors)
      returns (j: nat, a: Node, k: nat, b: Node)
    requires Closed(p, m) && pickup in m && delivery in m && (nbp == End || nbp in m)
    requires r in PickupPlacements(p, m, pickup, delivery, bp, bd, capacity, nbp, load, fuel, inclusive)
    ensures j < fuel && a == Advance(m, nbp, j) && a in m
    ensures Admits(LoadThrough(m, nbp, load, j), WeightChange(pickup), capacity, inclusive)
    ensures b == Advance(m, a, k) && PlacedAt(m, pickup, delivery, bp, bd, a, b, r)
    decreases fuel
  {
    PickupPlacementsStarted(p, m, pickup, delivery, bp, bd, capacity, nbp, load, fuel, inclusive, r);
    var here;
    here, k, b := PlacementSplit(p, m, pickup, delivery, bp, bd, capacity, nbp, load, fuel, inclusive, r);
    if here {
      j, a := 0, nbp;
    } else {
      var j';
      var through := load + WeightChange(nbp);
      j', a, k, b := PickupPlacementWitness(p, m, pickup, delivery, bp, bd, capacity, m[nbp], through, fuel - 1, inclusive, r);
      ShiftAnchor(m, nbp, load, j');
      j := j' + 1;
      assert LoadThrough(m, nbp, load, j) == LoadThrough(m, m[nbp], through, j');
    }
  }

  /**
   * A placement along the route from nbp is made at nbp itself, with the
   * delivery k hops on, or is one of the placements further along.
   */
  lemma PlacementSplit(p: Problem, m: Successors, pickup: Node, delivery: Node, bp: Node, bd: Node,
                       capacity: int, nbp: Node, load: int, fuel: nat, inclusive: bool, r: Successors)
      returns (here: bool, k: nat, b: Node)
    requires Closed(p, m) && pickup in m && delivery in m && nbp != End && nbp in m && fuel > 0
    requires r in PickupPlacements(p, m, pickup, delivery, bp, bd, capacity, nbp, load, fuel, inclusive)
    ensures here ==> Admits(LoadThrough(m, nbp, load, 0), WeightChange(pickup), capacity, inclusive)
    ensures here ==> nbp == Advance(m, nbp, 0) && b == Advance(m, nbp, k) && PlacedAt(m, pickup, delivery, bp, bd, nbp, b, r)
    ensures !here ==> m[nbp] == End || m[nbp] in m
    ensures !here ==> r in PickupPlacements(p, m, pickup, delivery, bp, bd, capacity, m[nbp], load + WeightChange(nbp), fuel - 1, inclusive)
  {
    here := Admits(load + WeightChange(nbp), WeightChange(pickup), capacity, inclusive)
            && r in DeliveryPlacements(p, m, pickup, delivery, bp, bd, nbp, nbp, |m|);
    if here {
      k, b := PlacementHere(p, m, pickup, delivery, bp, bd, capacity, nbp, load, inclusive, r);
    } else {
      k, b := 0, nbp;
      PickupPlacementsRest(p, m, pickup, delivery, bp, bd, capacity, nbp, load, fuel, inclusive, r);
    }
  }

  /** A placement not made at nbp itself is one of the placements further along the route. */
  lemma PickupPlacementsRest(p: Problem, m: Successors, pickup: Node, delivery: Node, bp: Node, bd: Node,
                             capacity: int, nbp: Node, load: int, fuel: nat, inclusive: bool, r: Successors)
    requires Closed(p, m) && pickup in m && delivery in m && nbp != End && nbp in m && fuel > 0
    requires r in PickupPlacements(p, m, pickup, delivery, bp, bd, capacity, nbp, load, fuel, inclusive)
    requires !(Admits(load + WeightChange(nbp), WeightChange(pickup), capacity, inclusive)
               && r in DeliveryPlacements(p, m, pickup, delivery, bp, bd, nbp, nbp, |m|))
    ensures m[nbp] == End || m[nbp] in m
    ensures r in PickupPlacements(p, m, pickup, delivery, bp, bd, capacity, m[nbp], load + WeightChange(nbp), fuel - 1, inclusive)
  {
    PickupPlacementsStep(p, m, pickup, delivery, bp, bd, capacity, nbp, load, fuel, inclusive);
    var here := if Admits(load + WeightChange(nbp), WeightChange(pickup), capacity, inclusive)
                then DeliveryPlacements(p, m, pickup, delivery, bp, bd, nbp, nbp, |m|) else [];
    Collections.InConcatRight(here, PickupPlacements(p, m, pickup, delivery, bp, bd, capacity, m[nbp], load + WeightChange(nbp), fuel - 1, inclusive), r);
  }

  /** A placement made at nbp itself: the anchor is nbp, and the load through it is the one tested. */
  lemma PlacementHere(p: Problem, m: Successors, pickup: Node, delivery: Node, bp: Node, bd: Node,
                      capacity: int, nbp: Node, load: int, inclusive: bool, r: Successors) returns (k: nat, b: Node)
    requires Closed(p, m) && pickup in m && delivery in m && nbp in m
    requires Admits(load + WeightChange(nbp), WeightChange(pickup), capacity, inclusive)
    requires r in DeliveryPlacements(p, m, pickup, delivery, bp, bd, nbp, nbp, |m|)
    ensures nbp == Advance(m, nbp, 0)
    ensures Admits(LoadThrough(m, nbp, load, 0), WeightChange(pickup), capacity, inclusive)
    ensures b == Advance(m, nbp, k) && PlacedAt(m, pickup, delivery, bp, bd, nbp, b, r)
  {
    k, b := DeliveryPlacementWitness(p, m, pickup, delivery, bp, bd, nbp, nbp, |m|, r);
  }

  /** A route that yields a placement has fuel and a label left at nbp. */
  lemma PickupPlacementsStarted(p: Problem, m: Successors, pickup: Node, delivery: Node, bp: Node, bd: Node,
                                capacity: int, nbp: Node, load: int, fuel: nat, inclusive: bool, r: Successors)
    requires Closed(p, m) && pickup in m && delivery in m && (nbp == End || nbp in m)
    requires r in PickupPlacements(p, m, pickup, delivery, bp, bd, capacity, nbp, load, fuel, inclusive)
    ensures fuel > 0 && nbp != End && nbp in m
  {
  }

  /** One step of the walk for the pickup. */
  lemma PickupPlacementsStep(p: Problem, m: Successors, pickup: Node, delivery: Node, bp: Node, bd: Node,
                             capacity: int, nbp: Node, load: int, fuel: nat, inclusive: bool)
    requires Closed(p, m) && pickup in m && delivery in m && nbp != End && nbp in m && fuel > 0
    ensures m[nbp] == End || m[nbp] in m
    ensures PickupPlacements(p, m, pickup, delivery, bp, bd, capacity, nbp, load, fuel, inclusive)
         == (if Admits(load + WeightChange(nbp), WeightChange(pickup), capacity, inclusive)
             then DeliveryPlacements(p, m, pickup, delivery, bp, bd, nbp, nbp, |m|) else [])
            + PickupPlacements(p, m, pickup, delivery, bp, bd, capacity, m[nbp], load + WeightChange(nbp), fuel - 1, inclusive)
  {
  }

  /**
   * Every placement puts the pickup after a label a of vehicle v's route,
   * j hops from the vehicle label, where the load through a passes the
   * capacity test, and the delivery after a label b, k hops further on.
   */
  lemma {:induction false} PlacementWitness(p: Problem, m: Successors, pickup: Node, delivery: Node, bp: Node, bd: Node,
                                            inclusive: bool, r: Successors, v0: nat)
      returns (v: nat, j: nat, a: Node, k: nat, b: Node)
    requires Closed(p, m) && pickup in m && delivery in m && v0 <= |p.vehicles|
    requires r in Placements(p, m, pickup, delivery, bp, bd, v0, inclusive)
    ensures v0 <= v < |p.vehicles|
    ensures a == Advance(m, Veh(p.vehicles[v]), j) && b == Advance(m, a, k)
    ensures Admits(LoadThrough(m, Veh(p.vehicles[v]), 0, j), WeightChange(pickup), p.vehicles[v].capacity, inclusive)
    ensures PlacedAt(m, pickup, delivery, bp, bd, a, b, r)
    decreases |p.vehicles| - v0
  {
    var w := VehicleAt(p, v0);
    var here := PickupPlacements(p, m, pickup, delivery, bp, bd, w.capacity, Veh(w), 0, |m|, inclusive);
    var later := Placements(p, m, pickup, delivery, bp, bd, v0 + 1, inclusive);
    assert Placements(p, m, pickup, delivery, bp, bd, v0, inclusive) == here + later;
    if r in here {
      v := v0;
      j, a, k, b := PickupPlacementWitness(p, m, pickup, delivery, bp, bd, w.capacity, Veh(w), 0, |m|, inclusive, r);
    } else {
      v, j, a, k, b := PlacementWitness(p, m, pickup, delivery, bp, bd, inclusive, r, v0 + 1);
    }
  }

  /** Every relocation is well formed, and differs from the unlinked plan only at its anchors and the moved pair. */
  lemma RelocationsWellFormed(p: Problem, succ: Successors, bp: Node, bd: Node, inclusive: bool)
    requires WellFormed(p, succ) && bp in succ && bd in succ && succ[bp] in succ && succ[bd] in succ
    ensures AllWellFormed(p, Relocations(p, succ, bp, bd, inclusive))
  {
    forall r | r in Relocations(p, succ, bp, bd, inclusive)
      ensures WellFormed(p, r)
    {
      UnlinkClosed(p, succ, bp, bd);
      var v, j, a, k, b := PlacementWitness(p, Unlink(succ, bp, bd), succ[bp], succ[bd], bp, bd, inclusive, r, 0);
      RelinkClosed(p, succ, bp, bd, a, b);
    }
  }

  /** The innermost loop, walking nbd. */
  method DeliveryLoop(p: Problem, m: Successors, pickup: Node, delivery: Node, bp: Node, bd: Node, nbp: Node)
      returns (assignments: seq<Successors>)
    requires Closed(p, m) && pickup in m && delivery in m && nbp in m
    ensures assignments == DeliveryPlacements(p, m, pickup, delivery, bp, bd, nbp, nbp, |m|)
  {
    assignments := [];
    var nbd := nbp;
    var fuel: nat := |m|;
    Collections.ConcatEmpty(DeliveryPlacements(p, m, pickup, delivery, bp, bd, nbp, nbp, |m|));
    while fuel > 0 && nbd != End
      invariant nbd == End || nbd in m
      invariant assignments + DeliveryPlacements(p, m, pickup, delivery, bp, bd, nbp, nbd, fuel)
        == DeliveryPlacements(p, m, pickup, delivery, bp, bd, nbp, nbp, |m|)
    {
      var found: seq<Successors> := if nbd != bd || nbp != bp then [Relink(m, pickup, delivery, nbp, nbd)] else [];
      var rest := DeliveryPlacements(p, m, pickup, delivery, bp, bd, nbp, m[nbd], fuel - 1);
      assert DeliveryPlacements(p, m, pickup, delivery, bp, bd, nbp, nbd, fuel) == found + rest;
      Collections.ConcatAssoc(assignments, found, rest);
      assignments := assignments + found;
      nbd := m[nbd];
      fuel := fuel - 1;
    }
  }

  /** The middle loop, walking nbp along one vehicle's route with its load. */
  method PickupLoop(p: Problem, m: Successors, pickup: Node, delivery: Node, bp: Node, bd: Node, w: Vehicle, inclusive: bool)
      returns (assignments: seq<Successors>)
    requires Closed(p, m) && pickup in m && delivery in m && Veh(w) in m
    ensures assignments == PickupPlacements(p, m, pickup, delivery, bp, bd, w.capacity, Veh(w), 0, |m|, inclusive)
  {
    assignments := [];
    var nbp := Veh(w);
    var load := 0;
    var fuel: nat := |m|;
    Collections.ConcatEmpty(PickupPlacements(p, m, pickup, delivery, bp, bd, w.capacity, Veh(w), 0, |m|, inclusive));
    while fuel > 0 && nbp != End
      invariant nbp == End || nbp in m
      invariant assignments + PickupPlacements(p, m, pickup, delivery, bp, bd, w.capacity, nbp, load, fuel, inclusive)
        == PickupPlacements(p, m, pickup, delivery, bp, bd, w.capacity, Veh(w), 0, |m|, inclusive)
    {
      load := load + WeightChange(nbp);
      var found: seq<Successors> := [];
      if Admits(load, WeightChange(pickup), w.capacity, inclusive) {
        found := DeliveryLoop(p, m, pickup, delivery, bp, bd, nbp);
      }
      var rest := PickupPlacements(p, m, pickup, delivery, bp, bd, w.capacity, m[nbp], load, fuel - 1, inclusive);
      assert PickupPlacements(p, m, pickup, delivery, bp, bd, w.capacity, nbp, load - WeightChange(nbp), fuel, inclusive) == found + rest;
      Collections.ConcatAssoc(assignments, found, rest);
      assignments := assignments + found;
      nbp := m[nbp];
      fuel := fuel - 1;
    }
  }

  /**
   * `move`: the task is unlinked, then every vehicle's route is walked for
   * positions, with the capacity test `inclusive` selects (see Admits).
   */
  method Move(p: Problem, succ: Successors, bp: Node, bd: Node, inclusive: bool) returns (assignments: seq<Successors>)
    requires Closed(p, succ) && bp in succ && bd in succ && succ[bp] in succ && succ[bd] in succ
    ensures assignments == Relocations(p, succ, bp, bd, inclusive)
  {
    var pickup := succ[bp];
    var delivery := succ[bd];
    var newPlan := Unlink(succ, bp, bd);
    UnlinkClosed(p, succ, bp, bd);
    assignments := [];
    var v := 0;
    Collections.ConcatEmpty(Placements(p, newPlan, pickup, delivery, bp, bd, 0, inclusive));
    while v < |p.vehicles|
      invariant v <= |p.vehicles|
      invariant assignments + Placements(p, newPlan, pickup, delivery, bp, bd, v, inclusive)
        == Placements(p, newPlan, pickup, delivery, bp, bd, 0, inclusive)
    {
      var found := PickupLoop(p, newPlan, pickup, delivery, bp, bd, p.vehicles[v], inclusive);
      var rest := Placements(p, newPlan, pickup, delivery, bp, bd, v + 1, inclusive);
      assert Placements(p, newPlan, pickup, delivery, bp, bd, v, inclusive) == found + rest;
      Collections.ConcatAssoc(assignments, found, rest);
      assignments := assignments + found;
      v := v + 1;
    }
  }

  /**
   * On a route that is empty once the task is unlinked, the only position
   * is right after the vehicle label, and it is offered exactly when the
   * capacity test admits the task's weight on an empty vehicle.
   */
  lemma EmptyRoutePlacements(p: Problem, m: Successors, pickup: Node, delivery: Node, bp: Node, bd: Node, w: Vehicle, inclusive: bool)
    requires Closed(p, m) && pickup in m && delivery in m && Veh(w) in m && m[Veh(w)] == End
    requires Veh(w) != bp || Veh(w) != bd
    ensures PickupPlacements(p, m, pickup, delivery, bp, bd, w.capacity, Veh(w), 0, |m|, inclusive)
      == if Admits(0, WeightChange(pickup), w.capacity, inclusive) then [Relink(m, pickup, delivery, Veh(w), Veh(w))] else []
  {
    assert |m| > 0;
    assert DeliveryPlacements(p, m, pickup, delivery, bp, bd, Veh(w), End, |m| - 1) == [];
    assert PickupPlacements(p, m, pickup, delivery, bp, bd, w.capacity, End, 0, |m| - 1, inclusive) == [];
  }

  // ---------------------------------------------------------------------------
  // neighbors
  // ---------------------------------------------------------------------------

  /**
   * The inner walk of `neighbors`: bd walks on from the pickup while a label
   * follows it; each bd followed by a delivery of the same task id gives
   * the relocations of the task taken from after bp and bd.
   */
  function DeliverySearch(p: Problem, succ: Successors, bp: Node, bd: Node, fuel: nat, inclusive: bool): seq<Successors>
    requires Closed(p, succ) && bp in succ && succ[bp].Pick? && succ[bp] in succ && bd in succ
    decreases fuel
  {
    if fuel == 0 || succ[bd] == End then []
    else
      (if succ[bd].Del? && succ[bd].task.id == succ[bp].task.id then Relocations(p, succ, bp, bd, inclusive) else [])
      + DeliverySearch(p, succ, bp, succ[bd], fuel - 1, inclusive)
  }

  /** The middle walk of `neighbors`: bp walks a route; where the drawn pickup follows bp, its delivery is searched for. */
  function PickupSearch(p: Problem, succ: Successors, target: Node, bp: Node, fuel: nat, inclusive: bool): seq<Successors>
    requires Closed(p, succ) && target.Pick? && bp in succ
    decreases fuel
  {
    if fuel == 0 || succ[bp] == End then []
    else
      (if succ[bp] == target then DeliverySearch(p, succ, bp, succ[bp], |succ|, inclusive) else [])
      + PickupSearch(p, succ, target, succ[bp], fuel - 1, inclusive)
  }

  /** The outer walk of `neighbors`: the routes of the vehicles from index v on, in order. */
  function Search(p: Problem, succ: Successors, target: Node, v: nat, inclusive: bool): seq<Successors>
    requires Closed(p, succ) && target.Pick? && v <= |p.vehicles|
    decreases |p.vehicles| - v
  {
    if v == |p.vehicles| then []
    else
      PickupSearch(p, succ, target, Veh(VehicleAt(p, v)), |succ|, inclusive) + Search(p, succ, target, v + 1, inclusive)
  }

  /** Every plan of a list is well formed. */
  predicate AllWellFormed(p: Problem, rs: seq<Successors>) {
    forall r :: r in rs ==> WellFormed(p, r)
  }

  /** Two lists of well-formed plans put together. */
  lemma AllWellFormedConcat(p: Problem, xs: seq<Successors>, ys: seq<Successors>)
    requires AllWellFormed(p, xs) && AllWellFormed(p, ys)
    ensures AllWellFormed(p, xs + ys)
  {
  }

  /** One step of the inner walk. */
  lemma DeliverySearchStep(p: Problem, succ: Successors, bp: Node, bd: Node, fuel: nat, inclusive: bool)
    requires Closed(p, succ) && bp in succ && succ[bp].Pick? && succ[bp] in succ && bd in succ
    requires fuel > 0 && succ[bd] != End
    ensures succ[bd] in succ
    ensures DeliverySearch(p, succ, bp, bd, fuel, inclusive)
         == (if succ[bd].Del? && succ[bd].task.id == succ[bp].task.id then Relocations(p, succ, bp, bd, inclusive) else [])
            + DeliverySearch(p, succ, bp, succ[bd], fuel - 1, inclusive)
  {
  }

  /** Every neighbour found by the inner walk is a relocation of the task from after bp and after some label x. */
  lemma {:induction false} DeliverySearchSource(p: Problem, succ: Successors, bp: Node, bd: Node, fuel: nat, inclusive: bool, r: Successors)
      returns (x: Node)
    requires Closed(p, succ) && bp in succ && succ[bp].Pick? && succ[bp] in succ && bd in succ
    requires r in DeliverySearch(p, succ, bp, bd, fuel, inclusive)
    ensures x in succ && succ[x] in succ && r in Relocations(p, succ, bp, x, inclusive)
    decreases fuel
  {
    DeliverySearchStarted(p, succ, bp, bd, fuel, inclusive, r);
    DeliverySearchStep(p, succ, bp, bd, fuel, inclusive);
    var here := if succ[bd].Del? && succ[bd].task.id == succ[bp].task.id then Relocations(p, succ, bp, bd, inclusive) else [];
    var rest := DeliverySearch(p, succ, bp, succ[bd], fuel - 1, inclusive);
    if r in here {
      x := bd;
    } else {
      Collections.InConcatRight(here, rest, r);
      x := DeliverySearchSource(p, succ, bp, succ[bd], fuel - 1, inclusive, r);
    }
  }

  /** An inner walk that finds a neighbour has fuel and a label left after bd. */
  lemma DeliverySearchStarted(p: Problem, succ: Successors, bp: Node, bd: Node, fuel: nat, inclusive: bool, r: Successors)
    requires Closed(p, succ) && bp in succ && succ[bp].Pick? && succ[bp] in succ && bd in succ
    requires r in DeliverySearch(p, succ, bp, bd, fuel, inclusive)
    ensures fuel > 0 && succ[bd] != End
  {
  }

  /** Every neighbour found by the inner walk is well formed. */
  lemma DeliverySearchWellFormed(p: Problem, succ: Successors, bp: Node, bd: Node, fuel: nat, inclusive: bool)
    requires WellFormed(p, succ) && bp in succ && succ[bp].Pick? && succ[bp] in succ && bd in succ
    ensures AllWellFormed(p, DeliverySearch(p, succ, bp, bd, fuel, inclusive))
  {
    forall r | r in DeliverySearch(p, succ, bp, bd, fuel, inclusive)
      ensures WellFormed(p, r)
    {
      var x := DeliverySearchSource(p, succ, bp, bd, fuel, inclusive, r);
      RelocationsWellFormed(p, succ, bp, x, inclusive);
    }
  }

  /** One step of the middle walk. */
  lemma PickupSearchStep(p: Problem, succ: Successors, target: Node, bp: Node, fuel: nat, inclusive: bool)
    requires Closed(p, succ) && target.Pick? && bp in succ
    requires fuel > 0 && succ[bp] != End
    ensures succ[bp] in succ
    ensures PickupSearch(p, succ, target, bp, fuel, inclusive)
         == (if succ[bp] == target then DeliverySearch(p, succ, bp, succ[bp], |succ|, inclusive) else [])
            + PickupSearch(p, succ, target, succ[bp], fuel - 1, inclusive)
  {
  }

  /** A middle walk that finds a neighbour has fuel and a label left after bp. */
  lemma PickupSearchStarted(p: Problem, succ: Successors, target: Node, bp: Node, fuel: nat, inclusive: bool, r: Successors)
    requires Closed(p, succ) && target.Pick? && bp in succ
    requires r in PickupSearch(p, succ, target, bp, fuel, inclusive)
    ensures fuel > 0 && succ[bp] != End
  {
  }

  /** Every neighbour found along a route comes from the inner walk after some label x followed by the task. */
  lemma {:induction false} PickupSearchSource(p: Problem, succ: Successors, target: Node, bp: Node, fuel: nat, inclusive: bool, r: Successors)
      returns (x: Node)
    requires Closed(p, succ) && target.Pick? && bp in succ
    requires r in PickupSearch(p, succ, target, bp, fuel, inclusive)
    ensures x in succ && succ[x] == target && succ[x] in succ
    ensures r in DeliverySearch(p, succ, x, succ[x], |succ|, inclusive)
    decreases fuel
  {
    PickupSearchStarted(p, succ, target, bp, fuel, inclusive, r);
    PickupSearchStep(p, succ, target, bp, fuel, inclusive);
    var here := if succ[bp] == target then DeliverySearch(p, succ, bp, succ[bp], |succ|, inclusive) else [];
    var rest := PickupSearch(p, succ, target, succ[bp], fuel - 1, inclusive);
    if r in here {
      x := bp;
    } else {
      Collections.InConcatRight(here, rest, r);
      x := PickupSearchSource(p, succ, target, succ[bp], fuel - 1, inclusive, r);
    }
  }

  /** Every neighbour found along a route is well formed. */
  lemma PickupSearchWellFormed(p: Problem, succ: Successors, target: Node, bp: Node, fuel: nat, inclusive: bool)
    requires WellFormed(p, succ) && target.Pick? && bp in succ
    ensures AllWellFormed(p, PickupSearch(p, succ, target, bp, fuel, inclusive))
  {
    forall r | r in PickupSearch(p, succ, target, bp, fuel, inclusive)
      ensures WellFormed(p, r)
    {
      var x := PickupSearchSource(p, succ, target, bp, fuel, inclusive, r);
      DeliverySearchWellFormed(p, succ, x, succ[x], |succ|, inclusive);
    }
  }

  /** Every neighbour is well formed. */
  lemma {:induction false} SearchWellFormed(p: Problem, succ: Successors, target: Node, v: nat, inclusive: bool)
    requires WellFormed(p, succ) && target.Pick? && v <= |p.vehicles|
    ensures AllWellFormed(p, Search(p, succ, target, v, inclusive))
    decreases |p.vehicles| - v
  {
    if v < |p.vehicles| {
      PickupSearchWellFormed(p, succ, target, Veh(VehicleAt(p, v)), |succ|, inclusive);
      SearchWellFormed(p, succ, target, v + 1, inclusive);
      AllWellFormedConcat(p, PickupSearch(p, succ, target, Veh(VehicleAt(p, v)), |succ|, inclusive),
                          Search(p, succ, target, v + 1, inclusive));
    }
  }

  /** The inner walk. */
  method DeliverySearchLoop(p: Problem, succ: Successors, bp: Node, inclusive: bool) returns (neighbors: seq<Successors>)
    requires Closed(p, succ) && bp in succ && succ[bp].Pick? && succ[bp] in succ
    ensures neighbors == DeliverySearch(p, succ, bp, succ[bp], |succ|, inclusive)
  {
    neighbors := [];
    var bd := succ[bp];
    var fuel: nat := |succ|;
    Collections.ConcatEmpty(DeliverySearch(p, succ, bp, bd, fuel, inclusive));
    while fuel > 0 && succ[bd] != End
      invariant bd in succ
      invariant neighbors + DeliverySearch(p, succ, bp, bd, fuel, inclusive) == DeliverySearch(p, succ, bp, succ[bp], |succ|, inclusive)
    {
      var candidate := succ[bd];
      var found: seq<Successors> := [];
      if candidate.Del? && candidate.task.id == succ[bp].task.id {
        found := Move(p, succ, bp, bd, inclusive);
      }
      var rest := DeliverySearch(p, succ, bp, candidate, fuel - 1, inclusive);
      assert DeliverySearch(p, succ, bp, bd, fuel, inclusive) == found + rest;
      Collections.ConcatAssoc(neighbors, found, rest);
      neighbors := neighbors + found;
      bd := candidate;
      fuel := fuel - 1;
    }
  }

  /** The middle walk. */
  method PickupSearchLoop(p: Problem, succ: Successors, target: Node, w: Vehicle, inclusive: bool) returns (neighbors: seq<Successors>)
    requires Closed(p, succ) && target.Pick? && Veh(w) in succ
    ensures neighbors == PickupSearch(p, succ, target, Veh(w), |succ|, inclusive)
  {
    neighbors := [];
    var bp := Veh(w);
    var fuel: nat := |succ|;
    Collections.ConcatEmpty(PickupSearch(p, succ, target, bp, fuel, inclusive));
    while fuel > 0 && succ[bp] != End
      invariant bp in succ
      invariant neighbors + PickupSearch(p, succ, target, bp, fuel, inclusive) == PickupSearch(p, succ, target, Veh(w), |succ|, inclusive)
    {
      var found: seq<Successors> := [];
      if succ[bp] == target {
        found := DeliverySearchLoop(p, succ, bp, inclusive);
      }
      var rest := PickupSearch(p, succ, target, succ[bp], fuel - 1, inclusive);
      assert PickupSearch(p, succ, target, bp, fuel, inclusive) == found + rest;
      Collections.ConcatAssoc(neighbors, found, rest);
      neighbors := neighbors + found;
      bp := succ[bp];
      fuel := fuel - 1;
    }
  }

  /**
   * `neighbors`: a task is drawn and every relocation of it is listed.  With
   * no task to draw the source fails, which is None here.
   */
  method Neighbors(p: Problem, succ: Successors, inclusive: bool) returns (r: Option<seq<Successors>>, ghost target: Node)
    requires WellFormed(p, succ)
    ensures r.None? <==> |p.tasks| == 0
    ensures r.Some? ==> target.Pick? && target.task in p.tasks && r.value == Search(p, succ, target, 0, inclusive)
  {
    if |p.tasks| == 0 {
      return None, End;
    }
    var i :| 0 <= i < |p.tasks|;
    var randomPickup := Pick(p.tasks[i]);
    target := randomPickup;
    var neighbors := [];
    var v := 0;
    Collections.ConcatEmpty(Search(p, succ, randomPickup, 0, inclusive));
    while v < |p.vehicles|
      invariant v <= |p.vehicles|
      invariant neighbors + Search(p, succ, randomPickup, v, inclusive) == Search(p, succ, randomPickup, 0, inclusive)
    {
      var found := PickupSearchLoop(p, succ, randomPickup, p.vehicles[v], inclusive);
      var rest := Search(p, succ, randomPickup, v + 1, inclusive);
      assert Search(p, succ, randomPickup, v, inclusive) == found + rest;
      Collections.ConcatAssoc(neighbors, found, rest);
      neighbors := neighbors + found;
      v := v + 1;
    }
    return Some(neighbors), target;
  }

  // ---------------------------------------------------------------------------
  // The capacity test, on an instance
  // ---------------------------------------------------------------------------

  /** One vehicle of capacity 10 and one task of weight 10, everything in city 0. */
  function ExactFit(): Problem {
    Problem([Vehicle(0, 0, 10, 1)], [Task(0, 0, 0, 10)], (a: City, b: City) => 0)
  }

  /** The only assignment of ExactFit: the vehicle picks the task up and delivers it. */
  function ExactFitPlan(): Successors {
    var w, t := Vehicle(0, 0, 10, 1), Task(0, 0, 0, 10);
    map[Veh(w) := Pick(t), Pick(t) := Del(t), Del(t) := End]
  }

  /** The assignment of ExactFit is well formed. */
  lemma ExactFitWellFormed()
    ensures WellFormed(ExactFit(), ExactFitPlan()) && |ExactFitPlan()| == 3
  {
    var w, t := Vehicle(0, 0, 10, 1), Task(0, 0, 0, 10);
    assert VehicleNodes(ExactFit()) == {Veh(w)};
    assert TaskNodes(ExactFit()) == {Pick(t), Del(t)};
    assert ExactFitPlan().Keys == {Veh(w), Pick(t), Del(t)};
  }

  /** Taking the task out of ExactFitPlan leaves the route empty, and putting it back restores the plan. */
  lemma ExactFitUnlinked() returns (m: Successors)
    ensures m == Unlink(ExactFitPlan(), Veh(Vehicle(0, 0, 10, 1)), Pick(Task(0, 0, 0, 10)))
    ensures m == map[Veh(Vehicle(0, 0, 10, 1)) := End, Pick(Task(0, 0, 0, 10)) := Del(Task(0, 0, 0, 10)),
                     Del(Task(0, 0, 0, 10)) := End]
    ensures Relink(m, Pick(Task(0, 0, 0, 10)), Del(Task(0, 0, 0, 10)),
                   Veh(Vehicle(0, 0, 10, 1)), Veh(Vehicle(0, 0, 10, 1))) == ExactFitPlan()
  {
    var w, t := Vehicle(0, 0, 10, 1), Task(0, 0, 0, 10);
    m := Unlink(ExactFitPlan(), Veh(w), Pick(t));
    assert m == map[Veh(w) := End, Pick(t) := Del(t), Del(t) := End];
  }

  lemma ExactFitRelocations(inclusive: bool)
    ensures WellFormed(ExactFit(), ExactFitPlan()) && |ExactFitPlan()| == 3
    ensures Relocations(ExactFit(), ExactFitPlan(), Veh(Vehicle(0, 0, 10, 1)), Pick(Task(0, 0, 0, 10)), inclusive)
      == if inclusive then [ExactFitPlan()] else []
  {
    ExactFitWellFormed();
    var p, succ := ExactFit(), ExactFitPlan();
    var w, t := Vehicle(0, 0, 10, 1), Task(0, 0, 0, 10);
    var m := ExactFitUnlinked();
    UnlinkClosed(p, succ, Veh(w), Pick(t));
    EmptyRoutePlacements(p, m, Pick(t), Del(t), Veh(w), Pick(t), w, inclusive);
    assert Placements(p, m, Pick(t), Del(t), Veh(w), Pick(t), 1, inclusive) == [];
  }

  /**
   * With the test as written (inclusive false), the task that exactly fills
   * the vehicle has no relocation at all, so `chooseNext` has nothing to
   * choose from and the source fails; with the corrected test the task is
   * offered its current position back.
   */
  lemma ExactFitNeighbors(inclusive: bool)
    ensures WellFormed(ExactFit(), ExactFitPlan())
    ensures Search(ExactFit(), ExactFitPlan(), Pick(Task(0, 0, 0, 10)), 0, inclusive)
      == if inclusive then [ExactFitPlan()] else []
  {
    ExactFitRelocations(inclusive);
    var p, succ := ExactFit(), ExactFitPlan();
    var w, t := Vehicle(0, 0, 10, 1), Task(0, 0, 0, 10);
    assert VehicleAt(p, 0) == w;
    assert DeliverySearch(p, succ, Veh(w), Del(t), 2, inclusive) == [];
    assert DeliverySearch(p, succ, Veh(w), Pick(t), 3, inclusive) == if inclusive then [succ] else [];
    assert PickupSearch(p, succ, Pick(t), Del(t), 1, inclusive) == [];
    assert PickupSearch(p, succ, Pick(t), Pick(t), 2, inclusive) == [];
    assert Search(p, succ, Pick(t), 1, inclusive) == [];
  }

  // ---------------------------------------------------------------------------
  // chooseNext and solve
  // ---------------------------------------------------------------------------

  /**
   * The minimum scan of `chooseNext`: every candidate whose cost is at most
   * the best so far replaces it, +infinity included, so the last cheapest
   * candidate is returned.  The source's branch for an equal cost follows an
   * at-most test and is never taken, which leaves one candidate to draw from.
   */
  method MinOf(p: Problem, keys: set<int>, candidates: seq<Successors>) returns (r: Option<Successors>, ghost index: nat)
    requires Ids(p) <= keys
    requires forall n :: n in candidates ==> WellFormed(p, n)
    ensures r.None? <==> candidates == []
    ensures r.Some? ==> index < |candidates| && candidates[index] == r.value
    ensures r.Some? ==> forall n :: n in candidates ==> AtMost(CostOf(p, r.value, keys), CostOf(p, n, keys))
    ensures r.Some? ==> forall j :: index < j < |candidates| ==> !AtMost(CostOf(p, candidates[j], keys), CostOf(p, r.value, keys))
  {
    r := None;
    index := 0;
    var bestCost := Inf;
    var k := 0;
    while k < |candidates|
      invariant 0 <= k <= |candidates|
      invariant r.None? <==> k == 0
      invariant r.None? ==> bestCost == Inf
      invariant r.Some? ==> index < k && candidates[index] == r.value && bestCost == CostOf(p, r.value, keys)
      invariant r.Some? ==> forall j :: 0 <= j < k ==> AtMost(bestCost, CostOf(p, candidates[j], keys))
      invariant r.Some? ==> forall j :: index < j < k ==> !AtMost(CostOf(p, candidates[j], keys), bestCost)
    {
      var c := Evaluate(p, candidates[k], keys);
      if AtMost(c, bestCost) {
        r := Some(candidates[k]);
        bestCost := c;
        index := k;
      }
      k := k + 1;
    }
    if r.Some? {
      forall n | n in candidates
        ensures AtMost(bestCost, CostOf(p, n, keys))
      {
        var j :| 0 <= j < |candidates| && candidates[j] == n;
      }
    }
  }

  /** n is one of the neighbours `neighbors` lists for succ when it draws the pickup target. */
  ghost predicate Drawn(p: Problem, succ: Successors, target: Node, n: Successors, inclusive: bool) {
    Closed(p, succ) && target.Pick? && target.task in p.tasks && n in Search(p, succ, target, 0, inclusive)
  }

  /**
   * `chooseNext`: the cheapest neighbour of the current assignment.  With no
   * task to draw, or no neighbour at all, the source fails, which is None.
   */
  method ChooseNext(p: Problem, succ: Successors, inclusive: bool) returns (r: Option<Successors>, ghost batch: seq<Successors>, ghost target: Node)
    requires WellFormed(p, succ) && DenseIds(p)
    ensures r.None? <==> batch == []
    ensures |p.tasks| > 0 ==> target.Pick? && target.task in p.tasks && batch == Search(p, succ, target, 0, inclusive)
    ensures |p.tasks| == 0 ==> r.None?
    ensures r.Some? ==> r.value in batch && WellFormed(p, r.value) && Drawn(p, succ, target, r.value, inclusive)
    ensures r.Some? ==> forall n :: n in batch ==>
      WellFormed(p, n) && AtMost(CostOf(p, r.value, TaskIndices(|p.tasks|)), CostOf(p, n, TaskIndices(|p.tasks|)))
  {
    var neighbors;
    neighbors, target := Neighbors(p, succ, inclusive);
    if neighbors.None? {
      return None, [], target;
    }
    var current := neighbors.value;
    batch := current;
    SearchWellFormed(p, succ, target, 0, inclusive);
    ghost var index;
    r, index := MinOf(p, TaskIndices(|p.tasks|), current);
  }

  /**
   * Step i of the walk of `solve`, which now stands at current: at a step
   * already taken `chooseNext` was asked for a neighbour of starts[i], drew
   * the pickup targets[i] and returned chosen[i], and the walk moved there.
   * Every step starts where the walk stood, or from one of the initial
   * assignments (the first, and those drawn at restarts); so does the next
   * one, from current.
   */
  ghost predicate Step(p: Problem, inclusive: bool, visited: seq<Successors>, starts: seq<Successors>, chosen: seq<Successors>,
                       targets: seq<Node>, initials: seq<Successors>, current: Successors, i: nat)
    requires |visited| == |starts| + 1 && |chosen| == |starts| && |targets| == |starts| && i <= |starts| && initials != []
  {
    if i < |starts| then
      && Drawn(p, starts[i], targets[i], chosen[i], inclusive)
      && visited[i + 1] == chosen[i]
      && (starts[i] == visited[i] || starts[i] in initials)
    else
      current == visited[i] || current == initials[|initials| - 1]
  }

  /** The walk of `solve`: it began at the first initial assignment, every step is a Step, and it stands at current. */
  ghost predicate Walk(p: Problem, inclusive: bool, visited: seq<Successors>, starts: seq<Successors>, chosen: seq<Successors>,
                       targets: seq<Node>, initials: seq<Successors>, current: Successors)
  {
    && |visited| == |starts| + 1 && |chosen| == |starts| && |targets| == |starts| && initials != [] && initials[0] == visited[0]
    && forall i {:trigger Step(p, inclusive, visited, starts, chosen, targets, initials, current, i)} :: 0 <= i <= |starts| ==>
         Step(p, inclusive, visited, starts, chosen, targets, initials, current, i)
  }

  lemma WalkStep(p: Problem, inclusive: bool, visited: seq<Successors>, starts: seq<Successors>, chosen: seq<Successors>,
                 targets: seq<Node>, initials: seq<Successors>, start: Successors, target: Node, next: Successors)
    requires Walk(p, inclusive, visited, starts, chosen, targets, initials, start)
    requires Drawn(p, start, target, next, inclusive)
    ensures Walk(p, inclusive, visited + [next], starts + [start], chosen + [next], targets + [target], initials, next)
  {
    var visited', starts', chosen', targets' := visited + [next], starts + [start], chosen + [next], targets + [target];
    assert Step(p, inclusive, visited, starts, chosen, targets, initials, start, |starts|);
    forall i | 0 <= i <= |starts'| ensures Step(p, inclusive, visited', starts', chosen', targets', initials, next, i) {
      if i < |starts| {
        assert Step(p, inclusive, visited, starts, chosen, targets, initials, start, i);
        assert visited'[i] == visited[i] && visited'[i + 1] == visited[i + 1];
        assert starts'[i] == starts[i] && chosen'[i] == chosen[i] && targets'[i] == targets[i];
      } else if i == |starts| {
        assert starts'[i] == start && chosen'[i] == next && targets'[i] == target && visited'[i + 1] == next;
        assert start == visited'[i] || start in initials;
      } else {
        assert visited'[i] == next;
      }
    }
  }

  /** Restarting from a fresh initial assignment, which the construction built, keeps the walk and the list of initial assignments. */
  lemma WalkRestart(p: Problem, inclusive: bool, visited: seq<Successors>, starts: seq<Successors>,
                    chosen: seq<Successors>, targets: seq<Node>, initials: seq<Successors>, current: Successors,
                    restart: Successors, chains: seq<seq<Node>>)
    requires Walk(p, inclusive, visited, starts, chosen, targets, initials, current) && Construction.Initials(p, initials)
    requires WellFormed(p, restart) && Encodes(p, restart, chains) && Construction.Paired(p, chains)
    ensures Walk(p, inclusive, visited, starts, chosen, targets, initials + [restart], restart)
    ensures Construction.Initials(p, initials + [restart])
  {
    Construction.InitialsSnoc(p, initials, restart, chains);
    var initials' := initials + [restart];
    forall i | 0 <= i <= |starts| ensures Step(p, inclusive, visited, starts, chosen, targets, initials', restart, i) {
      if i < |starts| {
        assert Step(p, inclusive, visited, starts, chosen, targets, initials, current, i);
        if starts[i] in initials {
          var k :| 0 <= k < |initials| && initials[k] == starts[i];
          assert initials'[k] == starts[i];
        }
      } else {
        assert initials'[|initials'| - 1] == restart;
      }
    }
  }

  /**
   * `solve`: a walk from a random initial assignment that moves to the
   * chosen neighbour at every step (the acceptance test compares a draw from
   * [0, 1) with 3.0, so it always passes).  After more than 900 steps
   * without a new local best the walk restarts from a fresh initial
   * assignment, and the cheapest assignment seen at the global-best
   * comparison is returned.  `visited` lists the assignments compared with
   * the global best and `bests` the successive global-best costs; `starts`,
   * `chosen`, `targets` and `initials` record the walk (see Walk).
   * `inclusive` selects the capacity test of the neighbourhood (see
   * Admits).  The time budget is the
   * iteration count; None stands for no initial assignment (a task no
   * vehicle can carry) or a `chooseNext` that failed.
   */
  method Solve(p: Problem, iterations: nat, inclusive: bool)
      returns (r: Option<Successors>, ghost visited: seq<Successors>, ghost starts: seq<Successors>, ghost chosen: seq<Successors>,
               ghost targets: seq<Node>, ghost bests: seq<Cost>, ghost initials: seq<Successors>, ghost current: Successors)
    requires DistinctTasks(p) && DistinctVehicles(p) && DenseIds(p)
    ensures (exists i :: 0 <= i < |p.tasks| && !Construction.HasCapable(p, i)) ==> r.None?
    ensures r.Some? ==>
      WellFormed(p, r.value) && Tracked(p, TaskIndices(|p.tasks|), r.value, CostOf(p, r.value, TaskIndices(|p.tasks|)), visited, bests)
    ensures r.Some? ==> Walk(p, inclusive, visited, starts, chosen, targets, initials, current) && Construction.Initials(p, initials)
    ensures r.Some? ==>
      WellFormed(p, visited[0]) && AtMost(CostOf(p, r.value, TaskIndices(|p.tasks|)), CostOf(p, visited[0], TaskIndices(|p.tasks|)))
    ensures r.Some? && DistinctIds(p) && Ids(p) == TaskIndices(|p.tasks|) ==> CostOf(p, r.value, TaskIndices(|p.tasks|)).Fin?
  {
    var keys := TaskIndices(|p.tasks|);
    visited, starts, chosen, targets, bests, initials, current := [], [], [], [], [], [], map[];
    var first;
    ghost var chains;
    first, chains := Construction.InitialAssignment(p);
    if first.None? {
      return None, visited, starts, chosen, targets, bests, initials, current;
    }
    var assignment := first.value;
    var cost := Evaluate(p, assignment, keys);
    var globalBest, globalBestCost, localBestCost := assignment, cost, cost;
    var resetCounter := 0;
    Construction.InitialsSnoc(p, [], assignment, chains);
    visited, bests, initials := [assignment], [cost], [] + [assignment];
    var step := 0;
    while step < iterations
      invariant WellFormed(p, assignment) && cost == CostOf(p, assignment, keys)
      invariant Tracked(p, keys, globalBest, globalBestCost, visited, bests)
      invariant Walk(p, inclusive, visited, starts, chosen, targets, initials, assignment)
      invariant Construction.Initials(p, initials)
      invariant forall i :: 0 <= i < |p.tasks| ==> Construction.HasCapable(p, i)
      invariant 0 <= resetCounter <= 900
    {
      var next;
      ghost var batch, target;
      next, batch, target := ChooseNext(p, assignment, inclusive);
      if next.None? {
        return None, visited, starts, chosen, targets, bests, initials, current;
      }
      ghost var start := assignment;
      var nextCost := Evaluate(p, next.value, keys);
      var rnd: real :| 0.0 <= rnd < 1.0;
      if (AtMost(nextCost, cost) && rnd < 1.0) || rnd < 3.0 {
        assignment, cost := next.value, nextCost;
      }
      if Below(cost, localBestCost) {
        localBestCost, resetCounter := cost, 0;
      } else {
        resetCounter := resetCounter + 1;
      }
      ghost var best0, bestCost0 := globalBest, globalBestCost;
      if Below(cost, globalBestCost) {
        globalBest, globalBestCost := assignment, cost;
      }
      TrackedStep(p, keys, best0, bestCost0, visited, bests, assignment, globalBest, globalBestCost);
      WalkStep(p, inclusive, visited, starts, chosen, targets, initials, start, target, next.value);
      visited, starts, chosen, targets := visited + [assignment], starts + [start], chosen + [next.value], targets + [target];
      bests := bests + [globalBestCost];
      if resetCounter > 900 {
        var restart;
        restart, chains := Construction.InitialAssignment(p);
        WalkRestart(p, inclusive, visited, starts, chosen, targets, initials, assignment, restart.value, chains);
        assignment := restart.value;
        initials := initials + [assignment];
        cost := Evaluate(p, assignment, keys);
        localBestCost, resetCounter := cost, 0;
      }
      step := step + 1;
    }
    assert visited[0] in visited && NoCheaper(p, keys, globalBestCost, visited[0]);
    if DistinctIds(p) && Ids(p) == keys {
      Construction.BestFeasible(p, keys, globalBest, globalBestCost, visited, bests, initials);
    }
    return Some(globalBest), visited, starts, chosen, targets, bests, initials, assignment;
  }
}
