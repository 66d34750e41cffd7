/**
 * The single-pass cost evaluator of an assignment (`Assignment.cost` in both
 * solvers).  Each vehicle's chain is walked from its vehicle label to the end
 * marker, keeping a running load and a per-task status (0 not picked up,
 * 1 picked up, 2 delivered) keyed by task id.  Any violation gives +infinity.
 */
module CostEval {
  import opened Routing
  import Collections

  /** The evaluator's result: a finite total, or the +infinity sentinel. */
  datatype Cost = Fin(value: nat) | Inf

  predicate AtMost(a: Cost, b: Cost) {
    match b
    case Inf => true
    case Fin(y) => a.Fin? && a.value <= y
  }

  predicate Below(a: Cost, b: Cost) {
    AtMost(a, b) && a != b
  }

  /** The comparison of costs is transitive. */
  lemma AtMostTransitive(a: Cost, b: Cost, c: Cost)
    requires AtMost(a, b) && AtMost(b, c)
    ensures AtMost(a, c)
  {
  }

  type Status = map<int, int>

  /** The status map the evaluator starts with: 0 for each key. */
  function InitialStatus(keys: set<int>): (st: Status)
    ensures st.Keys == keys
    ensures forall k :: k in st ==> st[k] == 0
  {
    map k | k in keys :: 0
  }

  function Zeros(st: Status): set<int> {
    set k | k in st && st[k] == 0
  }

  function Open(st: Status): set<int> {
    set k | k in st && st[k] != 2
  }

  /** How many status advances are still possible: the walk's termination measure. */
  function Pending(st: Status): nat {
    |Zeros(st)| + |Open(st)|
  }

  lemma PickupAdvances(st: Status, k: int)
    requires k in st && st[k] == 0
    ensures Pending(st[k := 1]) < Pending(st)
  {
    assert Zeros(st[k := 1]) == Zeros(st) - {k};
    assert Open(st[k := 1]) == Open(st);
  }

  lemma DeliveryAdvances(st: Status, k: int)
    requires k in st && st[k] == 1
    ensures Pending(st[k := 2]) < Pending(st)
  {
    assert Zeros(st[k := 2]) == Zeros(st);
    assert Open(st[k := 2]) == Open(st) - {k};
  }

  predicate IdsKnown(p: Problem, st: Status) {
    forall t :: t in p.tasks ==> t.id in st
  }

  /**
   * The rest of the evaluation from label x on vehicle v's chain, with the
   * load, status map and accumulated cost reached so far.
   */
  function Walk(p: Problem, succ: Successors, v: nat, x: Node, load: int, st: Status, acc: nat): Cost
    requires Closed(p, succ) && v < |p.vehicles| && IdsKnown(p, st)
    requires x == End || (x in succ && !x.End?)
    decreases |p.vehicles| - v, Pending(st), if x.Veh? then 1 else 0
  {
    if x == End then Resume(p, succ, v + 1, st, acc)
    else
      var y := succ[x];
      var vehicle := p.vehicles[v];
      var load' := load + WeightChange(x);
      var acc' := acc + HopCost(p, x, y, vehicle.costPerKm);
      match x
      case Veh(_) => Walk(p, succ, v, y, load', st, acc')
      case Pick(t) =>
        TaskKey(p, succ, x);
        if st[t.id] != 0 || load' > vehicle.capacity then Inf
        else
          PickupAdvances(st, t.id);
          Walk(p, succ, v, y, load', st[t.id := 1], acc')
      case Del(t) =>
        TaskKey(p, succ, x);
        if st[t.id] != 1 then Inf
        else
          DeliveryAdvances(st, t.id);
          Walk(p, succ, v, y, load', st[t.id := 2], acc')
  }

  // One step of the walk at each kind of label, for proofs that walk along a route.

  lemma WalkAtVehicle(p: Problem, succ: Successors, v: nat, w: Vehicle, load: int, st: Status, acc: nat)
    requires Closed(p, succ) && v < |p.vehicles| && IdsKnown(p, st) && Veh(w) in succ
    ensures Walk(p, succ, v, Veh(w), load, st, acc)
         == Walk(p, succ, v, succ[Veh(w)], load, st, acc + HopCost(p, Veh(w), succ[Veh(w)], p.vehicles[v].costPerKm))
  {
  }

  lemma WalkAtPickup(p: Problem, succ: Successors, v: nat, t: Task, load: int, st: Status, acc: nat)
    requires Closed(p, succ) && v < |p.vehicles| && IdsKnown(p, st) && Pick(t) in succ
    ensures t.id in st && IdsKnown(p, st[t.id := 1])
    ensures Walk(p, succ, v, Pick(t), load, st, acc)
         == if st[t.id] != 0 || load + t.weight > p.vehicles[v].capacity then Inf
            else Walk(p, succ, v, succ[Pick(t)], load + t.weight, st[t.id := 1],
                      acc + HopCost(p, Pick(t), succ[Pick(t)], p.vehicles[v].costPerKm))
  {
    TaskKey(p, succ, Pick(t));
  }

  lemma WalkAtDelivery(p: Problem, succ: Successors, v: nat, t: Task, load: int, st: Status, acc: nat)
    requires Closed(p, succ) && v < |p.vehicles| && IdsKnown(p, st) && Del(t) in succ
    ensures t.id in st && IdsKnown(p, st[t.id := 2])
    ensures Walk(p, succ, v, Del(t), load, st, acc)
         == if st[t.id] != 1 then Inf
            else Walk(p, succ, v, succ[Del(t)], load - t.weight, st[t.id := 2],
                      acc + HopCost(p, Del(t), succ[Del(t)], p.vehicles[v].costPerKm))
  {
    TaskKey(p, succ, Del(t));
  }

  /** The evaluation from the start of vehicle v's chain; after the last vehicle, the delivered-check. */
  function Resume(p: Problem, succ: Successors, v: nat, st: Status, acc: nat): Cost
    requires Closed(p, succ) && v <= |p.vehicles| && IdsKnown(p, st)
    decreases |p.vehicles| - v, Pending(st), 2
  {
    if v == |p.vehicles| then
      if forall k :: k in st ==> st[k] == 2 then Fin(acc) else Inf
    else
      Walk(p, succ, v, Veh(p.vehicles[v]), 0, st, acc)
  }

  /** What the evaluator returns on succ when its status map starts with the given keys. */
  function CostOf(p: Problem, succ: Successors, keys: set<int>): Cost
    requires WellFormed(p, succ) && Ids(p) <= keys
  {
    Resume(p, succ, 0, InitialStatus(keys), 0)
  }

  /** The closing check of the evaluator: every status key has reached 2 (delivered). */
  method AllDelivered(status: Status) returns (ok: bool)
    ensures ok <==> forall k :: k in status ==> status[k] == 2
  {
    var unchecked := status.Keys;
    while unchecked != {}
      invariant unchecked <= status.Keys
      invariant forall k :: k in status.Keys - unchecked ==> status[k] == 2
    {
      Collections.HasInt(unchecked);
      var key :| key in unchecked;
      if status[key] != 2 {
        return false;
      }
      unchecked := unchecked - {key};
    }
    return true;
  }

  /**
   * The evaluator as the source runs it: nested loops over vehicles and
   * chain labels, a status map and a running load, returning +infinity at
   * the first violation.
   */
  method Evaluate(p: Problem, succ: Successors, keys: set<int>) returns (c: Cost)
    requires WellFormed(p, succ) && Ids(p) <= keys
    ensures c == CostOf(p, succ, keys)
  {
    var status := InitialStatus(keys);
    var total: nat := 0;
    var vi := 0;
    while vi < |p.vehicles|
      invariant vi <= |p.vehicles|
      invariant status.Keys == keys
      invariant CostOf(p, succ, keys) == Resume(p, succ, vi, status, total)
    {
      var vehicle := p.vehicles[vi];
      var load := 0;
      var action := Veh(vehicle);
      while action != End
        invariant action == End || (action in succ && !action.End?)
        invariant status.Keys == keys
        invariant CostOf(p, succ, keys) == Walk(p, succ, vi, action, load, status, total)
        decreases Pending(status), if action.Veh? then 1 else 0
      {
        var next := succ[action];
        assert next == End || (next in succ && !next.Veh? && !next.End?);
        load := load + WeightChange(action);
        total := total + HopCost(p, action, next, vehicle.costPerKm);
        match action {
          case Veh(_) =>
          case Pick(t) =>
            TaskKey(p, succ, action);
            if status[t.id] != 0 {
              return Inf;
            }
            if load > vehicle.capacity {
              return Inf;
            }
            PickupAdvances(status, t.id);
            status := status[t.id := 1];
          case Del(t) =>
            TaskKey(p, succ, action);
            if status[t.id] != 1 {
              return Inf;
            }
            DeliveryAdvances(status, t.id);
            status := status[t.id := 2];
        }
        action := next;
      }
      vi := vi + 1;
    }
    var delivered := AllDelivered(status);
    if !delivered {
      return Inf;
    }
    return Fin(total);
  }

  // ---------------------------------------------------------------------------
  // The global best of a local search
  // ---------------------------------------------------------------------------

  /** n is a well-formed assignment that costs at least bestCost. */
  ghost predicate NoCheaper(p: Problem, keys: set<int>, bestCost: Cost, n: Successors) {
    Ids(p) <= keys && WellFormed(p, n) && AtMost(bestCost, CostOf(p, n, keys))
  }

  /**
   * What the solvers' `solve` keeps about its global best: it is one of the
   * visited assignments, its cost is stored alongside it and is at most the
   * cost of every visited assignment, and the recorded global-best costs
   * never go up.
   */
  ghost predicate Tracked(p: Problem, keys: set<int>, best: Successors, bestCost: Cost, visited: seq<Successors>, bests: seq<Cost>) {
    Ids(p) <= keys && WellFormed(p, best) && bestCost == CostOf(p, best, keys) && best in visited
    && (forall n {:trigger NoCheaper(p, keys, bestCost, n)} :: n in visited ==> NoCheaper(p, keys, bestCost, n))
    && bests != [] && bests[|bests| - 1] == bestCost
    && (forall i, j {:trigger NoRise(bests, i, j)} :: 0 <= i < j < |bests| ==> NoRise(bests, i, j))
  }

  /** The global-best cost recorded at j is no higher than the one recorded at i. */
  ghost predicate NoRise(bests: seq<Cost>, i: int, j: int)
    requires 0 <= i < j < |bests|
  {
    AtMost(bests[j], bests[i])
  }

  /** One global-best comparison: the current assignment is visited, and replaces the best if strictly cheaper. */
  lemma TrackedStep(p: Problem, keys: set<int>, best: Successors, bestCost: Cost, visited: seq<Successors>, bests: seq<Cost>,
                     current: Successors, best': Successors, bestCost': Cost)
    requires Tracked(p, keys, best, bestCost, visited, bests) && WellFormed(p, current)
    requires Below(CostOf(p, current, keys), bestCost) ==> best' == current && bestCost' == CostOf(p, current, keys)
    requires !Below(CostOf(p, current, keys), bestCost) ==> best' == best && bestCost' == bestCost
    ensures Tracked(p, keys, best', bestCost', visited + [current], bests + [bestCost'])
  {
    var bests' := bests + [bestCost'];
    forall n | n in visited + [current]
      ensures NoCheaper(p, keys, bestCost', n)
    {
      if n in visited {
        assert NoCheaper(p, keys, bestCost, n);
        AtMostTransitive(bestCost', bestCost, CostOf(p, n, keys));
      }
    }
    forall i, j | 0 <= i < j < |bests'|
      ensures NoRise(bests', i, j)
    {
      if j == |bests| {
        if i < |bests| - 1 {
          assert NoRise(bests, i, |bests| - 1);
        }
        AtMostTransitive(bestCost', bestCost, bests[i]);
      } else {
        assert NoRise(bests, i, j) && bests'[i] == bests[i] && bests'[j] == bests[j];
      }
    }
  }
}
