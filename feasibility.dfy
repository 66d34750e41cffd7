/**
 * What the cost evaluator computes, stated over the routes an assignment
 * encodes: the cost is finite exactly when every check the evaluator makes
 * passes along the routes in the order it walks them, and it is then the sum
 * over vehicles of route length times cost per kilometre.
 *
 * The proof goes in two steps.  Run is the evaluator's loop run along
 * explicit routes; RunSimulates shows the walk through the successor map is
 * that run, and RunAlongRoutes shows what the run returns.
 */
module Feasibility {
  import opened Routing
  import opened CostEval

  // ---------------------------------------------------------------------------
  // Routes and what the evaluator checks along them
  // ---------------------------------------------------------------------------

  /** Labels the evaluator has walked before reaching position j of route v. */
  function Seen(chains: seq<seq<Node>>, v: nat, j: nat): set<Node>
    requires v < |chains| && j <= |chains[v]|
  {
    NodesOf(chains[..v]) + Elems(chains[v][..j])
  }

  /** The load after a route prefix: the sum of its weight changes. */
  function Load(c: seq<Node>): int {
    if c == [] then 0 else Load(c[..|c| - 1]) + WeightChange(c[|c| - 1])
  }

  /** How far task t has got among the labels s: the status the evaluator keeps for it. */
  function Count(s: set<Node>, t: Task): nat {
    (if Pick(t) in s then 1 else 0) + (if Del(t) in s then 1 else 0)
  }

  /** The evaluator's check at position j of route v, stated over the routes. */
  predicate StepOK(p: Problem, chains: seq<seq<Node>>, v: nat, j: nat)
    requires |chains| == |p.vehicles| && v < |chains| && j < |chains[v]|
  {
    match chains[v][j]
    case Pick(t) => Del(t) !in Seen(chains, v, j) && Load(chains[v][..j + 1]) <= p.vehicles[v].capacity
    case Del(t) => Pick(t) in Seen(chains, v, j)
    case _ => true
  }

  /** Every check from position j of route v to the end of the last route passes. */
  predicate OKFrom(p: Problem, chains: seq<seq<Node>>, v: nat, j: nat)
    requires |chains| == |p.vehicles| && v < |chains| && j <= |chains[v]|
  {
    && (forall k :: j <= k < |chains[v]| ==> StepOK(p, chains, v, k))
    && (forall w, k :: v < w < |chains| && 0 <= k < |chains[w]| ==> StepOK(p, chains, w, k))
  }

  /** Every check of the evaluator passes on every route. */
  predicate RoutesOK(p: Problem, chains: seq<seq<Node>>)
    requires |chains| == |p.vehicles|
  {
    forall v, k :: 0 <= v < |chains| && 0 <= k < |chains[v]| ==> StepOK(p, chains, v, k)
  }

  /** Cost of route c from position j on, at cpk per kilometre. */
  function ChainCost(p: Problem, c: seq<Node>, j: nat, cpk: nat): nat
    decreases |c| - j
  {
    if j >= |c| then 0 else HopCost(p, c[j], At(c, j + 1), cpk) + ChainCost(p, c, j + 1, cpk)
  }

  /** Cost of routes v and onwards, each at its vehicle's cost per kilometre. */
  function RoutesCost(p: Problem, chains: seq<seq<Node>>, v: nat): nat
    requires |chains| == |p.vehicles|
    decreases |chains| - v
  {
    if v >= |chains| then 0
    else ChainCost(p, chains[v], 0, p.vehicles[v].costPerKm) + RoutesCost(p, chains, v + 1)
  }

  // ---------------------------------------------------------------------------
  // The evaluator run along explicit routes
  // ---------------------------------------------------------------------------

  /**
   * The evaluator's loop with the routes given as sequences: the same load,
   * status and cost updates and the same checks as Walk, position by position.
   */
  function Run(p: Problem, chains: seq<seq<Node>>, v: nat, j: nat, load: int, st: Status, acc: nat): Cost
    requires |chains| == |p.vehicles| && v < |chains| && j <= |chains[v]|
    decreases |chains| - v, |chains[v]| - j
  {
    var c := chains[v];
    if j == |c| then
      if v + 1 == |chains| then (if forall k :: k in st ==> st[k] == 2 then Fin(acc) else Inf)
      else Run(p, chains, v + 1, 0, 0, st, acc)
    else
      var x := c[j];
      var load' := load + WeightChange(x);
      var acc' := acc + HopCost(p, x, At(c, j + 1), p.vehicles[v].costPerKm);
      match x
      case Pick(t) =>
        if t.id !in st || st[t.id] != 0 || load' > p.vehicles[v].capacity then Inf
        else Run(p, chains, v, j + 1, load', st[t.id := 1], acc')
      case Del(t) =>
        if t.id !in st || st[t.id] != 1 then Inf
        else Run(p, chains, v, j + 1, load', st[t.id := 2], acc')
      case _ => Run(p, chains, v, j + 1, load', st, acc')
  }

  /** The chains are the routes of succ: one per vehicle, headed by its label, following succ. */
  predicate Follows(p: Problem, succ: Successors, chains: seq<seq<Node>>) {
    && |chains| == |p.vehicles|
    && (forall v :: 0 <= v < |chains| ==> |chains[v]| > 0 && chains[v][0] == Veh(p.vehicles[v]))
    && (forall v, j :: 0 <= v < |chains| && 1 <= j < |chains[v]| ==> chains[v][j].Pick? || chains[v][j].Del?)
    && (forall v, j :: 0 <= v < |chains| && 0 <= j < |chains[v]| ==> chains[v][j] in succ)
    && (forall v, j {:trigger succ[chains[v][j]]} :: 0 <= v < |chains| && 0 <= j < |chains[v]| ==>
          succ[chains[v][j]] == At(chains[v], j + 1))
  }

  /** The walk through succ from position j of route v is the run along the routes. */
  lemma {:induction false} RunSimulates(p: Problem, succ: Successors, chains: seq<seq<Node>>, v: nat, j: nat, load: int, st: Status, acc: nat)
    requires Closed(p, succ) && Follows(p, succ, chains) && v < |chains| && j <= |chains[v]| && IdsKnown(p, st)
    ensures At(chains[v], j) == End || (At(chains[v], j) in succ && !At(chains[v], j).End?)
    ensures Walk(p, succ, v, At(chains[v], j), load, st, acc) == Run(p, chains, v, j, load, st, acc)
    decreases |chains| - v, |chains[v]| - j, 1
  {
    var c := chains[v];
    if j == |c| {
      if v + 1 < |chains| {
        RunSimulates(p, succ, chains, v + 1, 0, 0, st, acc);
      }
    } else {
      assert c[j] in succ && succ[c[j]] == At(c, j + 1);
      match c[j] {
        case Veh(w) => SimulateVehicle(p, succ, chains, v, j, w, load, st, acc);
        case Pick(t) => SimulatePickup(p, succ, chains, v, j, t, load, st, acc);
        case Del(t) => SimulateDelivery(p, succ, chains, v, j, t, load, st, acc);
      }
    }
  }

  lemma {:induction false} SimulateVehicle(p: Problem, succ: Successors, chains: seq<seq<Node>>, v: nat, j: nat, w: Vehicle, load: int, st: Status, acc: nat)
    requires Closed(p, succ) && Follows(p, succ, chains) && v < |chains| && j < |chains[v]| && IdsKnown(p, st)
    requires chains[v][j] == Veh(w) && Veh(w) in succ && succ[Veh(w)] == At(chains[v], j + 1)
    ensures Walk(p, succ, v, Veh(w), load, st, acc) == Run(p, chains, v, j, load, st, acc)
    decreases |chains| - v, |chains[v]| - j, 0
  {
    WalkAtVehicle(p, succ, v, w, load, st, acc);
    RunSimulates(p, succ, chains, v, j + 1, load, st, acc + HopCost(p, Veh(w), At(chains[v], j + 1), p.vehicles[v].costPerKm));
  }

  lemma {:induction false} SimulatePickup(p: Problem, succ: Successors, chains: seq<seq<Node>>, v: nat, j: nat, t: Task, load: int, st: Status, acc: nat)
    requires Closed(p, succ) && Follows(p, succ, chains) && v < |chains| && j < |chains[v]| && IdsKnown(p, st)
    requires chains[v][j] == Pick(t) && Pick(t) in succ && succ[Pick(t)] == At(chains[v], j + 1)
    ensures Walk(p, succ, v, Pick(t), load, st, acc) == Run(p, chains, v, j, load, st, acc)
    decreases |chains| - v, |chains[v]| - j, 0
  {
    WalkAtPickup(p, succ, v, t, load, st, acc);
    var acc' := acc + HopCost(p, Pick(t), At(chains[v], j + 1), p.vehicles[v].costPerKm);
    if st[t.id] == 0 && load + t.weight <= p.vehicles[v].capacity {
      RunSimulates(p, succ, chains, v, j + 1, load + t.weight, st[t.id := 1], acc');
    }
    PickupSimulates(p, succ, chains, v, j, t, load, st, acc, acc');
  }

  lemma {:induction false} SimulateDelivery(p: Problem, succ: Successors, chains: seq<seq<Node>>, v: nat, j: nat, t: Task, load: int, st: Status, acc: nat)
    requires Closed(p, succ) && Follows(p, succ, chains) && v < |chains| && j < |chains[v]| && IdsKnown(p, st)
    requires chains[v][j] == Del(t) && Del(t) in succ && succ[Del(t)] == At(chains[v], j + 1)
    ensures Walk(p, succ, v, Del(t), load, st, acc) == Run(p, chains, v, j, load, st, acc)
    decreases |chains| - v, |chains[v]| - j, 0
  {
    WalkAtDelivery(p, succ, v, t, load, st, acc);
    var acc' := acc + HopCost(p, Del(t), At(chains[v], j + 1), p.vehicles[v].costPerKm);
    if st[t.id] == 1 {
      RunSimulates(p, succ, chains, v, j + 1, load - t.weight, st[t.id := 2], acc');
    }
    DeliverySimulates(p, succ, chains, v, j, t, load, st, acc, acc');
  }

  // The walk from a pickup or a delivery and the run from its position agree
  // when they agree one step further on.

  lemma PickupSimulates(p: Problem, succ: Successors, chains: seq<seq<Node>>, v: nat, j: nat, t: Task, load: int, st: Status, acc: nat, acc': nat)
    requires Closed(p, succ) && |chains| == |p.vehicles| && v < |chains| && j < |chains[v]| && IdsKnown(p, st)
    requires chains[v][j] == Pick(t) && Pick(t) in succ && succ[Pick(t)] == At(chains[v], j + 1)
    requires acc' == acc + HopCost(p, Pick(t), At(chains[v], j + 1), p.vehicles[v].costPerKm)
    requires t.id in st && st[t.id] == 0 && load + t.weight <= p.vehicles[v].capacity ==>
      Walk(p, succ, v, At(chains[v], j + 1), load + t.weight, st[t.id := 1], acc')
        == Run(p, chains, v, j + 1, load + t.weight, st[t.id := 1], acc')
    ensures Walk(p, succ, v, Pick(t), load, st, acc) == Run(p, chains, v, j, load, st, acc)
  {
    WalkAtPickup(p, succ, v, t, load, st, acc);
    RunAtPickup(p, chains, v, j, t, load, st, acc);
  }

  lemma DeliverySimulates(p: Problem, succ: Successors, chains: seq<seq<Node>>, v: nat, j: nat, t: Task, load: int, st: Status, acc: nat, acc': nat)
    requires Closed(p, succ) && |chains| == |p.vehicles| && v < |chains| && j < |chains[v]| && IdsKnown(p, st)
    requires chains[v][j] == Del(t) && Del(t) in succ && succ[Del(t)] == At(chains[v], j + 1)
    requires acc' == acc + HopCost(p, Del(t), At(chains[v], j + 1), p.vehicles[v].costPerKm)
    requires t.id in st && st[t.id] == 1 ==>
      Walk(p, succ, v, At(chains[v], j + 1), load - t.weight, st[t.id := 2], acc')
        == Run(p, chains, v, j + 1, load - t.weight, st[t.id := 2], acc')
    ensures Walk(p, succ, v, Del(t), load, st, acc) == Run(p, chains, v, j, load, st, acc)
  {
    WalkAtDelivery(p, succ, v, t, load, st, acc);
    RunAtDelivery(p, chains, v, j, t, load, st, acc);
  }

  // ---------------------------------------------------------------------------
  // What the run returns
  // ---------------------------------------------------------------------------

  /**
   * The routes as a layout of the problem's labels: one route per vehicle,
   * headed by its label, no label twice, every other label a pickup or
   * delivery of a task of the problem, and both labels of every task
   * somewhere on the routes.
   */
  predicate Layout(p: Problem, chains: seq<seq<Node>>) {
    && |chains| == |p.vehicles|
    && DistinctIds(p)
    && (forall v :: 0 <= v < |chains| ==> |chains[v]| > 0 && chains[v][0] == Veh(p.vehicles[v]))
    && (forall v, j :: 0 <= v < |chains| && 1 <= j < |chains[v]| ==>
          (chains[v][j].Pick? || chains[v][j].Del?) && chains[v][j].task in p.tasks)
    && (forall v, k, w, l {:trigger Slot(chains, v, k), Slot(chains, w, l)} ::
          (0 <= v < |chains| && 0 <= k < |chains[v]| && 0 <= w < |chains| && 0 <= l < |chains[w]| &&
           Slot(chains, v, k) == Slot(chains, w, l)) ==> v == w && k == l)
    && (forall t :: t in p.tasks ==> Pick(t) in NodesOf(chains) && Del(t) in NodesOf(chains))
  }

  lemma OKFromStep(p: Problem, chains: seq<seq<Node>>, v: nat, j: nat)
    requires |chains| == |p.vehicles| && v < |chains| && j < |chains[v]|
    ensures OKFrom(p, chains, v, j) <==> StepOK(p, chains, v, j) && OKFrom(p, chains, v, j + 1)
  {
  }

  lemma OKFromNext(p: Problem, chains: seq<seq<Node>>, v: nat)
    requires |chains| == |p.vehicles| && v + 1 < |chains|
    ensures OKFrom(p, chains, v, |chains[v]|) <==> OKFrom(p, chains, v + 1, 0)
  {
  }

  lemma LoadStep(c: seq<Node>, j: nat)
    requires j < |c|
    ensures Load(c[..j + 1]) == Load(c[..j]) + WeightChange(c[j])
  {
    assert c[..j + 1][..j] == c[..j];
  }

  /** Position j of route v has not been walked before position j. */
  lemma NotSeenYet(p: Problem, chains: seq<seq<Node>>, v: nat, j: nat)
    requires Layout(p, chains) && v < |chains| && j < |chains[v]|
    ensures chains[v][j] !in Seen(chains, v, j)
    ensures Seen(chains, v, j + 1) == Seen(chains, v, j) + {chains[v][j]}
  {
    var c := chains[v];
    assert c[..j + 1] == c[..j] + [c[j]];
    forall i | 0 <= i < j
      ensures c[i] != c[j]
    {
      assert Slot(chains, v, i) != Slot(chains, v, j);
    }
    forall w, l | 0 <= w < v && 0 <= l < |chains[w]|
      ensures chains[w][l] != c[j]
    {
      assert Slot(chains, w, l) != Slot(chains, v, j);
    }
    InNodesOf(chains, v, c[j]);
  }

  /** The status the evaluator keeps for each task: the count of its labels among those walked (s). */
  predicate StatusMatches(p: Problem, s: set<Node>, st: Status) {
    && st.Keys == Ids(p)
    && forall t :: t in p.tasks ==> st[t.id] == Count(s, t)
  }

  /** Walking one more label of task t updates the status of t and of no other task. */
  lemma StatusStep(p: Problem, s: set<Node>, x: Node, st: Status, t: Task, n: int)
    requires DistinctIds(p) && t in p.tasks && (x == Pick(t) || x == Del(t))
    requires StatusMatches(p, s, st) && n == Count(s + {x}, t)
    ensures StatusMatches(p, s + {x}, st[t.id := n])
  {
    forall t' | t' in p.tasks
      ensures st[t.id := n][t'.id] == Count(s + {x}, t')
    {
      if t' != t {
        var i :| 0 <= i < |p.tasks| && p.tasks[i] == t;
        var j :| 0 <= j < |p.tasks| && p.tasks[j] == t';
        assert TaskAt(p, i) == t && TaskAt(p, j) == t';
        assert t'.id != t.id;
        assert Count(s + {x}, t') == Count(s, t');
      }
    }
  }

  /** Walking a vehicle label changes no task's status. */
  lemma StatusOther(p: Problem, s: set<Node>, x: Node, st: Status)
    requires StatusMatches(p, s, st) && x.Veh?
    ensures StatusMatches(p, s + {x}, st)
  {
    forall t | t in p.tasks
      ensures st[t.id] == Count(s + {x}, t)
    {
      assert Count(s + {x}, t) == Count(s, t);
    }
  }

  /** The result RunAlongRoutes states for position j of route v. */
  function Expected(p: Problem, chains: seq<seq<Node>>, v: nat, j: nat, acc: nat): Cost
    requires |chains| == |p.vehicles| && v < |chains| && j <= |chains[v]|
  {
    if OKFrom(p, chains, v, j)
    then Fin(acc + ChainCost(p, chains[v], j, p.vehicles[v].costPerKm) + RoutesCost(p, chains, v + 1))
    else Inf
  }

  lemma ExpectedStep(p: Problem, chains: seq<seq<Node>>, v: nat, j: nat, acc: nat)
    requires |chains| == |p.vehicles| && v < |chains| && j < |chains[v]|
    ensures Expected(p, chains, v, j, acc)
         == if StepOK(p, chains, v, j)
            then Expected(p, chains, v, j + 1, acc + HopCost(p, chains[v][j], At(chains[v], j + 1), p.vehicles[v].costPerKm))
            else Inf
  {
    OKFromStep(p, chains, v, j);
  }

  lemma ExpectedNext(p: Problem, chains: seq<seq<Node>>, v: nat, acc: nat)
    requires |chains| == |p.vehicles| && v + 1 < |chains|
    ensures Expected(p, chains, v, |chains[v]|, acc) == Expected(p, chains, v + 1, 0, acc)
  {
    OKFromNext(p, chains, v);
  }

  lemma SeenNextRoute(chains: seq<seq<Node>>, v: nat)
    requires v + 1 < |chains|
    ensures Seen(chains, v + 1, 0) == Seen(chains, v, |chains[v]|)
  {
    assert chains[v][..|chains[v]|] == chains[v];
    assert chains[v + 1][..0] == [];
    NodesOfSnoc(chains, v);
  }

  /** Once the last route has been walked, every task's status is 2. */
  lemma AllDone(p: Problem, chains: seq<seq<Node>>, st: Status)
    requires Layout(p, chains) && |chains| > 0
    requires StatusMatches(p, Seen(chains, |chains| - 1, |chains[|chains| - 1]|), st)
    ensures forall k :: k in st ==> st[k] == 2
  {
    var v := |chains| - 1;
    assert chains[v][..|chains[v]|] == chains[v];
    NodesOfSnoc(chains, v);
    NodesOfAll(chains);
    forall k | k in st
      ensures st[k] == 2
    {
      assert k in Ids(p);
    }
  }

  /**
   * The run from position j of route v onwards: +infinity when some later
   * check fails, otherwise the cost accumulated so far plus the cost of the
   * rest of the routes.
   */
  lemma {:induction false} RunAlongRoutes(p: Problem, chains: seq<seq<Node>>, v: nat, j: nat, st: Status, acc: nat)
    requires Layout(p, chains) && v < |chains| && j <= |chains[v]|
    requires StatusMatches(p, Seen(chains, v, j), st)
    ensures Run(p, chains, v, j, Load(chains[v][..j]), st, acc) == Expected(p, chains, v, j, acc)
    decreases |chains| - v, |chains[v]| - j, 1
  {
    var c := chains[v];
    if j == |c| {
      if v + 1 == |chains| {
        AllDone(p, chains, st);
      } else {
        RunNextRoute(p, chains, v, st, acc);
      }
    } else {
      match c[j] {
        case Veh(w) => RunVehicle(p, chains, v, j, w, st, acc);
        case Pick(t) => RunPickup(p, chains, v, j, t, st, acc);
        case Del(t) => RunDelivery(p, chains, v, j, t, st, acc);
      }
    }
  }

  lemma {:induction false} RunNextRoute(p: Problem, chains: seq<seq<Node>>, v: nat, st: Status, acc: nat)
    requires Layout(p, chains) && v + 1 < |chains|
    requires StatusMatches(p, Seen(chains, v, |chains[v]|), st)
    ensures Run(p, chains, v, |chains[v]|, Load(chains[v][..|chains[v]|]), st, acc) == Expected(p, chains, v, |chains[v]|, acc)
    decreases |chains| - v, 0, 0
  {
    assert Load(chains[v + 1][..0]) == 0 by { assert chains[v + 1][..0] == []; }
    SeenNextRoute(chains, v);
    RunAlongRoutes(p, chains, v + 1, 0, st, acc);
    ExpectedNext(p, chains, v, acc);
  }

  lemma {:induction false} RunVehicle(p: Problem, chains: seq<seq<Node>>, v: nat, j: nat, w: Vehicle, st: Status, acc: nat)
    requires Layout(p, chains) && v < |chains| && j < |chains[v]| && chains[v][j] == Veh(w)
    requires StatusMatches(p, Seen(chains, v, j), st)
    ensures Run(p, chains, v, j, Load(chains[v][..j]), st, acc) == Expected(p, chains, v, j, acc)
    decreases |chains| - v, |chains[v]| - j, 0
  {
    assert Load(chains[v][..j + 1]) == Load(chains[v][..j]) by {
      LoadStep(chains[v], j);
    }
    assert StatusMatches(p, Seen(chains, v, j + 1), st) by {
      NotSeenYet(p, chains, v, j);
      StatusOther(p, Seen(chains, v, j), Veh(w), st);
    }
    assert StepOK(p, chains, v, j);
    ExpectedStep(p, chains, v, j, acc);
    RunAlongRoutes(p, chains, v, j + 1, st, acc + HopCost(p, Veh(w), At(chains[v], j + 1), p.vehicles[v].costPerKm));
  }

  lemma {:induction false} RunPickup(p: Problem, chains: seq<seq<Node>>, v: nat, j: nat, t: Task, st: Status, acc: nat)
    requires Layout(p, chains) && v < |chains| && j < |chains[v]| && chains[v][j] == Pick(t)
    requires StatusMatches(p, Seen(chains, v, j), st)
    ensures Run(p, chains, v, j, Load(chains[v][..j]), st, acc) == Expected(p, chains, v, j, acc)
    decreases |chains| - v, |chains[v]| - j, 0
  {
    ghost var s := Seen(chains, v, j);
    ghost var load := Load(chains[v][..j]);
    ghost var acc' := acc + HopCost(p, Pick(t), At(chains[v], j + 1), p.vehicles[v].costPerKm);
    assert t in p.tasks && Pick(t) !in s && Load(chains[v][..j + 1]) == load + t.weight by {
      LoadStep(chains[v], j);
      NotSeenYet(p, chains, v, j);
    }
    assert t.id in st && (st[t.id] == 0 <==> Del(t) !in s) by {
      PickupStatus(p, s, st, t);
    }
    assert StepOK(p, chains, v, j) <==> st[t.id] == 0 && load + t.weight <= p.vehicles[v].capacity;
    if StepOK(p, chains, v, j) {
      assert StatusMatches(p, Seen(chains, v, j + 1), st[t.id := 1]) by {
        NotSeenYet(p, chains, v, j);
        StatusStep(p, s, Pick(t), st, t, 1);
      }
      RunAlongRoutes(p, chains, v, j + 1, st[t.id := 1], acc');
    }
    PickupMatches(p, chains, v, j, t, load, Load(chains[v][..j + 1]), st, acc, acc');
  }

  lemma {:induction false} RunDelivery(p: Problem, chains: seq<seq<Node>>, v: nat, j: nat, t: Task, st: Status, acc: nat)
    requires Layout(p, chains) && v < |chains| && j < |chains[v]| && chains[v][j] == Del(t)
    requires StatusMatches(p, Seen(chains, v, j), st)
    ensures Run(p, chains, v, j, Load(chains[v][..j]), st, acc) == Expected(p, chains, v, j, acc)
    decreases |chains| - v, |chains[v]| - j, 0
  {
    ghost var s := Seen(chains, v, j);
    ghost var load := Load(chains[v][..j]);
    ghost var acc' := acc + HopCost(p, Del(t), At(chains[v], j + 1), p.vehicles[v].costPerKm);
    assert t in p.tasks && Del(t) !in s && Load(chains[v][..j + 1]) == load - t.weight by {
      LoadStep(chains[v], j);
      NotSeenYet(p, chains, v, j);
    }
    assert t.id in st && (st[t.id] == 1 <==> Pick(t) in s) by {
      DeliveryStatus(p, s, st, t);
    }
    assert StepOK(p, chains, v, j) <==> st[t.id] == 1;
    if StepOK(p, chains, v, j) {
      assert StatusMatches(p, Seen(chains, v, j + 1), st[t.id := 2]) by {
        NotSeenYet(p, chains, v, j);
        StatusStep(p, s, Del(t), st, t, 2);
      }
      RunAlongRoutes(p, chains, v, j + 1, st[t.id := 2], acc');
    }
    DeliveryMatches(p, chains, v, j, t, load, Load(chains[v][..j + 1]), st, acc, acc');
  }

  // One step of the run at a pickup and at a delivery.

  lemma RunAtPickup(p: Problem, chains: seq<seq<Node>>, v: nat, j: nat, t: Task, load: int, st: Status, acc: nat)
    requires |chains| == |p.vehicles| && v < |chains| && j < |chains[v]| && chains[v][j] == Pick(t)
    ensures Run(p, chains, v, j, load, st, acc)
         == if t.id !in st || st[t.id] != 0 || load + t.weight > p.vehicles[v].capacity then Inf
            else Run(p, chains, v, j + 1, load + t.weight, st[t.id := 1],
                     acc + HopCost(p, Pick(t), At(chains[v], j + 1), p.vehicles[v].costPerKm))
  {
  }

  lemma RunAtDelivery(p: Problem, chains: seq<seq<Node>>, v: nat, j: nat, t: Task, load: int, st: Status, acc: nat)
    requires |chains| == |p.vehicles| && v < |chains| && j < |chains[v]| && chains[v][j] == Del(t)
    ensures Run(p, chains, v, j, load, st, acc)
         == if t.id !in st || st[t.id] != 1 then Inf
            else Run(p, chains, v, j + 1, load - t.weight, st[t.id := 2],
                     acc + HopCost(p, Del(t), At(chains[v], j + 1), p.vehicles[v].costPerKm))
  {
  }

  // When the check at a pickup or a delivery passes exactly when the status
  // allows it, and the run from the next position gives what is expected
  // there, so does the run from this one.

  lemma PickupMatches(p: Problem, chains: seq<seq<Node>>, v: nat, j: nat, t: Task, load: int, load': int, st: Status, acc: nat, acc': nat)
    requires |chains| == |p.vehicles| && v < |chains| && j < |chains[v]| && chains[v][j] == Pick(t)
    requires t.id in st && (StepOK(p, chains, v, j) <==> st[t.id] == 0 && load + t.weight <= p.vehicles[v].capacity)
    requires load' == load + t.weight
    requires acc' == acc + HopCost(p, Pick(t), At(chains[v], j + 1), p.vehicles[v].costPerKm)
    requires StepOK(p, chains, v, j) ==>
      Run(p, chains, v, j + 1, load', st[t.id := 1], acc') == Expected(p, chains, v, j + 1, acc')
    ensures Run(p, chains, v, j, load, st, acc) == Expected(p, chains, v, j, acc)
  {
    RunAtPickup(p, chains, v, j, t, load, st, acc);
    ExpectedStep(p, chains, v, j, acc);
  }

  lemma DeliveryMatches(p: Problem, chains: seq<seq<Node>>, v: nat, j: nat, t: Task, load: int, load': int, st: Status, acc: nat, acc': nat)
    requires |chains| == |p.vehicles| && v < |chains| && j < |chains[v]| && chains[v][j] == Del(t)
    requires t.id in st && (StepOK(p, chains, v, j) <==> st[t.id] == 1)
    requires load' == load - t.weight
    requires acc' == acc + HopCost(p, Del(t), At(chains[v], j + 1), p.vehicles[v].costPerKm)
    requires StepOK(p, chains, v, j) ==>
      Run(p, chains, v, j + 1, load', st[t.id := 2], acc') == Expected(p, chains, v, j + 1, acc')
    ensures Run(p, chains, v, j, load, st, acc) == Expected(p, chains, v, j, acc)
  {
    RunAtDelivery(p, chains, v, j, t, load, st, acc);
    ExpectedStep(p, chains, v, j, acc);
  }

  /** Before its pickup is walked, a task's status is 0 exactly when its delivery has not been walked either. */
  lemma PickupStatus(p: Problem, s: set<Node>, st: Status, t: Task)
    requires StatusMatches(p, s, st) && t in p.tasks && Pick(t) !in s
    ensures t.id in st && (st[t.id] == 0 <==> Del(t) !in s)
  {
  }

  /** Before its delivery is walked, a task's status is 1 exactly when its pickup has been walked. */
  lemma DeliveryStatus(p: Problem, s: set<Node>, st: Status, t: Task)
    requires StatusMatches(p, s, st) && t in p.tasks && Del(t) !in s
    ensures t.id in st && (st[t.id] == 1 <==> Pick(t) in s)
  {
  }

  // ---------------------------------------------------------------------------
  // From the routes an assignment encodes to the cost of the assignment
  // ---------------------------------------------------------------------------

  lemma FollowsOf(p: Problem, succ: Successors, chains: seq<seq<Node>>)
    requires Encodes(p, succ, chains)
    ensures Follows(p, succ, chains)
  {
    forall v, j | 0 <= v < |chains| && 0 <= j < |chains[v]|
      ensures succ[chains[v][j]] == At(chains[v], j + 1)
    {
      assert IsChain(succ, chains[v]);
    }
  }

  lemma LayoutOf(p: Problem, succ: Successors, chains: seq<seq<Node>>)
    requires WellFormed(p, succ) && Encodes(p, succ, chains) && DistinctIds(p)
    ensures Layout(p, chains)
  {
    forall v, j | 0 <= v < |chains| && 1 <= j < |chains[v]|
      ensures (chains[v][j].Pick? || chains[v][j].Del?) && chains[v][j].task in p.tasks
    {
      assert IsChain(succ, chains[v]);
      TaskKey(p, succ, chains[v][j]);
    }
    forall v, k, w, l | 0 <= v < |chains| && 0 <= k < |chains[v]| && 0 <= w < |chains| && 0 <= l < |chains[w]|
      ensures Slot(chains, v, k) == Slot(chains, w, l) ==> v == w && k == l
    {
      if v < w {
        assert Slot(chains, v, k) != Slot(chains, w, l);
      } else if w < v {
        assert Slot(chains, w, l) != Slot(chains, v, k);
      } else {
        assert IsChain(succ, chains[v]);
        if k < l {
          assert Pos(chains[v], k) != Pos(chains[v], l);
        } else if l < k {
          assert Pos(chains[v], l) != Pos(chains[v], k);
        }
      }
    }
    forall t | t in p.tasks
      ensures Pick(t) in NodesOf(chains) && Del(t) in NodesOf(chains)
    {
      assert Pick(t) in TaskNodes(p) && Del(t) in TaskNodes(p);
    }
  }

  lemma FirstTaskLabel(p: Problem)
    ensures |p.tasks| > 0 ==> Pick(p.tasks[0]) in AllNodes(p)
  {
    if |p.tasks| > 0 {
      assert Pick(p.tasks[0]) in TaskNodes(p);
    }
  }

  /** Without vehicles there are no labels and so no tasks: the cost is 0. */
  lemma NoRoutes(p: Problem, succ: Successors, chains: seq<seq<Node>>)
    requires WellFormed(p, succ) && Encodes(p, succ, chains) && |chains| == 0
    ensures CostOf(p, succ, Ids(p)) == Fin(0) && RoutesOK(p, chains) && RoutesCost(p, chains, 0) == 0
  {
    FirstTaskLabel(p);
    assert p.tasks == [];
    assert Ids(p) == {};
  }

  lemma ExpectedAtStart(p: Problem, chains: seq<seq<Node>>)
    requires |chains| == |p.vehicles| && |chains| > 0
    ensures Expected(p, chains, 0, 0, 0) == if RoutesOK(p, chains) then Fin(RoutesCost(p, chains, 0)) else Inf
  {
    assert OKFrom(p, chains, 0, 0) <==> RoutesOK(p, chains);
  }

  lemma StartMatches(p: Problem, chains: seq<seq<Node>>)
    requires |chains| > 0
    ensures StatusMatches(p, Seen(chains, 0, 0), InitialStatus(Ids(p)))
  {
    assert chains[..0] == [] && chains[0][..0] == [];
    assert Seen(chains, 0, 0) == {};
  }

  /**
   * What the evaluator returns on an assignment that encodes the given routes:
   * +infinity unless every check passes along the routes in the order the
   * evaluator walks them, otherwise the sum over vehicles of route distance
   * times cost per kilometre.
   */
  lemma CostOfRoutes(p: Problem, succ: Successors, chains: seq<seq<Node>>)
    requires WellFormed(p, succ) && Encodes(p, succ, chains) && DistinctIds(p)
    ensures CostOf(p, succ, Ids(p)) == if RoutesOK(p, chains) then Fin(RoutesCost(p, chains, 0)) else Inf
  {
    var st := InitialStatus(Ids(p));
    if |chains| == 0 {
      NoRoutes(p, succ, chains);
    } else {
      FollowsOf(p, succ, chains);
      LayoutOf(p, succ, chains);
      StartMatches(p, chains);
      RunSimulates(p, succ, chains, 0, 0, 0, st, 0);
      assert Load(chains[0][..0]) == 0 by { assert chains[0][..0] == []; }
      RunAlongRoutes(p, chains, 0, 0, st, 0);
      ExpectedAtStart(p, chains);
    }
  }
}
