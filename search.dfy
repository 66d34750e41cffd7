/**
 * The BFS and A* drivers of the deliberative planner
 * (`plan` in deliberative/src/deliberative/DeliberativeAgent.java, `BFSPlan`
 * and `AStarPlan` in deliberative/src/template/DeliberativeTemplate.java)
 * and the plan reconstruction they end with.  The drivers differ only in
 * how they treat a child whose cost is already recorded, which is the
 * `Revisit` parameter here.  Costs are exact naturals, the heuristic is a
 * parameter, the order in which `nextStates` lists the successors is
 * unspecified, and the search runs for at most `steps` polls.
 */
module DeliberativeSearch {
  import opened Routing
  import opened CostEval
  import opened DeliberativeState

  datatype Algorithm = BFS | AStar

  datatype Stop = First | Best

  /**
   * When a child already has a recorded cost, it is skipped: WhenCheaper
   * unless the new cost is strictly lower than the recorded one,
   * AgainstParent unless the new cost is strictly lower than the parent's
   * cost, Never always.
   */
  datatype Revisit = WhenCheaper | AgainstParent | Never

  /** The agent's test: a known child is skipped always under BFS with Stop.FIRST, otherwise unless cheaper. */
  function AgentRevisit(algorithm: Algorithm, stop: Stop): Revisit {
    if algorithm == BFS && stop == First then Never else WhenCheaper
  }

  /** The template's test as written: BFS compares with the parent's cost, A* never reopens a state. */
  function TemplateRevisitAsWritten(algorithm: Algorithm): Revisit {
    if algorithm == BFS then AgainstParent else Never
  }

  /** The template's test as its comment describes it for BFS. */
  function TemplateRevisit(algorithm: Algorithm): Revisit {
    if algorithm == BFS then WhenCheaper else Never
  }

  /** The cost of one transition: the distance driven times the vehicle's cost per kilometre. */
  function StepCost(topo: Topology, v: Vehicle, s: State, next: State): nat {
    topo.dist(s.city, next.city) * v.costPerKm
  }

  predicate Skips(revisit: Revisit, costs: map<State, nat>, parent: State, child: State, childCost: nat)
    requires parent in costs
  {
    child in costs &&
    match revisit
    case WhenCheaper => childCost >= costs[child]
    case AgainstParent => childCost >= costs[parent]
    case Never => true
  }

  /**
   * The bookkeeping of the search: the initial state costs 0 and has no
   * parent; every other recorded state has a parent and a cause, the cause
   * leads from the parent to it, and its cost is at least the parent's cost
   * plus the cost of that step.
   */
  predicate Recorded(topo: Topology, v: Vehicle, init: State, costs: map<State, nat>, parents: map<State, State>, causes: map<State, Action>) {
    init in costs && costs[init] == 0 && init !in parents
    && parents.Keys == costs.Keys - {init} && causes.Keys == parents.Keys
    && forall x :: x in parents ==>
      parents[x] in costs && Apply(topo, parents[x], causes[x]) == Some(x)
      && costs[x] >= costs[parents[x]] + StepCost(topo, v, parents[x], x)
  }

  /** Recorded costs only go down, and no state is forgotten. */
  predicate Improves(costs: map<State, nat>, costs': map<State, nat>) {
    costs.Keys <= costs'.Keys && forall x :: x in costs ==> costs'[x] <= costs[x]
  }

  /** Under A*, f is the recorded cost plus the heuristic, for every recorded state. */
  predicate Estimates(costs: map<State, nat>, f: map<State, nat>, h: State -> nat) {
    forall x :: x in costs ==> x in f && f[x] == costs[x] + h(x)
  }

  /**
   * Every transition in ts out of s, taken from cost c and not beyond the
   * best cost, reaches a recorded state at most that expensive.
   */
  predicate RelaxedOn(topo: Topology, v: Vehicle, costs: map<State, nat>, bestCost: Cost, s: State, c: nat, ts: set<Transition>) {
    forall t :: t in ts && AtMost(Fin(c + StepCost(topo, v, s, t.0)), bestCost) ==>
      t.0 in costs && costs[t.0] <= c + StepCost(topo, v, s, t.0)
  }

  predicate Relaxed(topo: Topology, v: Vehicle, costs: map<State, nat>, bestCost: Cost, s: State, c: nat) {
    RelaxedOn(topo, v, costs, bestCost, s, c, NextStates(topo, s))
  }

  /** Lower recorded costs and a lower best cost keep a state relaxed. */
  lemma RelaxedMonotone(topo: Topology, v: Vehicle, costs: map<State, nat>, costs': map<State, nat>,
                        bestCost: Cost, bestCost': Cost, s: State, c: nat)
    requires Relaxed(topo, v, costs, bestCost, s, c) && Improves(costs, costs') && AtMost(bestCost', bestCost)
    ensures Relaxed(topo, v, costs', bestCost', s, c)
  {
    forall t | t in NextStates(topo, s) && AtMost(Fin(c + StepCost(topo, v, s, t.0)), bestCost')
      ensures t.0 in costs' && costs'[t.0] <= c + StepCost(topo, v, s, t.0)
    {
      AtMostTransitive(Fin(c + StepCost(topo, v, s, t.0)), bestCost', bestCost);
    }
  }

  // ---------------------------------------------------------------------------
  // The revisit test of the template's BFS
  // ---------------------------------------------------------------------------

  /**
   * As written, the template's BFS compares a child's cost with its parent's
   * cost, which it can never be below: a known child is always skipped.
   */
  lemma AgainstParentNeverReopens(topo: Topology, v: Vehicle, costs: map<State, nat>, parent: State, child: State)
    requires parent in costs
    ensures Skips(AgainstParent, costs, parent, child, costs[parent] + StepCost(topo, v, parent, child)) <==> child in costs
  {
  }

  /**
   * A state recorded at cost 10 and reached again for 5 from a parent
   * recorded at 2: the test as written drops the cheaper route, the
   * corrected test keeps it.
   */
  lemma AgainstParentDropsCheaperRoute()
    ensures var parent, child := State(0, {}, {}, 0), State(1, {}, {}, 0);
      var costs := map[parent := 2, child := 10];
      Skips(AgainstParent, costs, parent, child, 5) && !Skips(WhenCheaper, costs, parent, child, 5)
  {
    var parent, child := State(0, {}, {}, 0), State(1, {}, {}, 0);
    var costs := map[parent := 2, child := 10];
    assert costs[child] == 10 && costs[parent] == 2;
  }

  // ---------------------------------------------------------------------------
  // The search
  // ---------------------------------------------------------------------------

  /** An index of a queue entry whose f is least. */
  function ArgMin(queue: seq<State>, f: map<State, nat>): (i: nat)
    requires queue != [] && forall x :: x in queue ==> x in f
    ensures i < |queue| && forall j :: 0 <= j < |queue| ==> f[queue[i]] <= f[queue[j]]
  {
    if |queue| == 1 then 0
    else
      var k := ArgMin(queue[1..], f);
      if f[queue[0]] <= f[queue[1 + k]] then 0 else 1 + k
  }

  /** A child passes the test to be recorded: it is no dearer than the best cost, and the revisit test does not reject it. */
  predicate Enters(topo: Topology, v: Vehicle, revisit: Revisit, bestCost: Cost, costs: map<State, nat>, state: State, child: State)
    requires state in costs
  {
    AtMost(Fin(costs[state] + StepCost(topo, v, state, child)), bestCost)
    && !Skips(revisit, costs, state, child, costs[state] + StepCost(topo, v, state, child))
  }

  /**
   * The parent links lead back to the initial state: along a link the cost
   * never goes up, and where it stays the same a ghost depth goes down.
   */
  ghost predicate Grounded(costs: map<State, nat>, parents: map<State, State>, depth: map<State, nat>) {
    depth.Keys == costs.Keys
    && forall x :: x in parents ==>
      x in costs && parents[x] in costs
      && (costs[parents[x]] < costs[x] || (costs[parents[x]] == costs[x] && depth[parents[x]] < depth[x]))
  }

  /**
   * One child of a polled state: a child beyond the best cost is skipped,
   * so is a known child the revisit test rejects, and any other child is
   * recorded with its parent, its cause, its cost and (under A*) its f, and
   * enqueued.
   */
  method Visit(topo: Topology, v: Vehicle, h: State -> nat, algorithm: Algorithm, revisit: Revisit,
               state: State, cost: nat, bestCost: Cost, t: Transition,
               costs0: map<State, nat>, parents0: map<State, State>, causes0: map<State, Action>, f0: map<State, nat>,
               queue0: seq<State>, ghost depth0: map<State, nat>)
      returns (costs: map<State, nat>, parents: map<State, State>, causes: map<State, Action>, f: map<State, nat>, queue: seq<State>,
               ghost depth: map<State, nat>)
    requires state in costs0 && costs0[state] == cost && state in depth0
    ensures Enters(topo, v, revisit, bestCost, costs0, state, t.0) ==>
      Visited(topo, v, h, algorithm, state, cost, t, costs0, parents0, causes0, f0, queue0, depth0,
              costs, parents, causes, f, queue, depth)
    ensures !Enters(topo, v, revisit, bestCost, costs0, state, t.0) ==>
      costs == costs0 && parents == parents0 && causes == causes0 && f == f0 && queue == queue0 && depth == depth0
  {
    costs, parents, causes, f, queue, depth := costs0, parents0, causes0, f0, queue0, depth0;
    var (child, action) := t;
    var childCost := cost + StepCost(topo, v, state, child);
    if !AtMost(Fin(childCost), bestCost) {
      return;
    }
    if Skips(revisit, costs, state, child, childCost) {
      return;
    }
    parents := parents[child := state];
    costs := costs[child := childCost];
    causes := causes[child := action];
    depth := depth[child := depth0[state] + 1];
    if algorithm == AStar {
      f := f[child := childCost + h(child)];
    }
    queue := queue + [child];
  }

  /**
   * The state after the transition t out of state entered its target: the
   * target is recorded with the step's cost, state as parent and the
   * transition's action as cause, gets its estimate under A*, and joins
   * the back of the queue.
   */
  ghost predicate Visited(topo: Topology, v: Vehicle, h: State -> nat, algorithm: Algorithm, state: State, cost: nat, t: Transition,
                          costs0: map<State, nat>, parents0: map<State, State>, causes0: map<State, Action>, f0: map<State, nat>,
                          queue0: seq<State>, depth0: map<State, nat>,
                          costs: map<State, nat>, parents: map<State, State>, causes: map<State, Action>, f: map<State, nat>,
                          queue: seq<State>, depth: map<State, nat>)
    requires state in depth0
  {
    && costs == costs0[t.0 := cost + StepCost(topo, v, state, t.0)]
    && parents == parents0[t.0 := state] && causes == causes0[t.0 := t.1]
    && f == (if algorithm == AStar then f0[t.0 := cost + StepCost(topo, v, state, t.0) + h(t.0)] else f0)
    && queue == queue0 + [t.0] && depth == depth0[t.0 := depth0[state] + 1]
  }

  /** Recording a state with its estimate keeps every estimate in step with its cost. */
  lemma EstimateStep(costs: map<State, nat>, f: map<State, nat>, h: State -> nat, child: State, childCost: nat)
    requires Estimates(costs, f, h)
    ensures Estimates(costs[child := childCost], f[child := childCost + h(child)], h)
  {
  }

  /** One visit keeps the bookkeeping, covers its transition, and enqueues only the state it entered. */
  lemma VisitKeeps(topo: Topology, v: Vehicle, h: State -> nat, algorithm: Algorithm, revisit: Revisit, init: State,
                   state: State, cost: nat, bestCost: Cost, t: Transition,
                   costs0: map<State, nat>, parents0: map<State, State>, causes0: map<State, Action>, f0: map<State, nat>,
                   queue0: seq<State>, depth0: map<State, nat>,
                   costs: map<State, nat>, parents: map<State, State>, causes: map<State, Action>, f: map<State, nat>,
                   queue: seq<State>, depth: map<State, nat>)
    requires t in NextStates(topo, state)
    requires Recorded(topo, v, init, costs0, parents0, causes0) && state in costs0 && costs0[state] == cost
    requires Grounded(costs0, parents0, depth0)
    requires algorithm == AStar ==> Estimates(costs0, f0, h)
    requires forall x :: x in queue0 ==> x in costs0
    requires Enters(topo, v, revisit, bestCost, costs0, state, t.0) ==>
      Visited(topo, v, h, algorithm, state, cost, t, costs0, parents0, causes0, f0, queue0, depth0,
              costs, parents, causes, f, queue, depth)
    requires !Enters(topo, v, revisit, bestCost, costs0, state, t.0) ==>
      costs == costs0 && parents == parents0 && causes == causes0 && f == f0 && queue == queue0 && depth == depth0
    ensures Recorded(topo, v, init, costs, parents, causes) && Improves(costs0, costs)
    ensures Grounded(costs, parents, depth)
    ensures state in costs && costs[state] == cost
    ensures algorithm == AStar ==> Estimates(costs, f, h)
    ensures |queue0| <= |queue| && queue[..|queue0|] == queue0 && forall x :: x in queue ==> x in costs
    ensures Covered(topo, v, revisit, costs, bestCost, state, cost, t)
    ensures queue == queue0 || (queue == queue0 + [t.0] && Entered(topo, v, state, cost, bestCost, costs, parents, causes, t.0))
  {
    if Enters(topo, v, revisit, bestCost, costs0, state, t.0) {
      EnterKeeps(topo, v, h, algorithm, revisit, init, state, cost, bestCost, t.0, t.1,
                 costs0, parents0, causes0, f0, queue0, depth0);
    } else {
      assert queue[..|queue0|] == queue0;
    }
  }

  /** Recording a child under a strictly lower cost keeps the parent links grounded. */
  lemma GroundStep(costs: map<State, nat>, parents: map<State, State>, depth: map<State, nat>,
                   state: State, child: State, childCost: nat)
    requires Grounded(costs, parents, depth) && state in costs && childCost >= costs[state]
    requires child in costs ==> childCost < costs[child]
    requires forall x :: x in parents ==> costs[x] >= costs[parents[x]]
    ensures Grounded(costs[child := childCost], parents[child := state], depth[child := depth[state] + 1])
  {
    var costs', parents', depth' := costs[child := childCost], parents[child := state], depth[child := depth[state] + 1];
    assert child != state;
    forall x | x in parents'
      ensures x in costs' && parents'[x] in costs'
      ensures costs'[parents'[x]] < costs'[x] || (costs'[parents'[x]] == costs'[x] && depth'[parents'[x]] < depth'[x])
    {
      if x != child && parents[x] == child {
        assert costs[x] >= costs[child];
      }
    }
  }

  /**
   * x was recorded by the expansion of state: state is its parent, its
   * cause is a transition out of state, and its cost is that of the step,
   * no dearer than the best cost.
   */
  predicate Entered(topo: Topology, v: Vehicle, state: State, cost: nat, bestCost: Cost,
                    costs: map<State, nat>, parents: map<State, State>, causes: map<State, Action>, x: State) {
    x in costs && x in parents && x in causes && parents[x] == state && (x, causes[x]) in NextStates(topo, state)
    && costs[x] == cost + StepCost(topo, v, state, x) && AtMost(Fin(costs[x]), bestCost)
  }

  /** x keeps its recorded cost, and its parent and cause if it has them. */
  predicate Kept(costs0: map<State, nat>, parents0: map<State, State>, causes0: map<State, Action>,
                 costs: map<State, nat>, parents: map<State, State>, causes: map<State, Action>, x: State) {
    x in costs0 && x in costs && costs[x] == costs0[x] && (x in parents0 <==> x in parents)
    && (x in parents0 ==> x in causes0 && x in causes && parents[x] == parents0[x] && causes[x] == causes0[x])
  }

  /**
   * The expansion of state forgot nothing and changed only states it
   * entered; it entered a state already known only under WhenCheaper, and
   * only for a strictly lower cost.
   */
  ghost predicate Updated(topo: Topology, v: Vehicle, revisit: Revisit, state: State, cost: nat, bestCost: Cost,
                          costs0: map<State, nat>, parents0: map<State, State>, causes0: map<State, Action>,
                          costs: map<State, nat>, parents: map<State, State>, causes: map<State, Action>) {
    costs0.Keys <= costs.Keys
    && forall x {:trigger Kept(costs0, parents0, causes0, costs, parents, causes, x)} :: x in costs ==>
      Kept(costs0, parents0, causes0, costs, parents, causes, x)
      || (Entered(topo, v, state, cost, bestCost, costs, parents, causes, x)
          && (x in costs0 ==> revisit == WhenCheaper && costs[x] < costs0[x]))
  }

  /** Every state whose record changed was enqueued after the first n entries of queue. */
  predicate Enqueued(costs0: map<State, nat>, parents0: map<State, State>, causes0: map<State, Action>,
                     costs: map<State, nat>, parents: map<State, State>, causes: map<State, Action>, queue: seq<State>, n: nat)
    requires n <= |queue|
  {
    forall x {:trigger Kept(costs0, parents0, causes0, costs, parents, causes, x)} ::
      x in costs && !Kept(costs0, parents0, causes0, costs, parents, causes, x) ==> x in queue[n..]
  }

  /** Every transition in ts out of s, from cost c and not beyond the best cost, reaches a recorded state. */
  predicate ReachedOn(topo: Topology, v: Vehicle, costs: map<State, nat>, bestCost: Cost, s: State, c: nat, ts: set<Transition>) {
    forall t :: t in ts && AtMost(Fin(c + StepCost(topo, v, s, t.0)), bestCost) ==> t.0 in costs
  }

  /**
   * The transition t out of s, taken from cost c and not beyond the best
   * cost, reaches a recorded state, which under WhenCheaper is at most that
   * expensive.
   */
  predicate Covered(topo: Topology, v: Vehicle, revisit: Revisit, costs: map<State, nat>, bestCost: Cost, s: State, c: nat, t: Transition) {
    AtMost(Fin(c + StepCost(topo, v, s, t.0)), bestCost) ==>
      t.0 in costs && (revisit == WhenCheaper ==> costs[t.0] <= c + StepCost(topo, v, s, t.0))
  }

  /** The first n transitions of ts are covered. */
  predicate CoveredUpTo(topo: Topology, v: Vehicle, revisit: Revisit, costs: map<State, nat>, bestCost: Cost, s: State, c: nat,
                        ts: seq<Transition>, n: nat) {
    forall j {:trigger Covered(topo, v, revisit, costs, bestCost, s, c, ts[j])} :: 0 <= j < n <= |ts| ==>
      Covered(topo, v, revisit, costs, bestCost, s, c, ts[j])
  }

  /**
   * What the loop over the children of state keeps: the bookkeeping, the
   * record of what it changed, the states it enqueued, and the transitions
   * in done reaching recorded states (relaxed ones under WhenCheaper).
   */
  ghost predicate Expanding(topo: Topology, v: Vehicle, h: State -> nat, algorithm: Algorithm, revisit: Revisit, init: State,
                            state: State, cost: nat, bestCost: Cost,
                            costs0: map<State, nat>, parents0: map<State, State>, causes0: map<State, Action>, queue0: seq<State>,
                            ts: seq<Transition>, n: nat,
                            costs: map<State, nat>, parents: map<State, State>, causes: map<State, Action>, f: map<State, nat>,
                            queue: seq<State>, depth: map<State, nat>) {
    && Recorded(topo, v, init, costs, parents, causes) && Improves(costs0, costs)
    && Grounded(costs, parents, depth)
    && Updated(topo, v, revisit, state, cost, bestCost, costs0, parents0, causes0, costs, parents, causes)
    && state in costs && costs[state] == cost && state in depth
    && (algorithm == AStar ==> Estimates(costs, f, h))
    && |queue0| <= |queue| && queue[..|queue0|] == queue0 && (forall x :: x in queue ==> x in costs)
    && (forall i :: |queue0| <= i < |queue| ==> Entered(topo, v, state, cost, bestCost, costs, parents, causes, queue[i]))
    && Enqueued(costs0, parents0, causes0, costs, parents, causes, queue, |queue0|)
    && CoveredUpTo(topo, v, revisit, costs, bestCost, state, cost, ts, n)
  }

  /** The loop over the children of one polled state. */
  method Expand(topo: Topology, v: Vehicle, h: State -> nat, algorithm: Algorithm, revisit: Revisit, init: State,
                state: State, cost: nat, bestCost: Cost,
                costs0: map<State, nat>, parents0: map<State, State>, causes0: map<State, Action>, f0: map<State, nat>,
                queue0: seq<State>, ghost depth0: map<State, nat>)
      returns (costs: map<State, nat>, parents: map<State, State>, causes: map<State, Action>, f: map<State, nat>, queue: seq<State>,
               ghost depth: map<State, nat>)
    requires Recorded(topo, v, init, costs0, parents0, causes0) && state in costs0 && costs0[state] == cost
    requires Grounded(costs0, parents0, depth0)
    requires algorithm == AStar ==> Estimates(costs0, f0, h)
    requires forall x :: x in queue0 ==> x in costs0
    ensures Recorded(topo, v, init, costs, parents, causes) && Improves(costs0, costs)
    ensures Grounded(costs, parents, depth)
    ensures Updated(topo, v, revisit, state, cost, bestCost, costs0, parents0, causes0, costs, parents, causes)
    ensures revisit != WhenCheaper ==> forall x :: x in costs0 ==> Kept(costs0, parents0, causes0, costs, parents, causes, x)
    ensures algorithm == AStar ==> Estimates(costs, f, h)
    ensures |queue0| <= |queue| && queue[..|queue0|] == queue0 && forall x :: x in queue ==> x in costs
    ensures forall i :: |queue0| <= i < |queue| ==> Entered(topo, v, state, cost, bestCost, costs, parents, causes, queue[i])
    ensures forall x :: x in costs && !Kept(costs0, parents0, causes0, costs, parents, causes, x) ==> x in queue[|queue0|..]
    ensures ReachedOn(topo, v, costs, bestCost, state, cost, NextStates(topo, state))
    ensures revisit == WhenCheaper ==> Relaxed(topo, v, costs, bestCost, state, cost)
  {
    costs, parents, causes, f, queue, depth := costs0, parents0, causes0, f0, queue0, depth0;
    var ts := Collections.ListOf(NextStates(topo, state));
    ExpandStart(topo, v, h, algorithm, revisit, init, state, cost, bestCost, costs0, parents0, causes0, f0, queue0, depth0, ts);
    for i := 0 to |ts|
      invariant Expanding(topo, v, h, algorithm, revisit, init, state, cost, bestCost, costs0, parents0, causes0, queue0,
                          ts, i, costs, parents, causes, f, queue, depth)
    {
      var t := ts[i];
      assert t in ts;
      ghost var costs1, parents1, causes1, f1, queue1, depth1 := costs, parents, causes, f, queue, depth;
      costs, parents, causes, f, queue, depth := Visit(topo, v, h, algorithm, revisit, state, cost, bestCost, t,
                                                       costs, parents, causes, f, queue, depth);
      ExpandStep(topo, v, h, algorithm, revisit, init, state, cost, bestCost, costs0, parents0, causes0, queue0, ts, i, t,
                 costs1, parents1, causes1, f1, queue1, depth1, costs, parents, causes, f, queue, depth);
    }
    ExpandDone(topo, v, h, algorithm, revisit, init, state, cost, bestCost, costs0, parents0, causes0, queue0, ts,
               costs, parents, causes, f, queue, depth);
  }

  /** A visit that enters its target enqueues it; one that does not changes nothing. */
  lemma EnqueuedStep(topo: Topology, v: Vehicle, h: State -> nat, algorithm: Algorithm, revisit: Revisit,
                     state: State, cost: nat, bestCost: Cost, t: Transition,
                     costs0: map<State, nat>, parents0: map<State, State>, causes0: map<State, Action>, n: nat,
                     costs1: map<State, nat>, parents1: map<State, State>, causes1: map<State, Action>, f1: map<State, nat>,
                     queue1: seq<State>, depth1: map<State, nat>,
                     costs2: map<State, nat>, parents2: map<State, State>, causes2: map<State, Action>, f2: map<State, nat>,
                     queue2: seq<State>, depth2: map<State, nat>)
    requires state in costs1 && state in depth1 && n <= |queue1|
    requires Enqueued(costs0, parents0, causes0, costs1, parents1, causes1, queue1, n)
    requires Enters(topo, v, revisit, bestCost, costs1, state, t.0) ==>
      Visited(topo, v, h, algorithm, state, cost, t, costs1, parents1, causes1, f1, queue1, depth1,
              costs2, parents2, causes2, f2, queue2, depth2)
    requires !Enters(topo, v, revisit, bestCost, costs1, state, t.0) ==>
      costs2 == costs1 && parents2 == parents1 && causes2 == causes1 && queue2 == queue1
    ensures n <= |queue2| && Enqueued(costs0, parents0, causes0, costs2, parents2, causes2, queue2, n)
  {
    if Enters(topo, v, revisit, bestCost, costs1, state, t.0) {
      assert queue2[n..] == queue1[n..] + [t.0];
      forall x | x in costs2 && !Kept(costs0, parents0, causes0, costs2, parents2, causes2, x) ensures x in queue2[n..] {
        if x != t.0 {
          assert Kept(costs0, parents0, causes0, costs2, parents2, causes2, x) == Kept(costs0, parents0, causes0, costs1, parents1, causes1, x);
        }
      }
    }
  }

  /** Before the first child, the loop's invariant holds of the untouched state. */
  lemma ExpandStart(topo: Topology, v: Vehicle, h: State -> nat, algorithm: Algorithm, revisit: Revisit, init: State,
                    state: State, cost: nat, bestCost: Cost,
                    costs0: map<State, nat>, parents0: map<State, State>, causes0: map<State, Action>, f0: map<State, nat>,
                    queue0: seq<State>, depth0: map<State, nat>, ts: seq<Transition>)
    requires Recorded(topo, v, init, costs0, parents0, causes0) && state in costs0 && costs0[state] == cost
    requires Grounded(costs0, parents0, depth0)
    requires algorithm == AStar ==> Estimates(costs0, f0, h)
    requires forall x :: x in queue0 ==> x in costs0
    ensures Expanding(topo, v, h, algorithm, revisit, init, state, cost, bestCost, costs0, parents0, causes0, queue0,
                      ts, 0, costs0, parents0, causes0, f0, queue0, depth0)
  {
    assert queue0[..|queue0|] == queue0;
    assert forall x :: x in costs0 ==> Kept(costs0, parents0, causes0, costs0, parents0, causes0, x);
  }

  /** After the last child, the loop's invariant gives what the expansion promises. */
  lemma ExpandDone(topo: Topology, v: Vehicle, h: State -> nat, algorithm: Algorithm, revisit: Revisit, init: State,
                   state: State, cost: nat, bestCost: Cost,
                   costs0: map<State, nat>, parents0: map<State, State>, causes0: map<State, Action>, queue0: seq<State>,
                   ts: seq<Transition>,
                   costs: map<State, nat>, parents: map<State, State>, causes: map<State, Action>, f: map<State, nat>,
                   queue: seq<State>, depth: map<State, nat>)
    requires forall t :: t in ts <==> t in NextStates(topo, state)
    requires Expanding(topo, v, h, algorithm, revisit, init, state, cost, bestCost, costs0, parents0, causes0, queue0,
                       ts, |ts|, costs, parents, causes, f, queue, depth)
    ensures Recorded(topo, v, init, costs, parents, causes) && Improves(costs0, costs)
    ensures Grounded(costs, parents, depth)
    ensures Updated(topo, v, revisit, state, cost, bestCost, costs0, parents0, causes0, costs, parents, causes)
    ensures revisit != WhenCheaper ==> forall x :: x in costs0 ==> Kept(costs0, parents0, causes0, costs, parents, causes, x)
    ensures algorithm == AStar ==> Estimates(costs, f, h)
    ensures |queue0| <= |queue| && queue[..|queue0|] == queue0 && forall x :: x in queue ==> x in costs
    ensures forall i :: |queue0| <= i < |queue| ==> Entered(topo, v, state, cost, bestCost, costs, parents, causes, queue[i])
    ensures forall x :: x in costs && !Kept(costs0, parents0, causes0, costs, parents, causes, x) ==> x in queue[|queue0|..]
    ensures ReachedOn(topo, v, costs, bestCost, state, cost, NextStates(topo, state))
    ensures revisit == WhenCheaper ==> Relaxed(topo, v, costs, bestCost, state, cost)
  {
    CoveredAll(topo, v, revisit, costs, bestCost, state, cost, ts);
  }

  /** One visit inside the loop over the children keeps what the loop keeps, with one more transition done. */
  lemma ExpandStep(topo: Topology, v: Vehicle, h: State -> nat, algorithm: Algorithm, revisit: Revisit, init: State,
                   state: State, cost: nat, bestCost: Cost,
                   costs0: map<State, nat>, parents0: map<State, State>, causes0: map<State, Action>, queue0: seq<State>,
                   ts: seq<Transition>, n: nat, t: Transition,
                   costs1: map<State, nat>, parents1: map<State, State>, causes1: map<State, Action>, f1: map<State, nat>,
                   queue1: seq<State>, depth1: map<State, nat>,
                   costs2: map<State, nat>, parents2: map<State, State>, causes2: map<State, Action>, f2: map<State, nat>,
                   queue2: seq<State>, depth2: map<State, nat>)
    requires n < |ts| && t == ts[n] && t in NextStates(topo, state)
    requires Expanding(topo, v, h, algorithm, revisit, init, state, cost, bestCost, costs0, parents0, causes0, queue0,
                       ts, n, costs1, parents1, causes1, f1, queue1, depth1)
    requires Enters(topo, v, revisit, bestCost, costs1, state, t.0) ==>
      Visited(topo, v, h, algorithm, state, cost, t, costs1, parents1, causes1, f1, queue1, depth1,
              costs2, parents2, causes2, f2, queue2, depth2)
    requires !Enters(topo, v, revisit, bestCost, costs1, state, t.0) ==>
      costs2 == costs1 && parents2 == parents1 && causes2 == causes1 && f2 == f1 && queue2 == queue1 && depth2 == depth1
    ensures Expanding(topo, v, h, algorithm, revisit, init, state, cost, bestCost, costs0, parents0, causes0, queue0,
                      ts, n + 1, costs2, parents2, causes2, f2, queue2, depth2)
  {
    VisitKeeps(topo, v, h, algorithm, revisit, init, state, cost, bestCost, t, costs1, parents1, causes1, f1, queue1, depth1,
               costs2, parents2, causes2, f2, queue2, depth2);
    UpdatedVisit(topo, v, revisit, init, state, cost, bestCost, t, costs0, parents0, causes0,
                 costs1, parents1, causes1, costs2, parents2, causes2);
    QueueEntered(topo, v, state, cost, bestCost, costs1, parents1, causes1, costs2, parents2, causes2,
                 |queue0|, queue1, queue2, t.0);
    EnqueuedStep(topo, v, h, algorithm, revisit, state, cost, bestCost, t, costs0, parents0, causes0, |queue0|,
                 costs1, parents1, causes1, f1, queue1, depth1, costs2, parents2, causes2, f2, queue2, depth2);
    assert queue2[..|queue0|] == queue1[..|queue0|];
    CoveredStep(topo, v, revisit, costs1, costs2, bestCost, state, cost, ts, n);
  }

  /** One visit keeps the expansion's record of what it changed, and every state it entered stays entered. */
  lemma UpdatedVisit(topo: Topology, v: Vehicle, revisit: Revisit, init: State, state: State, cost: nat, bestCost: Cost, t: Transition,
                     costs0: map<State, nat>, parents0: map<State, State>, causes0: map<State, Action>,
                     costs1: map<State, nat>, parents1: map<State, State>, causes1: map<State, Action>,
                     costs2: map<State, nat>, parents2: map<State, State>, causes2: map<State, Action>)
    requires t in NextStates(topo, state)
    requires Recorded(topo, v, init, costs1, parents1, causes1) && state in costs1 && costs1[state] == cost
    requires Updated(topo, v, revisit, state, cost, bestCost, costs0, parents0, causes0, costs1, parents1, causes1)
    requires Enters(topo, v, revisit, bestCost, costs1, state, t.0) ==>
      costs2 == costs1[t.0 := cost + StepCost(topo, v, state, t.0)] && parents2 == parents1[t.0 := state] && causes2 == causes1[t.0 := t.1]
    requires !Enters(topo, v, revisit, bestCost, costs1, state, t.0) ==>
      costs2 == costs1 && parents2 == parents1 && causes2 == causes1
    ensures Updated(topo, v, revisit, state, cost, bestCost, costs0, parents0, causes0, costs2, parents2, causes2)
    ensures forall x :: Entered(topo, v, state, cost, bestCost, costs1, parents1, causes1, x) ==>
      Entered(topo, v, state, cost, bestCost, costs2, parents2, causes2, x)
  {
    if Enters(topo, v, revisit, bestCost, costs1, state, t.0) {
      var child := t.0;
      var childCost := cost + StepCost(topo, v, state, child);
      forall x | x in costs2
        ensures Kept(costs0, parents0, causes0, costs2, parents2, causes2, x)
             || (Entered(topo, v, state, cost, bestCost, costs2, parents2, causes2, x)
                 && (x in costs0 ==> revisit == WhenCheaper && costs2[x] < costs0[x]))
      {
        if x == child {
          assert Entered(topo, v, state, cost, bestCost, costs2, parents2, causes2, x);
          if x in costs0 {
            assert Kept(costs0, parents0, causes0, costs1, parents1, causes1, x);
            assert revisit == WhenCheaper && childCost < costs1[x];
            assert !Entered(topo, v, state, cost, bestCost, costs1, parents1, causes1, x);
          }
        } else if Kept(costs0, parents0, causes0, costs1, parents1, causes1, x) {
          assert Kept(costs0, parents0, causes0, costs2, parents2, causes2, x);
        } else {
          assert Entered(topo, v, state, cost, bestCost, costs2, parents2, causes2, x);
        }
      }
    }
  }

  /** Entering the target of a transition keeps the bookkeeping and covers the transition. */
  lemma EnterKeeps(topo: Topology, v: Vehicle, h: State -> nat, algorithm: Algorithm, revisit: Revisit, init: State,
                   state: State, cost: nat, bestCost: Cost, child: State, action: Action,
                   costs: map<State, nat>, parents: map<State, State>, causes: map<State, Action>, f: map<State, nat>,
                   queue: seq<State>, depth: map<State, nat>)
    requires (child, action) in NextStates(topo, state)
    requires Recorded(topo, v, init, costs, parents, causes) && state in costs && costs[state] == cost
    requires Grounded(costs, parents, depth)
    requires algorithm == AStar ==> Estimates(costs, f, h)
    requires forall x :: x in queue ==> x in costs
    requires Enters(topo, v, revisit, bestCost, costs, state, child)
    ensures var childCost := cost + StepCost(topo, v, state, child);
      var costs', parents', causes' := costs[child := childCost], parents[child := state], causes[child := action];
      && Recorded(topo, v, init, costs', parents', causes') && Improves(costs, costs')
      && Grounded(costs', parents', depth[child := depth[state] + 1])
      && state in costs' && costs'[state] == cost
      && (algorithm == AStar ==> Estimates(costs', f[child := childCost + h(child)], h))
      && (forall x :: x in queue + [child] ==> x in costs')
      && Covered(topo, v, revisit, costs', bestCost, state, cost, (child, action))
      && Entered(topo, v, state, cost, bestCost, costs', parents', causes', child)
  {
    var childCost := cost + StepCost(topo, v, state, child);
    NextStatesApply(topo, state, child, action);
    RecordStep(topo, v, init, costs, parents, causes, state, child, action, childCost);
    GroundStep(costs, parents, depth, state, child, childCost);
    if algorithm == AStar {
      EstimateStep(costs, f, h, child, childCost);
    }
  }

  /** After a visit, the states the expansion put on the queue are still entered ones. */
  lemma QueueEntered(topo: Topology, v: Vehicle, state: State, cost: nat, bestCost: Cost,
                     costs1: map<State, nat>, parents1: map<State, State>, causes1: map<State, Action>,
                     costs2: map<State, nat>, parents2: map<State, State>, causes2: map<State, Action>,
                     n: nat, queue1: seq<State>, queue2: seq<State>, child: State)
    requires n <= |queue1|
    requires forall i :: n <= i < |queue1| ==> Entered(topo, v, state, cost, bestCost, costs1, parents1, causes1, queue1[i])
    requires forall x :: Entered(topo, v, state, cost, bestCost, costs1, parents1, causes1, x) ==>
      Entered(topo, v, state, cost, bestCost, costs2, parents2, causes2, x)
    requires queue2 == queue1 || (queue2 == queue1 + [child] && Entered(topo, v, state, cost, bestCost, costs2, parents2, causes2, child))
    ensures forall i :: n <= i < |queue2| ==> Entered(topo, v, state, cost, bestCost, costs2, parents2, causes2, queue2[i])
  {
    forall i | n <= i < |queue2|
      ensures Entered(topo, v, state, cost, bestCost, costs2, parents2, causes2, queue2[i])
    {
      if i < |queue1| {
        assert queue2[i] == queue1[i];
      }
    }
  }

  /** Lower recorded costs keep the first n transitions covered, and one more covered transition joins them. */
  lemma CoveredStep(topo: Topology, v: Vehicle, revisit: Revisit, costs: map<State, nat>, costs': map<State, nat>, bestCost: Cost,
                    s: State, c: nat, ts: seq<Transition>, n: nat)
    requires n < |ts| && CoveredUpTo(topo, v, revisit, costs, bestCost, s, c, ts, n) && Improves(costs, costs')
    requires Covered(topo, v, revisit, costs', bestCost, s, c, ts[n])
    ensures CoveredUpTo(topo, v, revisit, costs', bestCost, s, c, ts, n + 1)
  {
    forall j | 0 <= j < n + 1 <= |ts|
      ensures Covered(topo, v, revisit, costs', bestCost, s, c, ts[j])
    {
      if j < n {
        assert Covered(topo, v, revisit, costs, bestCost, s, c, ts[j]);
      }
    }
  }

  /** When every listed transition is covered and the list holds every transition out of s, s is fully expanded. */
  lemma CoveredAll(topo: Topology, v: Vehicle, revisit: Revisit, costs: map<State, nat>, bestCost: Cost, s: State, c: nat,
                   ts: seq<Transition>)
    requires CoveredUpTo(topo, v, revisit, costs, bestCost, s, c, ts, |ts|)
    requires forall t :: t in ts <==> t in NextStates(topo, s)
    ensures ReachedOn(topo, v, costs, bestCost, s, c, NextStates(topo, s))
    ensures revisit == WhenCheaper ==> Relaxed(topo, v, costs, bestCost, s, c)
  {
    forall t | t in NextStates(topo, s)
      ensures Covered(topo, v, revisit, costs, bestCost, s, c, t)
    {
      var j :| 0 <= j < |ts| && ts[j] == t;
      assert Covered(topo, v, revisit, costs, bestCost, s, c, ts[j]);
    }
  }

  /** Recording a child that passed the revisit test keeps the bookkeeping. */
  lemma RecordStep(topo: Topology, v: Vehicle, init: State, costs: map<State, nat>, parents: map<State, State>,
                   causes: map<State, Action>, state: State, child: State, action: Action, childCost: nat)
    requires Recorded(topo, v, init, costs, parents, causes) && state in costs
    requires Apply(topo, state, action) == Some(child) && childCost == costs[state] + StepCost(topo, v, state, child)
    requires child in costs ==> childCost < costs[child]
    ensures Recorded(topo, v, init, costs[child := childCost], parents[child := state], causes[child := action])
    ensures child != state
  {
    var costs', parents', causes' := costs[child := childCost], parents[child := state], causes[child := action];
    assert child != init && child != state;
    forall x | x in parents'
      ensures parents'[x] in costs' && Apply(topo, parents'[x], causes'[x]) == Some(x)
      ensures costs'[x] >= costs'[parents'[x]] + StepCost(topo, v, parents'[x], x)
    {
      if x != child {
        assert parents'[x] == parents[x];
      }
    }
    assert parents'.Keys == costs'.Keys - {init};
  }

  /** The recorded global-best costs go strictly down. */
  predicate Decreasing(bests: seq<Cost>) {
    forall i, j :: 0 <= i < j < |bests| ==> Below(bests[j], bests[i])
  }

  /** The goal is a polled final state no dearer than the best cost, which is the last of the decreasing bests. */
  ghost predicate GoalKept(goal: Option<State>, bestCost: Cost, costs: map<State, nat>, polled: seq<State>, bests: seq<Cost>) {
    (goal.None? <==> bestCost == Inf)
    && (goal.Some? ==> IsFinal(goal.value) && goal.value in polled && goal.value in costs && AtMost(Fin(costs[goal.value]), bestCost))
    && Decreasing(bests) && (bests == [] <==> bestCost == Inf) && (bests != [] ==> bests[|bests| - 1] == bestCost)
  }

  /** Every expanded state is relaxed. */
  ghost predicate AllRelaxed(topo: Topology, v: Vehicle, costs: map<State, nat>, bestCost: Cost, expanded: seq<(State, nat)>) {
    forall i :: 0 <= i < |expanded| ==> Relaxed(topo, v, costs, bestCost, expanded[i].0, expanded[i].1)
  }

  lemma AllRelaxedMonotone(topo: Topology, v: Vehicle, costs: map<State, nat>, costs': map<State, nat>,
                           bestCost: Cost, bestCost': Cost, expanded: seq<(State, nat)>)
    requires AllRelaxed(topo, v, costs, bestCost, expanded) && Improves(costs, costs') && AtMost(bestCost', bestCost)
    ensures AllRelaxed(topo, v, costs', bestCost', expanded)
  {
    forall i | 0 <= i < |expanded|
      ensures Relaxed(topo, v, costs', bestCost', expanded[i].0, expanded[i].1)
    {
      RelaxedMonotone(topo, v, costs, costs', bestCost, bestCost', expanded[i].0, expanded[i].1);
    }
  }

  /**
   * `queue.poll()`: the front of the FIFO queue under BFS, a state of least
   * f under A* (which one among equals is unspecified).
   */
  method Poll(algorithm: Algorithm, queue0: seq<State>, f: map<State, nat>) returns (state: State, queue: seq<State>)
    requires queue0 != [] && (algorithm == AStar ==> forall x :: x in queue0 ==> x in f)
    ensures state in queue0 && forall x :: x in queue ==> x in queue0
    ensures algorithm == BFS ==> state == queue0[0] && queue == queue0[1..]
    ensures algorithm == AStar ==> forall x :: x in queue0 ==> f[state] <= f[x]
  {
    if algorithm == BFS {
      state := queue0[0];
      queue := queue0[1..];
    } else {
      var least := ArgMin(queue0, f);
      var i :| 0 <= i < |queue0| && forall j :: 0 <= j < |queue0| ==> f[queue0[i]] <= f[queue0[j]];
      state := queue0[i];
      queue := queue0[..i] + queue0[i + 1..];
      assert forall x :: x in queue ==> x in queue0[..i] || x in queue0[i + 1..];
    }
  }

  /**
   * The search loop: poll a state, make it the goal if it is final and
   * strictly cheaper than the best so far (and stop there under
   * Stop.FIRST), then visit its children.  `polled` lists the polled
   * states, `bests` the successive best costs and `expanded` the states
   * whose children were visited, with the cost they were visited from.
   */
  /** No polled state so far is final. */
  predicate NoneFinal(polled: seq<State>) {
    forall i :: 0 <= i < |polled| ==> !IsFinal(polled[i])
  }

  /** Polling a state that does not become the goal keeps the goal's bookkeeping. */
  lemma KeepGoal(goal: Option<State>, bestCost: Cost, costs: map<State, nat>, polled: seq<State>, bests: seq<Cost>, state: State)
    requires GoalKept(goal, bestCost, costs, polled, bests)
    ensures GoalKept(goal, bestCost, costs, polled + [state], bests)
  {
  }

  /** A final state polled below the best cost becomes the goal and the new best. */
  lemma NewGoal(goal: Option<State>, bestCost: Cost, costs: map<State, nat>, polled: seq<State>, bests: seq<Cost>, state: State)
    requires GoalKept(goal, bestCost, costs, polled, bests)
    requires state in costs && IsFinal(state) && Below(Fin(costs[state]), bestCost)
    ensures GoalKept(Some(state), Fin(costs[state]), costs, polled + [state], bests + [Fin(costs[state])])
  {
  }

  /** Lower recorded costs keep the goal no dearer than the best cost. */
  lemma GoalImproves(goal: Option<State>, bestCost: Cost, costs: map<State, nat>, costs': map<State, nat>,
                     polled: seq<State>, bests: seq<Cost>)
    requires GoalKept(goal, bestCost, costs, polled, bests) && Improves(costs, costs')
    ensures GoalKept(goal, bestCost, costs', polled, bests)
  {
  }

  method Search(topo: Topology, v: Vehicle, h: State -> nat, init: State, algorithm: Algorithm, stop: Stop, revisit: Revisit, steps: nat)
      returns (goal: Option<State>, bestCost: Cost, costs: map<State, nat>, parents: map<State, State>, causes: map<State, Action>,
               f: map<State, nat>, ghost polled: seq<State>, ghost bests: seq<Cost>, ghost expanded: seq<(State, nat)>,
               ghost depth: map<State, nat>)
    ensures Recorded(topo, v, init, costs, parents, causes) && Grounded(costs, parents, depth)
    ensures goal.Some? ==> (goal.value == init <==> IsFinal(init))
    ensures algorithm == AStar ==> Estimates(costs, f, h)
    ensures goal.None? <==> bestCost == Inf
    ensures goal.Some? ==> IsFinal(goal.value) && goal.value in polled && goal.value in costs && AtMost(Fin(costs[goal.value]), bestCost)
    ensures Decreasing(bests) && (bests == [] <==> bestCost == Inf) && (bests != [] ==> bests[|bests| - 1] == bestCost)
    ensures stop == First ==> |bests| <= 1
    ensures stop == First ==> forall i :: 0 <= i < |polled| - 1 ==> !IsFinal(polled[i])
    ensures stop == First ==> (goal.Some? <==> polled != [] && IsFinal(polled[|polled| - 1]))
    ensures stop == First && goal.Some? ==> goal.value == polled[|polled| - 1]
    ensures revisit == WhenCheaper ==> AllRelaxed(topo, v, costs, bestCost, expanded)
  {
    costs, parents, causes := map[init := 0], map[], map[];
    f := if algorithm == AStar then map[init := h(init)] else map[];
    var queue := [init];
    goal, bestCost := None, Inf;
    polled, bests, expanded, depth := [], [], [], map[init := 0];
    var step := 0;
    while queue != [] && step < steps
      invariant step <= steps
      invariant Recorded(topo, v, init, costs, parents, causes) && Grounded(costs, parents, depth)
      invariant polled == [] ==> queue == [init]
      invariant IsFinal(init) && polled != [] ==> goal == Some(init) && bestCost == Fin(0)
      invariant algorithm == AStar ==> Estimates(costs, f, h)
      invariant forall x :: x in queue ==> x in costs
      invariant GoalKept(goal, bestCost, costs, polled, bests)
      invariant stop == First ==> goal.None? && NoneFinal(polled)
      invariant revisit == WhenCheaper ==> AllRelaxed(topo, v, costs, bestCost, expanded)
      decreases steps - step
    {
      var state;
      state, queue := Poll(algorithm, queue, f);
      var cost := costs[state];
      if IsFinal(state) && Below(Fin(cost), bestCost) {
        NewGoal(goal, bestCost, costs, polled, bests, state);
        if revisit == WhenCheaper {
          AllRelaxedMonotone(topo, v, costs, costs, bestCost, Fin(cost), expanded);
        }
        polled := polled + [state];
        bestCost := Fin(cost);
        goal := Some(state);
        bests := bests + [bestCost];
        if stop == First {
          assert NoneFinal(polled[..|polled| - 1]);
          break;
        }
      } else {
        KeepGoal(goal, bestCost, costs, polled, bests, state);
        if stop == First {
          assert NoneFinal(polled + [state]);
        }
        polled := polled + [state];
      }
      ghost var before := costs;
      costs, parents, causes, f, queue, depth := Expand(topo, v, h, algorithm, revisit, init, state, cost, bestCost,
                                                        costs, parents, causes, f, queue, depth);
      GoalImproves(goal, bestCost, before, costs, polled, bests);
      if revisit == WhenCheaper {
        AllRelaxedMonotone(topo, v, before, costs, bestCost, bestCost, expanded);
      }
      expanded := expanded + [(state, cost)];
      step := step + 1;
    }
  }

  // ---------------------------------------------------------------------------
  // reconstructPlan
  // ---------------------------------------------------------------------------

  /** What a sequence of actions costs from s, one step cost per allowed action. */
  ghost function PathCost(topo: Topology, v: Vehicle, s: State, actions: seq<Action>): nat
    decreases |actions|
  {
    if actions == [] then 0
    else
      match Apply(topo, s, actions[0])
      case None => 0
      case Some(next) => StepCost(topo, v, s, next) + PathCost(topo, v, next, actions[1..])
  }

  /** Putting an allowed action in front of a run. */
  lemma Prepend(topo: Topology, v: Vehicle, s: State, a: Action, next: State, actions: seq<Action>)
    requires Apply(topo, s, a) == Some(next)
    ensures Run(topo, s, [a] + actions) == Run(topo, next, actions)
    ensures PathCost(topo, v, s, [a] + actions) == StepCost(topo, v, s, next) + PathCost(topo, v, next, actions)
  {
    assert ([a] + actions)[0] == a && ([a] + actions)[1..] == actions;
  }

  /**
   * `reconstructPlan`: from the goal, the cause of each state is put in
   * front of the actions and the walk moves to its parent, until a state
   * without a cause, which is the initial state.  The source puts a missing
   * cause in the plan when the goal has none (no goal, or the initial state
   * is the goal), which is None here.
   */
  method ReconstructPlan(topo: Topology, v: Vehicle, init: State, goal: Option<State>,
                         costs: map<State, nat>, parents: map<State, State>, causes: map<State, Action>,
                         ghost depth: map<State, nat>)
      returns (plan: Option<seq<Action>>)
    requires Recorded(topo, v, init, costs, parents, causes) && Grounded(costs, parents, depth)
    requires goal.Some? ==> goal.value in costs
    ensures plan.Some? <==> goal.Some? && goal.value != init
    ensures plan.Some? ==> Run(topo, init, plan.value) == Some(goal.value)
    ensures plan.Some? ==> PathCost(topo, v, init, plan.value) <= costs[goal.value]
  {
    if goal.None? || goal.value !in causes {
      return None;
    }
    var state := goal.value;
    var actions := [];
    while state in causes
      invariant state in costs
      invariant Run(topo, state, actions) == Some(goal.value)
      invariant costs[state] + PathCost(topo, v, state, actions) <= costs[goal.value]
      decreases costs[state], depth[state]
    {
      var parent := parents[state];
      Prepend(topo, v, parent, causes[state], state, actions);
      actions := [causes[state]] + actions;
      state := parent;
    }
    return Some(actions);
  }

  /**
   * The planner: search, then reconstruct the plan from the goal.  There is
   * a plan exactly when a goal was found and the initial state is not
   * final; it is a sequence of allowed actions from the initial state to a
   * final state, and costs at most the best cost found.
   */
  method Plan(topo: Topology, v: Vehicle, h: State -> nat, init: State, algorithm: Algorithm, stop: Stop, revisit: Revisit, steps: nat)
      returns (plan: Option<seq<Action>>, ghost bestCost: Cost)
    ensures plan.Some? <==> bestCost != Inf && !IsFinal(init)
    ensures plan.Some? ==> Run(topo, init, plan.value).Some? && IsFinal(Run(topo, init, plan.value).value)
    ensures plan.Some? ==> AtMost(Fin(PathCost(topo, v, init, plan.value)), bestCost)
  {
    var goal, best, costs, parents, causes, f;
    ghost var polled, bests, expanded, depth;
    goal, best, costs, parents, causes, f, polled, bests, expanded, depth := Search(topo, v, h, init, algorithm, stop, revisit, steps);
    bestCost := best;
    plan := ReconstructPlan(topo, v, init, goal, costs, parents, causes, depth);
  }
}
