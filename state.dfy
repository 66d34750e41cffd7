/**
 * The state space of the deliberative single-vehicle planner
 * (deliberative/src/template/State.java).  A state is the vehicle's city,
 * the tasks still waiting, the tasks on board and the capacity left; the
 * successors of a state are its pickups, deliveries and moves to a
 * neighbouring city.  States are values: every successor is a new value and
 * the state it came from is never changed, and equality is field by field,
 * as the source's `equals` and `hashCode` are.
 */
module DeliberativeState {
  import opened Routing

  datatype Action = Pickup(task: Task) | Delivery(task: Task) | Move(city: City)

  datatype State = State(city: City, available: set<Task>, transported: set<Task>, capacity: int)

  /** The road network: each city's neighbours and the distance between two cities. */
  datatype Topology = Topology(neighbors: City -> set<City>, dist: (City, City) -> nat)

  type Transition = (State, Action)

  /** The pickups of `nextStates`: an available task waiting in the current city that fits in the capacity left. */
  function Pickups(s: State): set<Transition> {
    set t | t in s.available && t.pickupCity == s.city && t.weight <= s.capacity
      :: (State(s.city, s.available - {t}, s.transported + {t}, s.capacity - t.weight), Pickup(t))
  }

  /** The deliveries of `nextStates`: a task on board whose destination is the current city. */
  function Deliveries(s: State): set<Transition> {
    set t | t in s.transported && t.deliveryCity == s.city
      :: (State(s.city, s.available, s.transported - {t}, s.capacity + t.weight), Delivery(t))
  }

  /** The moves of `nextStates`: one per neighbouring city. */
  function Moves(topo: Topology, s: State): set<Transition> {
    set c | c in topo.neighbors(s.city) :: (State(c, s.available, s.transported, s.capacity), Move(c))
  }

  /** `nextStates`; the source lists pickups, then deliveries, then moves, and its callers only iterate over the list. */
  function NextStates(topo: Topology, s: State): set<Transition> {
    Pickups(s) + Deliveries(s) + Moves(topo, s)
  }

  /** `isFinal`: nothing left to pick up and nothing on board. */
  predicate IsFinal(s: State) {
    s.available == {} && s.transported == {}
  }

  /**
   * The effect of one action, stated action by action: the state it leads
   * to, or None where the action is not allowed.
   */
  function Apply(topo: Topology, s: State, a: Action): Option<State> {
    match a
    case Pickup(t) =>
      if t in s.available && t.pickupCity == s.city && t.weight <= s.capacity
      then Some(s.(available := s.available - {t}, transported := s.transported + {t}, capacity := s.capacity - t.weight))
      else None
    case Delivery(t) =>
      if t in s.transported && t.deliveryCity == s.city
      then Some(s.(transported := s.transported - {t}, capacity := s.capacity + t.weight))
      else None
    case Move(c) =>
      if c in topo.neighbors(s.city) then Some(s.(city := c)) else None
  }

  /** The successors listed by `nextStates` are exactly the allowed actions and their effects. */
  lemma NextStatesApply(topo: Topology, s: State, next: State, a: Action)
    ensures (next, a) in NextStates(topo, s) <==> Apply(topo, s, a) == Some(next)
  {
    match a
    case Pickup(t) =>
      if Apply(topo, s, a) == Some(next) {
        assert (next, a) in Pickups(s);
      }
    case Delivery(t) =>
      if Apply(topo, s, a) == Some(next) {
        assert (next, a) in Deliveries(s);
      }
    case Move(c) =>
      if Apply(topo, s, a) == Some(next) {
        assert (next, a) in Moves(topo, s);
      }
  }

  /** The state reached by a sequence of actions, if every one of them is allowed in turn. */
  function Run(topo: Topology, s: State, actions: seq<Action>): Option<State>
    decreases |actions|
  {
    if actions == [] then Some(s)
    else
      match Apply(topo, s, actions[0])
      case None => None
      case Some(next) => Run(topo, next, actions[1..])
  }

  /** Running two sequences one after the other is running their concatenation. */
  lemma {:induction false} RunConcat(topo: Topology, s: State, xs: seq<Action>, ys: seq<Action>)
    ensures Run(topo, s, xs + ys) == match Run(topo, s, xs) case None => None case Some(t) => Run(topo, t, ys)
    decreases |xs|
  {
    if xs == [] {
      assert xs + ys == ys;
    } else {
      assert (xs + ys)[0] == xs[0] && (xs + ys)[1..] == xs[1..] + ys;
      match Apply(topo, s, xs[0])
      case None =>
      case Some(next) => RunConcat(topo, next, xs[1..], ys);
    }
  }

  // ---------------------------------------------------------------------------
  // Weight on board
  // ---------------------------------------------------------------------------

  /** The total weight of a set of tasks. */
  ghost function TotalWeight(ts: set<Task>): int
    decreases |ts|
  {
    if ts == {} then 0
    else
      var t :| t in ts;
      t.weight + TotalWeight(ts - {t})
  }

  /** Taking any one task out of a set takes its weight off the total. */
  lemma TotalWeightRemove(ts: set<Task>, t: Task)
    requires t in ts
    ensures TotalWeight(ts) == t.weight + TotalWeight(ts - {t})
    decreases |ts|
  {
    var u :| u in ts && TotalWeight(ts) == u.weight + TotalWeight(ts - {u});
    if u != t {
      TotalWeightRemove(ts - {u}, t);
      TotalWeightRemove(ts - {t}, u);
      assert ts - {u} - {t} == ts - {t} - {u};
    }
  }

  /** Weight on board plus capacity left. */
  ghost function Load(s: State): int {
    s.capacity + TotalWeight(s.transported)
  }

  /** A task is never both waiting and on board, the capacity left is not negative and no task weighs less than nothing. */
  predicate Sound(s: State) {
    s.available !! s.transported && s.capacity >= 0
    && (forall t :: t in s.available ==> t.weight >= 0)
    && (forall t :: t in s.transported ==> t.weight >= 0)
  }

  /**
   * Every successor keeps capacity plus weight on board, keeps the capacity
   * from going negative, keeps the two task sets apart and never adds a
   * task; a move changes nothing but the city.
   */
  lemma StepPreserves(topo: Topology, s: State, next: State, a: Action)
    requires Apply(topo, s, a) == Some(next) && Sound(s)
    ensures Load(next) == Load(s) && Sound(next)
    ensures next.available + next.transported <= s.available + s.transported
    ensures a.Move? ==> next == s.(city := a.city)
  {
    match a
    case Pickup(t) =>
      assert t !in s.transported;
      TotalWeightRemove(next.transported, t);
      assert next.transported - {t} == s.transported;
    case Delivery(t) =>
      TotalWeightRemove(s.transported, t);
    case Move(c) =>
  }

  /** What every step keeps, every run keeps. */
  lemma {:induction false} RunPreserves(topo: Topology, s: State, actions: seq<Action>, last: State)
    requires Run(topo, s, actions) == Some(last) && Sound(s)
    ensures Load(last) == Load(s) && Sound(last)
    ensures last.available + last.transported <= s.available + s.transported
    decreases |actions|
  {
    if actions != [] {
      var next := Apply(topo, s, actions[0]).value;
      StepPreserves(topo, s, next, actions[0]);
      RunPreserves(topo, next, actions[1..], last);
    }
  }

  // ---------------------------------------------------------------------------
  // The initial state
  // ---------------------------------------------------------------------------

  /**
   * The state the planner starts from, as the source builds it: the
   * vehicle's city, the tasks to plan, the tasks already on board, and the
   * vehicle's full capacity, whatever is already on board.
   */
  function InitialStateAsWritten(v: Vehicle, tasks: set<Task>, carried: set<Task>): State {
    State(v.home, tasks, carried, v.capacity)
  }

  /** The initial state with the weight already on board taken off the capacity. */
  ghost function InitialState(v: Vehicle, tasks: set<Task>, carried: set<Task>): State {
    State(v.home, tasks, carried, v.capacity - TotalWeight(carried))
  }

  /**
   * From the corrected initial state (sound when what is on board fits in
   * the vehicle), every reachable state carries at most the vehicle's
   * capacity.
   */
  lemma WithinCapacity(topo: Topology, v: Vehicle, tasks: set<Task>, carried: set<Task>, actions: seq<Action>, last: State)
    requires Sound(InitialState(v, tasks, carried))
    requires Run(topo, InitialState(v, tasks, carried), actions) == Some(last)
    ensures TotalWeight(last.transported) <= v.capacity
  {
    RunPreserves(topo, InitialState(v, tasks, carried), actions, last);
  }

  /**
   * A vehicle of capacity 10 already carrying a task of weight 6: from the
   * initial state as written it may pick up a second task of weight 6 and
   * carry 12.
   */
  lemma OverloadAsWritten(topo: Topology)
    ensures var v, carried, waiting := Vehicle(0, 0, 10, 1), Task(0, 0, 1, 6), Task(1, 0, 1, 6);
      var s := InitialStateAsWritten(v, {waiting}, {carried});
      var next := State(0, {}, {carried, waiting}, 4);
      (next, Pickup(waiting)) in NextStates(topo, s) && TotalWeight(next.transported) == 12 > v.capacity
  {
    var v, carried, waiting := Vehicle(0, 0, 10, 1), Task(0, 0, 1, 6), Task(1, 0, 1, 6);
    var s := InitialStateAsWritten(v, {waiting}, {carried});
    var next := State(0, {}, {carried, waiting}, 4);
    assert {waiting} - {waiting} == {} && {carried} + {waiting} == {carried, waiting};
    assert Apply(topo, s, Pickup(waiting)) == Some(next);
    NextStatesApply(topo, s, next, Pickup(waiting));
    TotalWeightRemove({carried, waiting}, waiting);
    assert {carried, waiting} - {waiting} == {carried};
    TotalWeightRemove({carried}, carried);
    assert {carried} - {carried} == {};
  }
}
