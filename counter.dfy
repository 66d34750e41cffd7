/**
 * The per-task cost counter of the auction companies (`CostCounter` in
 * auction/src/company/AbstractCompany.java): a visitor that walks one
 * vehicle's plan action by action, keeping the current city, the tasks on
 * board and the cost charged so far to each task picked up.  Every move is
 * paid for by the tasks on board, in equal shares.  Costs are `real`;
 * distances between cities are a parameter.
 */
module CostCounting {
  import opened Routing
  import opened DeliberativeState

  /** The counter's three fields, as a value. */
  datatype Counter = Counter(current: City, carried: set<Task>, cost: map<Task, real>)

  /** Every task on board has a cost entry, so a move never looks up a missing one. */
  predicate Consistent(c: Counter) {
    c.carried <= c.cost.Keys
  }

  /** The share of one leg charged to each of n tasks on board. */
  function Share(length: nat, costPerKm: nat, n: nat): real {
    if n == 0 then 0.0 else (length * costPerKm) as real / n as real
  }

  /** Every carried task's cost raised by d; the other costs kept. */
  function Charged(cost: map<Task, real>, carried: set<Task>, d: real): (r: map<Task, real>)
    ensures r.Keys == cost.Keys
  {
    map t | t in cost :: if t in carried then cost[t] + d else cost[t]
  }

  /** The effect of one action on the counter, action by action. */
  function Step(dist: (City, City) -> nat, costPerKm: nat, c: Counter, a: Action): Counter {
    match a
    case Pickup(t) => Counter(c.current, c.carried + {t}, c.cost[t := 0.0])
    case Delivery(t) => Counter(c.current, c.carried - {t}, c.cost)
    case Move(target) =>
      Counter(target, c.carried, Charged(c.cost, c.carried, Share(dist(c.current, target), costPerKm, |c.carried|)))
  }

  /** The counter after a whole plan. */
  function Replay(dist: (City, City) -> nat, costPerKm: nat, c: Counter, actions: seq<Action>): Counter
    decreases |actions|
  {
    if actions == [] then c else Replay(dist, costPerKm, Step(dist, costPerKm, c, actions[0]), actions[1..])
  }

  /** The tasks a plan picks up. */
  function PickedUp(actions: seq<Action>): set<Task> {
    set i | 0 <= i < |actions| && actions[i].Pickup? :: actions[i].task
  }

  // ---------------------------------------------------------------------------
  // The visitor
  // ---------------------------------------------------------------------------

  class CostCounter {
    var current: City
    var currentTasks: set<Task>
    var cost: map<Task, real>
    var costPerKm: nat
    const dist: (City, City) -> nat

    ghost function State(): Counter
      reads this
    {
      Counter(current, currentTasks, cost)
    }

    constructor(dist: (City, City) -> nat)
      ensures this.dist == dist && currentTasks == {} && cost == map[]
    {
      this.dist := dist;
      currentTasks, cost := {}, map[];
    }

    /** `pickup`: the task's cost starts at 0 and it goes on board. */
    method Pickup(task: Task)
      modifies this
      ensures State() == Step(dist, costPerKm, old(State()), Action.Pickup(task)) && costPerKm == old(costPerKm)
    {
      cost := cost[task := 0.0];
      currentTasks := currentTasks + {task};
    }

    /** `deliver`: the task leaves the vehicle and keeps the cost charged to it. */
    method Deliver(task: Task)
      modifies this
      ensures State() == Step(dist, costPerKm, old(State()), Delivery(task)) && costPerKm == old(costPerKm)
    {
      currentTasks := currentTasks - {task};
    }

    /** `moveTo`: each task on board is charged its share of the leg, one task at a time, then the vehicle is at the target. */
    method MoveTo(target: City)
      requires Consistent(State())
      modifies this
      ensures State() == Step(dist, costPerKm, old(State()), Move(target)) && costPerKm == old(costPerKm)
    {
      var length := dist(current, target);
      var remaining := currentTasks;
      while remaining != {}
        invariant remaining <= currentTasks && currentTasks == old(currentTasks) && current == old(current)
        invariant cost.Keys == old(cost).Keys && costPerKm == old(costPerKm)
        invariant forall t :: t in cost ==>
          cost[t] == if t in currentTasks - remaining then old(cost)[t] + Share(length, costPerKm, |currentTasks|) else old(cost)[t]
        decreases |remaining|
      {
        var task :| task in remaining;
        var c := cost[task];
        cost := cost[task := c + (length * costPerKm) as real / |currentTasks| as real];
        remaining := remaining - {task};
      }
      assert cost == Charged(old(cost), currentTasks, Share(length, costPerKm, |currentTasks|));
      current := target;
    }

    /** `accept`: the action's own handler. */
    method Handle(a: Action)
      requires Consistent(State())
      modifies this
      ensures State() == Step(dist, costPerKm, old(State()), a) && costPerKm == old(costPerKm)
      ensures Consistent(State())
    {
      match a
      case Pickup(t) => Pickup(t);
      case Delivery(t) => Deliver(t);
      case Move(c) => MoveTo(c);
    }

    /** `costOfTasks`: from the initial city with nothing on board and no costs, every action of the plan in turn. */
    method CostOfTasks(initial: City, actions: seq<Action>, costPerKm: nat) returns (r: map<Task, real>)
      modifies this
      ensures State() == Replay(dist, costPerKm, Counter(initial, {}, map[]), actions)
      ensures r == State().cost && this.costPerKm == costPerKm
    {
      current := initial;
      this.costPerKm := costPerKm;
      currentTasks := {};
      cost := map[];
      for i := 0 to |actions|
        invariant Consistent(State()) && this.costPerKm == costPerKm
        invariant Replay(dist, costPerKm, State(), actions[i..]) == Replay(dist, costPerKm, Counter(initial, {}, map[]), actions)
      {
        assert actions[i..][0] == actions[i] && actions[i..][1..] == actions[i + 1..];
        Handle(actions[i]);
      }
      r := cost;
    }
  }

  // ---------------------------------------------------------------------------
  // What the counter computes
  // ---------------------------------------------------------------------------

  /** Every step keeps each carried task's cost entry. */
  lemma StepConsistent(dist: (City, City) -> nat, costPerKm: nat, c: Counter, a: Action)
    requires Consistent(c)
    ensures Consistent(Step(dist, costPerKm, c, a))
  {
  }

  /** The tasks a plan picks up are those its first action picks up and those the rest of it picks up. */
  lemma PickedUpFront(actions: seq<Action>)
    requires actions != []
    ensures PickedUp(actions) == (if actions[0].Pickup? then {actions[0].task} else {}) + PickedUp(actions[1..])
  {
    forall t | t in PickedUp(actions)
      ensures t in (if actions[0].Pickup? then {actions[0].task} else {}) + PickedUp(actions[1..])
    {
      var i :| 0 <= i < |actions| && actions[i].Pickup? && actions[i].task == t;
      if i > 0 {
        assert actions[1..][i - 1] == actions[i];
      }
    }
    forall t | t in PickedUp(actions[1..])
      ensures t in PickedUp(actions)
    {
      var i :| 0 <= i < |actions[1..]| && actions[1..][i].Pickup? && actions[1..][i].task == t;
      assert actions[i + 1] == actions[1..][i];
    }
  }

  /** One action adds a cost entry for the task it picks up and no other. */
  lemma StepKeys(dist: (City, City) -> nat, costPerKm: nat, c: Counter, a: Action)
    ensures Step(dist, costPerKm, c, a).cost.Keys == c.cost.Keys + (if a.Pickup? then {a.task} else {})
  {
  }

  /** The tasks with a cost after a plan are those with one before and those the plan picks up. */
  lemma {:induction false} ReplayKeys(dist: (City, City) -> nat, costPerKm: nat, c: Counter, actions: seq<Action>)
    ensures Replay(dist, costPerKm, c, actions).cost.Keys == c.cost.Keys + PickedUp(actions)
    decreases |actions|
  {
    if actions != [] {
      var next := Step(dist, costPerKm, c, actions[0]);
      ReplayKeys(dist, costPerKm, next, actions[1..]);
      StepKeys(dist, costPerKm, c, actions[0]);
      PickedUpFront(actions);
    } else {
      assert PickedUp(actions) == {};
    }
  }

  /** `costOfTasks` returns a cost for exactly the tasks the plan picks up. */
  lemma CostOfTasksKeys(dist: (City, City) -> nat, costPerKm: nat, initial: City, actions: seq<Action>)
    ensures Replay(dist, costPerKm, Counter(initial, {}, map[]), actions).cost.Keys == PickedUp(actions)
  {
    ReplayKeys(dist, costPerKm, Counter(initial, {}, map[]), actions);
  }

  /** The sum of the costs of a set of tasks. */
  ghost function Sum(m: map<Task, real>, s: set<Task>): real
    requires s <= m.Keys
    decreases |s|
  {
    if s == {} then 0.0
    else
      var t :| t in s;
      m[t] + Sum(m, s - {t})
  }

  /** Taking any one task out of the set takes its cost off the sum. */
  lemma SumRemove(m: map<Task, real>, s: set<Task>, t: Task)
    requires s <= m.Keys && t in s
    ensures Sum(m, s) == m[t] + Sum(m, s - {t})
    decreases |s|
  {
    var u :| u in s && Sum(m, s) == m[u] + Sum(m, s - {u});
    if u != t {
      SumRemove(m, s - {u}, t);
      SumRemove(m, s - {t}, u);
      assert s - {u} - {t} == s - {t} - {u};
    }
  }

  /** Raising the costs of the tasks of c, all in s, by d raises the sum over s by d for each of them. */
  lemma {:induction false} SumRaised(m: map<Task, real>, m': map<Task, real>, s: set<Task>, c: set<Task>, d: real)
    requires s <= m.Keys && s <= m'.Keys && c <= s
    requires forall t :: t in s ==> m'[t] == if t in c then m[t] + d else m[t]
    ensures Sum(m', s) == Sum(m, s) + (|c| as real) * d
    decreases |s|
  {
    if s != {} {
      var t :| t in s;
      SumRemove(m, s, t);
      SumRemove(m', s, t);
      SumRaised(m, m', s - {t}, c - {t}, d);
      if t in c {
        assert |c| == |c - {t}| + 1;
      } else {
        assert c - {t} == c;
      }
    }
  }

  /** The total charged to all tasks. */
  ghost function Total(c: Counter): real {
    Sum(c.cost, c.cost.Keys)
  }

  /**
   * A move adds the cost of the leg, length times cost per km, to the
   * total when something is on board, split over the tasks on board, and
   * nothing when the vehicle is empty.
   */
  lemma MoveCharges(dist: (City, City) -> nat, costPerKm: nat, c: Counter, target: City)
    requires Consistent(c)
    ensures Total(Step(dist, costPerKm, c, Move(target)))
      == Total(c) + if c.carried == {} then 0.0 else (dist(c.current, target) * costPerKm) as real
  {
    var n := |c.carried|;
    var d := Share(dist(c.current, target), costPerKm, n);
    SumRaised(c.cost, Charged(c.cost, c.carried, d), c.cost.Keys, c.carried, d);
    if n > 0 {
      assert (n as real) * d == (dist(c.current, target) * costPerKm) as real;
    }
  }

  /** The cost of driving a plan with something on board: each such leg's length times the cost per km. */
  function LoadedCost(dist: (City, City) -> nat, costPerKm: nat, current: City, carried: set<Task>, actions: seq<Action>): real
    decreases |actions|
  {
    if actions == [] then 0.0
    else
      match actions[0]
      case Pickup(t) => LoadedCost(dist, costPerKm, current, carried + {t}, actions[1..])
      case Delivery(t) => LoadedCost(dist, costPerKm, current, carried - {t}, actions[1..])
      case Move(target) =>
        (if carried == {} then 0.0 else (dist(current, target) * costPerKm) as real)
        + LoadedCost(dist, costPerKm, target, carried, actions[1..])
  }

  /** Every task is picked up at most once, and none that already has a cost. */
  predicate FreshPickups(known: set<Task>, actions: seq<Action>)
    decreases |actions|
  {
    actions == []
    || match actions[0]
       case Pickup(t) => t !in known && FreshPickups(known + {t}, actions[1..])
       case _ => FreshPickups(known, actions[1..])
  }

  /**
   * When no task is picked up twice, the costs charged to the tasks add up
   * to what was spent driving with something on board: the counter splits
   * every loaded leg among the tasks without losing or inventing any cost.
   */
  lemma {:induction false} ReplayTotal(dist: (City, City) -> nat, costPerKm: nat, c: Counter, actions: seq<Action>)
    requires Consistent(c) && FreshPickups(c.cost.Keys, actions)
    ensures Total(Replay(dist, costPerKm, c, actions)) == Total(c) + LoadedCost(dist, costPerKm, c.current, c.carried, actions)
    decreases |actions|
  {
    if actions != [] {
      var next := Step(dist, costPerKm, c, actions[0]);
      match actions[0] {
        case Pickup(t) =>
          SumRaised(c.cost, next.cost, c.cost.Keys, {}, 0.0);
          SumRemove(next.cost, next.cost.Keys, t);
          assert next.cost.Keys - {t} == c.cost.Keys;
          assert next.cost.Keys == c.cost.Keys + {t};
        case Delivery(t) =>
          assert next.cost.Keys == c.cost.Keys;
        case Move(target) =>
          MoveCharges(dist, costPerKm, c, target);
          assert next.cost.Keys == c.cost.Keys;
      }
      ReplayTotal(dist, costPerKm, next, actions[1..]);
    }
  }
}
