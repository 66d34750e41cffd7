/**
 * The naive plan of the deliberative agent (`naivePlan`, written the same
 * way in deliberative/src/deliberative/DeliberativeAgent.java and
 * deliberative/src/template/DeliberativeTemplate.java): the tasks are
 * handled one at a time, in the order given, by driving to the pickup city,
 * picking the task up, driving along the task's path and delivering it.
 * The shortest paths of the road network are a parameter.
 */
module NaivePlanner {
  import opened Routing
  import Collections
  import opened DeliberativeState

  /** One move per city of a path. */
  function MovesAlong(cities: seq<City>): (r: seq<Action>)
    ensures |r| == |cities| && forall i :: 0 <= i < |cities| ==> r[i] == Move(cities[i])
  {
    seq(|cities|, i requires 0 <= i < |cities| => Move(cities[i]))
  }

  /** The actions for one task from city `current`: drive to its pickup city, pick it up, drive along its path, deliver it. */
  function TaskActions(path: (City, City) -> seq<City>, current: City, t: Task): seq<Action> {
    MovesAlong(path(current, t.pickupCity)) + [Pickup(t)] + MovesAlong(path(t.pickupCity, t.deliveryCity)) + [Delivery(t)]
  }

  /** The actions of the naive plan from city `current`. */
  function NaiveActions(path: (City, City) -> seq<City>, current: City, tasks: seq<Task>): seq<Action>
    decreases |tasks|
  {
    if tasks == [] then []
    else TaskActions(path, current, tasks[0]) + NaiveActions(path, tasks[0].deliveryCity, tasks[1..])
  }

  /** The tasks of a sequence, as a set. */
  function Members(tasks: seq<Task>): set<Task> {
    set t | t in tasks
  }

  /** Where the naive plan ends: the last task's delivery city. */
  function LastCity(current: City, tasks: seq<Task>): City
    decreases |tasks|
  {
    if tasks == [] then current else LastCity(tasks[0].deliveryCity, tasks[1..])
  }

  /** Appending the moves along a path, city by city. */
  method AppendMoves(actions0: seq<Action>, cities: seq<City>) returns (actions: seq<Action>)
    ensures actions == actions0 + MovesAlong(cities)
  {
    actions := actions0;
    var i := 0;
    while i < |cities|
      invariant i <= |cities|
      invariant actions == actions0 + MovesAlong(cities[..i])
    {
      assert MovesAlong(cities[..i + 1]) == MovesAlong(cities[..i]) + [Move(cities[i])];
      actions := actions + [Move(cities[i])];
      i := i + 1;
    }
    assert cities[..i] == cities;
  }

  /** `naivePlan`: the loop over the tasks, with the current city updated after each delivery. */
  method NaivePlan(path: (City, City) -> seq<City>, home: City, tasks: seq<Task>) returns (actions: seq<Action>)
    ensures actions == NaiveActions(path, home, tasks)
  {
    actions := [];
    var current := home;
    var k := 0;
    while k < |tasks|
      invariant k <= |tasks|
      invariant actions + NaiveActions(path, current, tasks[k..]) == NaiveActions(path, home, tasks)
    {
      var t := tasks[k];
      assert tasks[k..][0] == t && tasks[k..][1..] == tasks[k + 1..];
      ghost var before := actions;
      actions := AppendMoves(actions, path(current, t.pickupCity));
      actions := actions + [Pickup(t)];
      actions := AppendMoves(actions, path(t.pickupCity, t.deliveryCity));
      actions := actions + [Delivery(t)];
      assert actions == before + TaskActions(path, current, t);
      Collections.ConcatAssoc(before, TaskActions(path, current, t), NaiveActions(path, t.deliveryCity, tasks[k + 1..]));
      current := t.deliveryCity;
      k := k + 1;
    }
  }

  // ---------------------------------------------------------------------------
  // The naive plan is a plan
  // ---------------------------------------------------------------------------

  /** A path from a to b: each city a neighbour of the one before, ending at b. */
  predicate Walk(topo: Topology, a: City, cities: seq<City>, b: City)
    decreases |cities|
  {
    if cities == [] then a == b
    else cities[0] in topo.neighbors(a) && Walk(topo, cities[0], cities[1..], b)
  }

  /** Driving along a path changes only the city. */
  lemma {:induction false} WalkRuns(topo: Topology, s: State, cities: seq<City>, b: City)
    requires Walk(topo, s.city, cities, b)
    ensures Run(topo, s, MovesAlong(cities)) == Some(s.(city := b))
    decreases |cities|
  {
    if cities != [] {
      var moves := MovesAlong(cities);
      assert moves[0] == Move(cities[0]) && moves[1..] == MovesAlong(cities[1..]);
      WalkRuns(topo, s.(city := cities[0]), cities[1..], b);
    }
  }

  /** One task's actions are allowed in turn, from an empty vehicle at any city, and deliver it. */
  lemma TaskRuns(topo: Topology, path: (City, City) -> seq<City>, s: State, t: Task)
    requires forall a, b :: Walk(topo, a, path(a, b), b)
    requires s.transported == {} && t in s.available && 0 <= t.weight <= s.capacity
    ensures Run(topo, s, TaskActions(path, s.city, t)) == Some(State(t.deliveryCity, s.available - {t}, {}, s.capacity))
  {
    var toPickup, along := path(s.city, t.pickupCity), path(t.pickupCity, t.deliveryCity);
    var atPickup := s.(city := t.pickupCity);
    var loaded := State(t.pickupCity, s.available - {t}, {t}, s.capacity - t.weight);
    var atDelivery := loaded.(city := t.deliveryCity);
    var next := State(t.deliveryCity, s.available - {t}, {}, s.capacity);
    WalkRuns(topo, s, toPickup, t.pickupCity);
    WalkRuns(topo, loaded, along, t.deliveryCity);
    assert Run(topo, atPickup, [Pickup(t)]) == Some(loaded) by {
      assert atPickup.transported + {t} == {t};
      assert Apply(topo, atPickup, Pickup(t)) == Some(loaded);
    }
    assert Run(topo, atDelivery, [Delivery(t)]) == Some(next) by {
      assert {t} - {t} == {};
      assert Apply(topo, atDelivery, Delivery(t)) == Some(next);
    }
    RunConcat(topo, s, MovesAlong(toPickup), [Pickup(t)]);
    RunConcat(topo, s, MovesAlong(toPickup) + [Pickup(t)], MovesAlong(along));
    RunConcat(topo, s, MovesAlong(toPickup) + [Pickup(t)] + MovesAlong(along), [Delivery(t)]);
  }

  /**
   * With paths that are walks of the road network, distinct tasks that each
   * fit in the empty vehicle and are all waiting, the naive plan is allowed
   * action by action and ends, empty, in the last delivery city with all of
   * those tasks delivered.
   */
  lemma {:induction false} NaivePlanDelivers(topo: Topology, path: (City, City) -> seq<City>, s: State, tasks: seq<Task>)
    requires forall a, b :: Walk(topo, a, path(a, b), b)
    requires Collections.Distinct(tasks) && s.transported == {}
    requires forall t :: t in tasks ==> t in s.available && 0 <= t.weight <= s.capacity
    ensures Run(topo, s, NaiveActions(path, s.city, tasks))
      == Some(State(LastCity(s.city, tasks), s.available - Members(tasks), {}, s.capacity))
    decreases |tasks|
  {
    if tasks == [] {
      assert s.available - Members(tasks) == s.available;
    } else {
      var t := tasks[0];
      var next := State(t.deliveryCity, s.available - {t}, {}, s.capacity);
      TaskRuns(topo, path, s, t);
      forall u | u in tasks[1..]
        ensures u in next.available && 0 <= u.weight <= next.capacity
      {
        var j :| 0 <= j < |tasks[1..]| && tasks[1..][j] == u;
        assert Collections.Entry(tasks, 0) != Collections.Entry(tasks, j + 1);
      }
      assert Collections.Distinct(tasks[1..]) by {
        forall i, j | 0 <= i < j < |tasks[1..]|
          ensures Collections.Entry(tasks[1..], i) != Collections.Entry(tasks[1..], j)
        {
          assert Collections.Entry(tasks, i + 1) != Collections.Entry(tasks, j + 1);
        }
      }
      NaivePlanDelivers(topo, path, next, tasks[1..]);
      RunConcat(topo, s, TaskActions(path, s.city, t), NaiveActions(path, t.deliveryCity, tasks[1..]));
      assert (s.available - {t}) - Members(tasks[1..]) == s.available - Members(tasks);
    }
  }
}
