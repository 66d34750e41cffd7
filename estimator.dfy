/**
 * The auction agent's cost estimator (auction/src/solver/CostEstimator.java):
 * the enumeration of one hypothetical task per ordered pair of cities, and
 * the joint cost of carrying two tasks in one vehicle, which is the
 * cheapest of the six stop orders that pick each task up before delivering
 * it.  Distances are a parameter.
 */
module CostEstimation {
  import opened Routing
  import Collections
  import opened CostEval

  // ---------------------------------------------------------------------------
  // Task enumeration
  // ---------------------------------------------------------------------------

  /** Position (row, column) comes strictly before position (row', column'), row by row. */
  predicate Earlier(p: (nat, nat), q: (nat, nat)) {
    p.0 < q.0 || (p.0 == q.0 && p.1 < q.1)
  }

  /**
   * The task list of `setup`: for every source city, in the topology's
   * order, a task to every destination city, the source itself included,
   * with the distribution's weight and ids 0, 1, 2, … in creation order.
   * So every ordered pair of cities gets a task, and a different one when
   * the topology lists every city once.
   */
  method Setup(cities: seq<City>, weight: (City, City) -> int) returns (tasks: seq<Task>)
    ensures |tasks| == |cities| * |cities|
    ensures forall k :: 0 <= k < |tasks| ==> tasks[k].id == k
    ensures forall k :: 0 <= k < |tasks| ==>
      tasks[k].pickupCity in cities && tasks[k].deliveryCity in cities
      && tasks[k].weight == weight(tasks[k].pickupCity, tasks[k].deliveryCity)
    ensures forall a, b :: a in cities && b in cities ==>
      exists k :: 0 <= k < |tasks| && tasks[k].pickupCity == a && tasks[k].deliveryCity == b
    ensures Collections.Distinct(cities) ==> forall k, l :: 0 <= k < l < |tasks| ==>
      (tasks[k].pickupCity, tasks[k].deliveryCity) != (tasks[l].pickupCity, tasks[l].deliveryCity)
  {
    var n := |cities|;
    tasks := [];
    ghost var pos: seq<(nat, nat)> := [];
    var id := 0;
    for i := 0 to n
      invariant id == |tasks| == i * n
      invariant Numbered(cities, weight, tasks, pos)
      invariant forall k :: 0 <= k < |pos| ==> pos[k].0 < i
      invariant forall r, c :: 0 <= r < i && 0 <= c < n ==> Covered(tasks, cities[r], cities[c])
    {
      tasks, pos, id := AddRow(cities, weight, tasks, pos, id, i);
      assert (i + 1) * n == i * n + n;
    }
    SetupCovers(cities, weight, tasks, pos);
    if Collections.Distinct(cities) {
      SetupDistinct(cities, weight, tasks, pos);
    }
  }

  /** When every row is covered, every ordered pair of cities has a task. */
  lemma SetupCovers(cities: seq<City>, weight: (City, City) -> int, tasks: seq<Task>, pos: seq<(nat, nat)>)
    requires forall r, c :: 0 <= r < |cities| && 0 <= c < |cities| ==> Covered(tasks, cities[r], cities[c])
    ensures forall a, b :: a in cities && b in cities ==>
      exists k :: 0 <= k < |tasks| && tasks[k].pickupCity == a && tasks[k].deliveryCity == b
  {
    forall a, b | a in cities && b in cities
      ensures exists k :: 0 <= k < |tasks| && tasks[k].pickupCity == a && tasks[k].deliveryCity == b
    {
      var r :| 0 <= r < |cities| && cities[r] == a;
      var c :| 0 <= c < |cities| && cities[c] == b;
      assert Covered(tasks, cities[r], cities[c]);
    }
  }

  /** With every city listed once, tasks at increasing positions go between different pairs of cities. */
  lemma SetupDistinct(cities: seq<City>, weight: (City, City) -> int, tasks: seq<Task>, pos: seq<(nat, nat)>)
    requires Numbered(cities, weight, tasks, pos) && Collections.Distinct(cities)
    ensures forall k, l :: 0 <= k < l < |tasks| ==>
      (tasks[k].pickupCity, tasks[k].deliveryCity) != (tasks[l].pickupCity, tasks[l].deliveryCity)
  {
    forall k, l | 0 <= k < l < |tasks|
      ensures (tasks[k].pickupCity, tasks[k].deliveryCity) != (tasks[l].pickupCity, tasks[l].deliveryCity)
    {
      Collections.SamePosition(cities, pos[k].0, pos[l].0);
      Collections.SamePosition(cities, pos[k].1, pos[l].1);
    }
  }

  /** One row of `setup`: a task from the i-th city to every city in turn, numbered on from id. */
  method AddRow(cities: seq<City>, weight: (City, City) -> int, tasks0: seq<Task>, ghost pos0: seq<(nat, nat)>, id0: nat, i: nat)
    returns (tasks: seq<Task>, ghost pos: seq<(nat, nat)>, id: nat)
    requires i < |cities| && id0 == |tasks0| && Numbered(cities, weight, tasks0, pos0)
    requires forall k :: 0 <= k < |pos0| ==> pos0[k].0 < i
    ensures id == |tasks| == |tasks0| + |cities| && Numbered(cities, weight, tasks, pos)
    ensures forall k :: 0 <= k < |pos| ==> pos[k].0 < i + 1
    ensures forall a, b :: Covered(tasks0, a, b) ==> Covered(tasks, a, b)
    ensures forall c :: 0 <= c < |cities| ==> Covered(tasks, cities[i], cities[c])
  {
    tasks, pos, id := tasks0, pos0, id0;
    for j := 0 to |cities|
      invariant id == |tasks| == |tasks0| + j
      invariant Numbered(cities, weight, tasks, pos)
      invariant forall k :: 0 <= k < |pos| ==> Earlier(pos[k], (i, j))
      invariant forall a, b :: Covered(tasks0, a, b) ==> Covered(tasks, a, b)
      invariant forall c :: 0 <= c < j ==> Covered(tasks, cities[i], cities[c])
    {
      AddTask(cities, weight, tasks, pos, i, j);
      tasks := tasks + [Task(id, cities[i], cities[j], weight(cities[i], cities[j]))];
      pos := pos + [(i, j)];
      id := id + 1;
    }
  }

  /** Some task goes from a to b. */
  predicate Covered(tasks: seq<Task>, a: City, b: City) {
    exists k :: 0 <= k < |tasks| && tasks[k].pickupCity == a && tasks[k].deliveryCity == b
  }

  /**
   * Each task is numbered by its position and goes between the cities at
   * the row and column recorded for it, and the recorded positions increase.
   */
  ghost predicate Numbered(cities: seq<City>, weight: (City, City) -> int, tasks: seq<Task>, pos: seq<(nat, nat)>) {
    |tasks| == |pos|
    && (forall k :: 0 <= k < |tasks| ==>
          pos[k].0 < |cities| && pos[k].1 < |cities|
          && tasks[k] == Task(k, cities[pos[k].0], cities[pos[k].1], weight(cities[pos[k].0], cities[pos[k].1])))
    && (forall k, l :: 0 <= k < l < |pos| ==> Earlier(pos[k], pos[l]))
  }

  /** Appending the task for (i, j) after all earlier positions keeps the numbering. */
  lemma AddTask(cities: seq<City>, weight: (City, City) -> int, tasks: seq<Task>, pos: seq<(nat, nat)>, i: nat, j: nat)
    requires Numbered(cities, weight, tasks, pos) && i < |cities| && j < |cities|
    requires forall k :: 0 <= k < |pos| ==> Earlier(pos[k], (i, j))
    ensures Numbered(cities, weight, tasks + [Task(|tasks|, cities[i], cities[j], weight(cities[i], cities[j]))], pos + [(i, j)])
    ensures Covered(tasks + [Task(|tasks|, cities[i], cities[j], weight(cities[i], cities[j]))], cities[i], cities[j])
    ensures forall a, b :: Covered(tasks, a, b) ==> Covered(tasks + [Task(|tasks|, cities[i], cities[j], weight(cities[i], cities[j]))], a, b)
  {
    var t := Task(|tasks|, cities[i], cities[j], weight(cities[i], cities[j]));
    assert (tasks + [t])[|tasks|] == t;
    forall a, b | Covered(tasks, a, b)
      ensures Covered(tasks + [t], a, b)
    {
      var k :| 0 <= k < |tasks| && tasks[k].pickupCity == a && tasks[k].deliveryCity == b;
      assert (tasks + [t])[k] == tasks[k];
    }
  }

  // ---------------------------------------------------------------------------
  // Joint cost of two tasks
  // ---------------------------------------------------------------------------

  /** The four stops of two tasks. */
  datatype Stop = Pick1 | Drop1 | Pick2 | Drop2

  /** The six stop orders of `jointCost`, one per list it builds. */
  function Orders(): seq<seq<Stop>> {
    [ [Pick1, Pick2, Drop1, Drop2],
      [Pick1, Pick2, Drop2, Drop1],
      [Pick1, Drop1, Pick2, Drop2],
      [Pick2, Pick1, Drop1, Drop2],
      [Pick2, Pick1, Drop2, Drop1],
      [Pick2, Drop2, Pick1, Drop1] ]
  }

  /** x is visited before y. */
  predicate Precedes(o: seq<Stop>, x: Stop, y: Stop) {
    exists i, j :: 0 <= i < j < |o| && o[i] == x && o[j] == y
  }

  /** An order that visits each of the four stops once and picks each task up before delivering it. */
  predicate Interleaving(o: seq<Stop>) {
    |o| == 4 && Pick1 in o && Drop1 in o && Pick2 in o && Drop2 in o
    && Precedes(o, Pick1, Drop1) && Precedes(o, Pick2, Drop2)
  }

  /** Every order of `jointCost` is an interleaving of the two tasks. */
  lemma OrdersInterleave(o: seq<Stop>)
    requires o in Orders()
    ensures Interleaving(o)
  {
    var k :| 0 <= k < 6 && Orders()[k] == o;
    if k == 0 { assert o[0] == Pick1 && o[2] == Drop1 && o[1] == Pick2 && o[3] == Drop2; }
    else if k == 1 { assert o[0] == Pick1 && o[3] == Drop1 && o[1] == Pick2 && o[2] == Drop2; }
    else if k == 2 { assert o[0] == Pick1 && o[1] == Drop1 && o[2] == Pick2 && o[3] == Drop2; }
    else if k == 3 { assert o[1] == Pick1 && o[2] == Drop1 && o[0] == Pick2 && o[3] == Drop2; }
    else if k == 4 { assert o[1] == Pick1 && o[3] == Drop1 && o[0] == Pick2 && o[2] == Drop2; }
    else { assert o[2] == Pick1 && o[3] == Drop1 && o[0] == Pick2 && o[1] == Drop2; }
  }

  /** Every interleaving of the two tasks is one of the orders of `jointCost`. */
  lemma InterleavingsAreOrders(o: seq<Stop>)
    requires Interleaving(o)
    ensures o in Orders()
  {
    var i1, j1 :| 0 <= i1 < j1 < 4 && o[i1] == Pick1 && o[j1] == Drop1;
    var i2, j2 :| 0 <= i2 < j2 < 4 && o[i2] == Pick2 && o[j2] == Drop2;
    assert o == [o[0], o[1], o[2], o[3]];
    if i1 == 0 {
      if j1 == 1 { assert o == Orders()[2]; }
      else if i2 == 1 && j1 == 2 { assert o == Orders()[0]; }
      else { assert o == Orders()[1]; }
    } else if i1 == 1 {
      if j1 == 2 { assert o == Orders()[3]; }
      else { assert o == Orders()[4]; }
    } else {
      assert o == Orders()[5];
    }
  }

  /** The orders of `jointCost` are exactly the interleavings of the two tasks. */
  lemma OrdersAreInterleavings(o: seq<Stop>)
    ensures o in Orders() <==> Interleaving(o)
  {
    if o in Orders() {
      OrdersInterleave(o);
    }
    if Interleaving(o) {
      InterleavingsAreOrders(o);
    }
  }

  /** The city of a stop. */
  function StopCity(s: Stop, t1: Task, t2: Task): City {
    match s
    case Pick1 => t1.pickupCity
    case Drop1 => t1.deliveryCity
    case Pick2 => t2.pickupCity
    case Drop2 => t2.deliveryCity
  }

  /** The cities of an order of stops. */
  function Cities(o: seq<Stop>, t1: Task, t2: Task): (r: seq<City>)
    ensures |r| == |o| && forall i :: 0 <= i < |o| ==> r[i] == StopCity(o[i], t1, t2)
  {
    seq(|o|, i requires 0 <= i < |o| => StopCity(o[i], t1, t2))
  }

  /** The distance driven along a list of cities: the sum over consecutive pairs. */
  function PathCost(dist: (City, City) -> nat, cities: seq<City>): nat
    decreases |cities|
  {
    if |cities| <= 1 then 0
    else PathCost(dist, cities[..|cities| - 1]) + dist(cities[|cities| - 2], cities[|cities| - 1])
  }

  /** The cost of the cheapest order: at most the cost of each order, and the cost of one of them. */
  predicate IsJointCost(dist: (City, City) -> nat, t1: Task, t2: Task, r: nat) {
    (forall o :: o in Orders() ==> r <= PathCost(dist, Cities(o, t1, t2)))
    && exists o :: o in Orders() && r == PathCost(dist, Cities(o, t1, t2))
  }

  /** The inner loop of `jointCost`: the distance from each city to the next, the first one having no predecessor. */
  method PathLength(dist: (City, City) -> nat, cities: seq<City>) returns (cost: nat)
    ensures cost == PathCost(dist, cities)
  {
    cost := 0;
    var current: Option<City> := None;
    for i := 0 to |cities|
      invariant cost == PathCost(dist, cities[..i])
      invariant if i == 0 then current == None else current == Some(cities[i - 1])
    {
      if current.Some? {
        assert cities[..i + 1][..i] == cities[..i];
        cost := cost + dist(current.value, cities[i]);
      }
      current := Some(cities[i]);
    }
    assert cities[..|cities|] == cities;
  }

  /**
   * `jointCost`: the six city lists, built stop by stop as the source does,
   * and the smallest of their lengths, starting from +infinity.
   */
  method JointCost(dist: (City, City) -> nat, t1: Task, t2: Task) returns (r: nat)
    ensures IsJointCost(dist, t1, t2, r)
  {
    var plans := [
      [t1.pickupCity, t2.pickupCity, t1.deliveryCity, t2.deliveryCity],
      [t1.pickupCity, t2.pickupCity, t2.deliveryCity, t1.deliveryCity],
      [t1.pickupCity, t1.deliveryCity, t2.pickupCity, t2.deliveryCity],
      [t2.pickupCity, t1.pickupCity, t1.deliveryCity, t2.deliveryCity],
      [t2.pickupCity, t1.pickupCity, t2.deliveryCity, t1.deliveryCity],
      [t2.pickupCity, t2.deliveryCity, t1.pickupCity, t1.deliveryCity] ];
    assert forall k :: 0 <= k < 6 ==> plans[k] == Cities(Orders()[k], t1, t2);
    var minCost := Inf;
    for k := 0 to 6
      invariant forall l :: 0 <= l < k ==> AtMost(minCost, Fin(PathCost(dist, plans[l])))
      invariant k > 0 ==> exists l :: 0 <= l < k && minCost == Fin(PathCost(dist, plans[l]))
      invariant k == 0 <==> minCost == Inf
    {
      var cost := PathLength(dist, plans[k]);
      if Below(Fin(cost), minCost) {
        minCost := Fin(cost);
      }
    }
    r := minCost.value;
    forall o | o in Orders()
      ensures r <= PathCost(dist, Cities(o, t1, t2))
    {
      var l :| 0 <= l < 6 && Orders()[l] == o;
      assert AtMost(minCost, Fin(PathCost(dist, plans[l])));
    }
    var l :| 0 <= l < 6 && minCost == Fin(PathCost(dist, plans[l]));
    assert Orders()[l] in Orders();
  }

  /** Exchanging the roles of the two tasks. */
  function Swap(s: Stop): Stop {
    match s
    case Pick1 => Pick2
    case Drop1 => Drop2
    case Pick2 => Pick1
    case Drop2 => Drop1
  }

  function SwapAll(o: seq<Stop>): (r: seq<Stop>)
    ensures |r| == |o| && forall i :: 0 <= i < |o| ==> r[i] == Swap(o[i])
  {
    seq(|o|, i requires 0 <= i < |o| => Swap(o[i]))
  }

  /** The six orders are closed under exchanging the tasks, and an exchanged order visits the same cities. */
  lemma OrdersSymmetric(o: seq<Stop>, t1: Task, t2: Task)
    requires o in Orders()
    ensures SwapAll(o) in Orders() && Cities(SwapAll(o), t2, t1) == Cities(o, t1, t2)
  {
    var k :| 0 <= k < 6 && Orders()[k] == o;
    var s := SwapAll(o);
    if k == 0 { assert s == Orders()[4]; }
    else if k == 1 { assert s == Orders()[3]; }
    else if k == 2 { assert s == Orders()[5]; }
    else if k == 3 { assert s == Orders()[1]; }
    else if k == 4 { assert s == Orders()[0]; }
    else { assert s == Orders()[2]; }
  }

  /** The joint cost does not depend on which task comes first. */
  lemma JointCostSymmetric(dist: (City, City) -> nat, t1: Task, t2: Task, r: nat, r': nat)
    requires IsJointCost(dist, t1, t2, r) && IsJointCost(dist, t2, t1, r')
    ensures r == r'
  {
    var o :| o in Orders() && r == PathCost(dist, Cities(o, t1, t2));
    var o' :| o' in Orders() && r' == PathCost(dist, Cities(o', t2, t1));
    OrdersSymmetric(o, t1, t2);
    OrdersSymmetric(o', t2, t1);
  }
}
