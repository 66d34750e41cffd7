# AI package delivery, modelled in Dafny

This project models the planning core of a pickup-and-delivery agent
platform. Vehicles drive a road network between cities, pick tasks up and
deliver them. The agents plan in four ways, and all four are modelled:

- **Centralized and auction solvers.** An assignment maps every label
  (a vehicle, the pickup of a task, the delivery of a task) to the label
  that follows it. The end marker closes each route.
  - `Routing` holds the labels, their weight changes and hop costs, and the
    splice shared by both `move`s (`Unlink`, `Relink`). It also shows how a
    successor map encodes one route per vehicle.
  - `CostEval` is the evaluator `cost()`, with its status map. `Feasibility`
    proves what that evaluator computes: the summed route costs when every
    route is feasible, +infinity otherwise.
  - `Construction` models `initialAssignment`, `randomVehicleWithCapacityAtLeast`
    and `randomIndices`.
  - `AuctionSolver` models the auction agent's `move`, `neighbors`,
    `chooseNext` and `solve`. `CentralizedSolver` models the centralized
    agent's versions of the same four.
- **Deliberative planner.**
  - `DeliberativeState` is the state space: `State`, `nextStates` and
    `isFinal`.
  - `DeliberativeSearch` is the BFS and A* drivers of both the agent and the
    template, plus `reconstructPlan`.
  - `NaivePlanner` is `naivePlan`.
  - `Heuristic` is the A* heuristic. `Forest` and `Kruskal` are the
    disjoint-set forest and the minimum-spanning-tree weight behind it, from
    both `Graph.java` files.
- **Auction cost estimation.**
  - `CostEstimation` holds `setup`'s task enumeration and `jointCost`.
  - `CostCounting` is the `CostCounter` of the auction companies. It splits
    each leg's cost among the tasks on board.

The model keeps the source's shape in these places:

- Hill climbing, the evaluator, the neighbourhood walks, the search loop,
  the naive plan, Kruskal's loop and the task enumeration are `method`s with
  loops. Each is proved against a function or predicate that says what it
  computes.
- `DisjointSet` and `CostCounter` are classes whose methods update their
  fields in place.
- States, assignments, edges and tasks are values.

Where the source has a bug (see "## Findings"), the operations take a flag
that selects the code as written or the corrected code. In `AuctionSolver`,
`asWritten` selects the source's inner loop of `neighbors`. In
`CentralizedSolver`, `inclusive` selects the corrected capacity test of
`move` (`load + weight <= capacity`) over the strict one as written.

The road network's distances are parameters: `Problem.dist`, `Topology.dist`
and the `dist` or `weight` arguments. They are natural numbers (the
counter's shares are `real`). The random generator becomes a
nondeterministic choice (`:|`). The wall clock becomes an iteration bound.

## Model

| member | source | states |
|---|---|---|
| Routing.WeightChange | auction/src/solver/ConstraintOptimizationSolver.java:565-601 | a pickup adds the task's weight, a delivery removes it, vehicle and end labels change nothing |
| Routing.Hop | auction/src/solver/ConstraintOptimizationSolver.java:510-514 | the distance to the end marker is 0, otherwise it is the distance between the two labels' cities |
| Routing.Unlink | centralized/src/template/ConstraintOptimizationProblem.java:339-354 | taking the pickup after bp and the delivery after bd out of their route keeps the labels, changes only bp and bd, and bridges both gaps (or one, when the delivery follows the pickup directly) |
| Routing.Relink | centralized/src/template/ConstraintOptimizationProblem.java:373-388 | putting the pair back after new anchors keeps the labels and changes only the anchors and the pair |
| Routing.RelinkReads | centralized/src/template/ConstraintOptimizationProblem.java:375-388 | after the splice the new pickup anchor points at the pickup, and the delivery points at what followed its anchor |
| Routing.RelinkClosed | centralized/src/template/ConstraintOptimizationProblem.java:339-391 | unlinking and relinking keeps the same labels, and every successor stays a label of the assignment that is not a vehicle, or the end marker |
| CostEval.InitialStatus | auction/src/solver/ConstraintOptimizationSolver.java:300-305 | the status map starts at 0 (not picked up) for exactly the task ids |
| CostEval.AllDelivered | auction/src/solver/ConstraintOptimizationSolver.java:351-356 | the closing check passes exactly when every status is 2 (delivered) |
| CostEval.Evaluate | auction/src/solver/ConstraintOptimizationSolver.java:296-359 | the nested loops over vehicles and route labels return CostOf, the value of the recursive walk that charges each hop at the vehicle's cost per km and returns +infinity at the first violation |
| CostEval.TrackedStep | auction/src/solver/ConstraintOptimizationSolver.java:155-158 | one global-best comparison keeps the best assignment the cheapest one visited and the recorded best costs non-increasing |
| Feasibility.RunSimulates | auction/src/solver/ConstraintOptimizationSolver.java:309-349 | walking the successor map is the same as walking the routes it encodes, label by label |
| Feasibility.RunAlongRoutes | auction/src/solver/ConstraintOptimizationSolver.java:309-357 | walking the routes gives the summed route costs when every step is feasible, otherwise +infinity |
| Feasibility.CostOfRoutes | auction/src/solver/ConstraintOptimizationSolver.java:296-359 | the evaluator returns the summed route costs exactly when, in the order the evaluator walks the routes (one status map shared by all of them), each pickup comes before its delivery, the load is within capacity after each pickup, and each delivery comes after its pickup; otherwise it returns +infinity |
| Feasibility.NoRoutes | auction/src/solver/ConstraintOptimizationSolver.java:296-359 | with no vehicles and no tasks the cost is 0 |
| Construction.Capable | auction/src/solver/ConstraintOptimizationSolver.java:53-59 | the capable vehicles are exactly those whose capacity is at least the weight |
| Construction.RandomVehicleWithCapacityAtLeast | auction/src/solver/ConstraintOptimizationSolver.java:51-64 | a capable vehicle is returned, and there is none exactly when no vehicle is capable (the source throws there) |
| Construction.RandomIndices | auction/src/solver/ConstraintOptimizationSolver.java:66-76 | the result is a permutation of 0 .. max-1 |
| Construction.PermutationOfRange | auction/src/solver/ConstraintOptimizationSolver.java:66-76 | a permutation of 0 .. n-1 has n distinct entries, each in range, and contains every index |
| Construction.EmptyAssignment | auction/src/solver/ConstraintOptimizationSolver.java:84-88 | every vehicle's route starts empty |
| Construction.InitialAssignment | auction/src/solver/ConstraintOptimizationSolver.java:82-104 | the result is None exactly when some task fits in no vehicle; otherwise the assignment is well formed, encodes one route per vehicle, and every pickup is directly followed by its delivery |
| Construction.PairedCost | auction/src/solver/ConstraintOptimizationSolver.java:82-104 | an initial assignment is always feasible: its cost is finite and equals its summed route costs |
| Construction.InitialFeasible | auction/src/solver/ConstraintOptimizationSolver.java:82-104 | any assignment `initialAssignment` can build has a finite cost |
| Construction.InitialsSnoc | auction/src/solver/ConstraintOptimizationSolver.java:159-165 | an assignment built at a restart joins the list of initial assignments |
| Construction.BestFeasible | auction/src/solver/ConstraintOptimizationSolver.java:119-165 | when the walk begins at an initial assignment, the best cost kept is finite |
| Collections.Shuffle | auction/src/solver/ConstraintOptimizationSolver.java:395-397 | shuffling permutes the list and keeps it free of repetitions |
| Collections.ListOf | deliberative/src/template/Graph.java:63 | listing a set gives each element exactly once |
| AuctionSolver.Move | auction/src/solver/ConstraintOptimizationSolver.java:428-465 | move keeps the labels and changes only the six labels it touches |
| AuctionSolver.MoveWellFormed | auction/src/solver/ConstraintOptimizationSolver.java:428-465 | a move keeps an assignment well formed |
| AuctionSolver.MoveReads | auction/src/solver/ConstraintOptimizationSolver.java:448-462 | after a move the pickup follows its new anchor and the delivery is followed by what followed its anchor; with one anchor the delivery directly follows the pickup |
| AuctionSolver.MoveInPlace | auction/src/solver/ConstraintOptimizationSolver.java:428-465 | moving the pair back to its own anchors returns the assignment unchanged |
| AuctionSolver.AsWrittenSkipsRouteEnd | auction/src/solver/ConstraintOptimizationSolver.java:413-416 | as written, an anchor at the end of its route yields no neighbour, while the corrected loop yields the move right after it |
| AuctionSolver.AsWrittenPrefix | auction/src/solver/ConstraintOptimizationSolver.java:413-416 | the loop as written yields a prefix of the corrected loop's candidates |
| AuctionSolver.AnchorCandidatesSound | auction/src/solver/ConstraintOptimizationSolver.java:413-416 | every candidate from an anchor is a move whose delivery anchor lies on the route at or after the pickup anchor |
| AuctionSolver.AnchorCandidatesComplete | auction/src/solver/ConstraintOptimizationSolver.java:413-416 | every label from the pickup anchor to the end of its route, the last one included, is offered as a delivery anchor |
| AuctionSolver.CandidatesWellFormed | auction/src/solver/ConstraintOptimizationSolver.java:399-421 | every neighbour is well formed |
| AuctionSolver.FindBeforeDelivery | auction/src/solver/ConstraintOptimizationSolver.java:380-387 | the label found is followed by the delivery of the task picked up after bp, on the same route |
| AuctionSolver.MovesFromAnchor | auction/src/solver/ConstraintOptimizationSolver.java:413-416 | the inner loop produces exactly its anchor's candidate list: the source's loop with asWritten, the corrected one without |
| AuctionSolver.AnchorNeighbors | auction/src/solver/ConstraintOptimizationSolver.java:395-419 | min(size, number of labels) distinct anchors are drawn, and the neighbours are their candidates in order, under the inner loop asWritten selects |
| AuctionSolver.Neighbors | auction/src/solver/ConstraintOptimizationSolver.java:366-421 | a task is relocated from its own anchors to the candidates of the drawn anchors, under the inner loop asWritten selects; there is no result when no label is followed by a pickup |
| AuctionSolver.BestOf | auction/src/solver/ConstraintOptimizationSolver.java:261-277 | infinite costs are skipped; the candidate returned is a cheapest finite one, and the last such on ties; None exactly when all are infinite |
| AuctionSolver.ChooseNext | auction/src/solver/ConstraintOptimizationSolver.java:251-281 | the result is a finite-cost neighbour drawn for the current assignment, and no more expensive than any other neighbour of its batch |
| AuctionSolver.Solve | auction/src/solver/ConstraintOptimizationSolver.java:117-176 | no result when some task fits in no vehicle; otherwise the assignment returned is well formed, the cheapest of all assignments visited and no dearer than the first, and finite when task ids are distinct; every step starts where the walk stood or at a fresh initial assignment and moves to a neighbour `chooseNext` drew, or stays; a neighbour no dearer than the assignment it was drawn for is always taken |
| AuctionSolver.WalkStep | auction/src/solver/ConstraintOptimizationSolver.java:133-157 | one iteration extends the walk: the drawn neighbour is accepted or not, and is accepted whenever it is no dearer than the assignment it was drawn for; the walk stands at the result |
| AuctionSolver.WalkRestart | auction/src/solver/ConstraintOptimizationSolver.java:159-165 | a reset to a fresh initial assignment keeps the walk, which then stands at that assignment |
| CentralizedSolver.TaskIndicesMembers | centralized/src/template/ConstraintOptimizationProblem.java:256-260 | the status keys are exactly 0 .. n-1 |
| CentralizedSolver.PlacementWitness | centralized/src/template/ConstraintOptimizationProblem.java:356-395 | every relocation puts the pickup after a label of some route whose load passes the capacity test, and the delivery after a label at or after it |
| CentralizedSolver.RelocationsWellFormed | centralized/src/template/ConstraintOptimizationProblem.java:335-399 | every relocation is well formed |
| CentralizedSolver.DeliveryLoop | centralized/src/template/ConstraintOptimizationProblem.java:366-393 | the innermost loop lists the placements of its specification, in order |
| CentralizedSolver.PickupLoop | centralized/src/template/ConstraintOptimizationProblem.java:358-395 | the middle loop, with its running load, lists the placements of its specification, in order, under the capacity test inclusive selects |
| CentralizedSolver.Move | centralized/src/template/ConstraintOptimizationProblem.java:335-399 | move lists every relocation of the task over every route, with the strict capacity test as written or the inclusive one |
| CentralizedSolver.EmptyRoutePlacements | centralized/src/template/ConstraintOptimizationProblem.java:358-364 | on a route left empty, the only position is right after the vehicle, offered exactly when the capacity test admits the task |
| CentralizedSolver.ExactFitNeighbors | centralized/src/template/ConstraintOptimizationProblem.java:364 | a task whose weight equals the capacity has no neighbour with the test as written, and its own position with the corrected test |
| CentralizedSolver.SearchWellFormed | centralized/src/template/ConstraintOptimizationProblem.java:304-333 | every neighbour is well formed |
| CentralizedSolver.DeliverySearchLoop | centralized/src/template/ConstraintOptimizationProblem.java:319-327 | the walk for the delivery lists the relocations of its specification, under either capacity test |
| CentralizedSolver.PickupSearchLoop | centralized/src/template/ConstraintOptimizationProblem.java:313-329 | the walk along one route lists the relocations of its specification, under either capacity test |
| CentralizedSolver.Neighbors | centralized/src/template/ConstraintOptimizationProblem.java:304-333 | a task is drawn and all its relocations under the selected capacity test are listed; there is no result exactly when there are no tasks |
| CentralizedSolver.MinOf | centralized/src/template/ConstraintOptimizationProblem.java:221-236 | the candidate returned is a cheapest one, and the last such on ties; None exactly when there are no candidates |
| CentralizedSolver.ChooseNext | centralized/src/template/ConstraintOptimizationProblem.java:219-239 | the result is a cheapest neighbour of the current assignment for the drawn task; None exactly when that list is empty, where the source fails |
| CentralizedSolver.Solve | centralized/src/template/ConstraintOptimizationProblem.java:94-149 | no result when some task fits in no vehicle; otherwise the result is the cheapest assignment visited and no dearer than the first, finite when ids are dense and distinct; every step moves to a neighbour `chooseNext` chose for the assignment the walk stood at, or restarts from a fresh initial assignment |
| CentralizedSolver.WalkStep | centralized/src/template/ConstraintOptimizationProblem.java:108-132 | one iteration extends the walk, which moves to the chosen neighbour |
| CentralizedSolver.WalkRestart | centralized/src/template/ConstraintOptimizationProblem.java:134-139 | a reset to a fresh initial assignment keeps the walk, which then stands at that assignment |
| DeliberativeState.NextStatesApply | deliberative/src/template/State.java:42-98 | a successor is listed exactly when its action applies to the state: a pickup of a waiting task at its city that fits, a delivery of a carried task at its city, or a move to a neighbour |
| DeliberativeState.RunConcat | deliberative/src/template/State.java:42-98 | running two action sequences in turn is running their concatenation |
| DeliberativeState.StepPreserves | deliberative/src/template/State.java:46-95 | every successor keeps capacity plus weight on board constant and the capacity non-negative, and never adds a task |
| DeliberativeState.RunPreserves | deliberative/src/template/State.java:42-98 | every reachable state keeps those invariants |
| DeliberativeState.OverloadAsWritten | deliberative/src/template/State.java:35-40 | from the initial state as written, a vehicle already carrying weight can load past its capacity |
| DeliberativeState.WithinCapacity | deliberative/src/template/State.java:35-40 | from the corrected initial state, every reachable state carries at most the vehicle's capacity |
| DeliberativeSearch.AgainstParentNeverReopens | deliberative/src/template/DeliberativeTemplate.java:171 | as written, the template's BFS test skips a known child whatever its new cost |
| DeliberativeSearch.AgainstParentDropsCheaperRoute | deliberative/src/template/DeliberativeTemplate.java:171 | as written, a cheaper route to a known child is dropped, and the agent's test keeps it |
| DeliberativeSearch.ArgMin | deliberative/src/deliberative/DeliberativeAgent.java:137-143 | the index returned holds a least f in the queue |
| DeliberativeSearch.Poll | deliberative/src/deliberative/DeliberativeAgent.java:163 | BFS polls the front of the queue; A* polls a state of least f |
| DeliberativeSearch.Visit | deliberative/src/deliberative/DeliberativeAgent.java:181-214 | a child dearer than the best cost or rejected by the revisit test changes nothing; any other child gets its step cost, the state as parent, the transition's action as cause and under A* its f, and joins the back of the queue |
| DeliberativeSearch.Expand | deliberative/src/deliberative/DeliberativeAgent.java:179-215 | the expansion keeps the bookkeeping consistent, only lowers costs, forgets nothing, changes only the children it entered (a known one only under the agent's test and for a lower cost), keeps every entry under the other tests, enqueues only children it entered and every state whose record it changed, reaches every child within the best cost, and under the agent's test relaxes the state |
| DeliberativeSearch.Search | deliberative/src/deliberative/DeliberativeAgent.java:157-216 | the goal is a final polled state at the best cost; best costs only decrease; under Stop.FIRST the first final state polled ends the search; with the agent's test every expanded state is relaxed |
| DeliberativeSearch.ReconstructPlan | deliberative/src/deliberative/DeliberativeAgent.java:229-247 | there is a plan exactly when there is a goal other than the initial state; the plan rebuilt from the causes and parents runs from the initial state to the goal, at no more than the goal's recorded cost |
| DeliberativeSearch.Plan | deliberative/src/deliberative/DeliberativeAgent.java:116-227 | there is a plan exactly when a goal was found and the initial state is not final; it is allowed action by action, ends in a final state, and costs at most the best cost found |
| NaivePlanner.NaivePlan | deliberative/src/deliberative/DeliberativeAgent.java:85-114 | the loop builds, task by task, the moves to the pickup, the pickup, the moves along the path and the delivery |
| NaivePlanner.AppendMoves | deliberative/src/deliberative/DeliberativeAgent.java:94-95 | one move is appended per city of the path |
| NaivePlanner.TaskRuns | deliberative/src/deliberative/DeliberativeAgent.java:92-109 | one task's actions are allowed in turn and deliver it |
| NaivePlanner.NaivePlanDelivers | deliberative/src/deliberative/DeliberativeAgent.java:85-114 | the naive plan is allowed action by action and ends empty, in the last delivery city, with all of the tasks delivered |
| Forest.FindIsRoot | deliberative/src/template/Graph.java:26-35 | following the parents ends at a root, which stays among the nodes |
| Forest.Root | deliberative/src/template/Graph.java:26-35 | the loop returns the root of the child |
| Forest.RootAndDepthIn | deliberative/src/template/Graph.java:120-131 | the loop returns the root and the number of links to it |
| Forest.LinkFind | deliberative/src/template/Graph.java:137-139 | hanging one root under another keeps the forest ranked, and moves exactly the first root's elements under the second |
| Forest.DisjointSet.RootAndDepth | deliberative/src/template/Graph.java:120-131 | the root and depth of an element in the set's own forest |
| Forest.DisjointSet.Root | deliberative/src/template/Graph.java:111-114 | root is the first half of rootAndDepth |
| Forest.DisjointSet.ElementDepth | deliberative/src/template/Graph.java:116-118 | depth is the second half of rootAndDepth |
| Forest.DisjointSet.Connected | deliberative/src/template/Graph.java:133-135 | two elements are connected exactly when they have the same root |
| Forest.DisjointSet.Connect | deliberative/src/template/Graph.java:137-139 | the first root gets the second as parent; every element whose root was the first now has the second |
| Kruskal.LightestExists | deliberative/src/template/Graph.java:44-46 | a non-empty priority queue always has a lightest edge to poll |
| Kruskal.Run | deliberative/src/template/Graph.java:37-58 | Kruskal's algorithm as a function of the polling order: an edge whose ends have different roots is kept and links the roots, any other is dropped; the forest stays ranked and at most one edge is kept per poll |
| Kruskal.KeptMerge | deliberative/src/template/Graph.java:48-54 | polling an edge whose ends have different roots keeps it and links the first root under the second |
| Kruskal.KeptSkip | deliberative/src/template/Graph.java:48-54 | polling an edge whose ends share a root drops it and changes nothing |
| Kruskal.MergeStep | deliberative/src/template/Graph.java:48-54 | keeping an edge whose endpoints have different roots adds its weight and makes one root fewer |
| Kruskal.SkipStep | deliberative/src/template/Graph.java:48-54 | an edge whose endpoints share a root is dropped |
| Kruskal.TemplateMstWeight | deliberative/src/template/Graph.java:37-58 | every edge is polled once, lightest first; the edges kept and the forest built are those of Run over that order; the total is the weight of the kept edges; at most one fewer than the nodes are kept; every edge's endpoints end under one root |
| Kruskal.AgentMstWeight | deliberative/src/deliberative/Graph.java:26-46 | the same loop over a DisjointSet object: edges polled lightest first, kept edges and forest those of Run over that order, the total their weight |
| Kruskal.OnePerPair | deliberative/src/template/Graph.java:65-77 | the pair loop gives each unordered pair of listed cities exactly one edge, with its weight |
| Kruskal.CompleteCityGraph | deliberative/src/template/Graph.java:60-80 | every edge joins two different cities at their distance, and every pair of different cities gets exactly one edge |
| Heuristic.CitiesToVisit | deliberative/src/template/State.java:106-117 | the set built holds exactly the current city, both ends of every waiting task, and the destination of every carried task |
| Heuristic.Estimate | deliberative/src/template/State.java:104-120 | the heuristic is the cost per km times the weight of the edges Kruskal keeps when it polls the complete graph over the cities to visit lightest first; they are one fewer than the cities, join cities at their distance, and leave every city under one root |
| CostEstimation.Setup | auction/src/solver/CostEstimator.java:28-39 | there are n*n tasks numbered from 0, each carrying the distribution's weight between two listed cities; every ordered pair is covered, and covered once when the cities are distinct |
| CostEstimation.OrdersAreInterleavings | auction/src/solver/CostEstimator.java:79-122 | the six plans are exactly the stop orders that pick each task up before delivering it |
| CostEstimation.PathLength | auction/src/solver/CostEstimator.java:128-138 | the inner loop sums the distances between consecutive cities |
| CostEstimation.JointCost | auction/src/solver/CostEstimator.java:77-146 | the joint cost is the length of one of the six plans and at most the length of each |
| CostEstimation.OrdersSymmetric | auction/src/solver/CostEstimator.java:79-122 | swapping the two tasks permutes the six plans |
| CostEstimation.JointCostSymmetric | auction/src/solver/CostEstimator.java:77-146 | the joint cost does not depend on the order of the two tasks |
| CostCounting.Charged | auction/src/company/AbstractCompany.java:149-154 | charging a leg keeps the set of tasks with a cost |
| CostCounting.CostCounter.constructor | auction/src/company/AbstractCompany.java:127-131 | the state `costOfTasks` sets up before any action is handled: nothing on board and no costs |
| CostCounting.CostCounter.Pickup | auction/src/company/AbstractCompany.java:160-165 | a pickup starts the task's cost at 0 and puts it on board |
| CostCounting.CostCounter.Deliver | auction/src/company/AbstractCompany.java:139-143 | a delivery takes the task off board and keeps its cost |
| CostCounting.CostCounter.MoveTo | auction/src/company/AbstractCompany.java:145-158 | a leg charges each task on board an equal share of the leg's length times the cost per km, and moves the counter |
| CostCounting.CostCounter.Handle | auction/src/company/AbstractCompany.java:127-137 | each action is dispatched to its handler |
| CostCounting.CostCounter.CostOfTasks | auction/src/company/AbstractCompany.java:127-137 | the costs returned are those of replaying the actions from the initial city |
| CostCounting.CostOfTasksKeys | auction/src/company/AbstractCompany.java:127-165 | exactly the tasks picked up have a cost |
| CostCounting.MoveCharges | auction/src/company/AbstractCompany.java:145-158 | a leg adds its full length times the cost per km to the summed costs when something is on board, and nothing otherwise |
| CostCounting.ReplayTotal | auction/src/company/AbstractCompany.java:127-165 | when no task is picked up twice, the costs sum to the cost of the legs driven loaded |

## Left out

- The wall clock of both `solve`s and `timeout` become an iteration bound. Drawing from the random generator becomes nondeterministic choice (`:|`), and the acceptance draw in the auction `solve` is a choice.
- `getPlans`, the conversion of an assignment into platform plans, is not modelled. Neither is `randomNeighbor`, which the solvers do not call.
- Floating point: distances, costs and the heuristic are natural numbers. The coordinate distance with `Math.sqrt` in `completeCityGraph` becomes the `dist` parameter. The counter's shares are `real`.
- The parts of `CostEstimator` that need the task distribution's probabilities are not modelled: `probability`, `weightedJointCost`, `coeff` and the `averageCost` sum in `setup`. The `tasks` set of `setup` is the list `Setup` returns.
- `costOfMoves`, `rewardOfTasks`, the per-plan `costOfTasks` wrapper, `auctionResult` and the bidding companies (`AFKCompany`, `NaiveCompany`, `SmartCompany` and the others) are not modelled. Neither are the reactive agents under `reactive/`.
- Logging and `println` are left out.
- deliberative/src/deliberative/State.java is not part of this model. The agent's states use the template's `State`.
- `DeliberativeSearch.Poll`: the priority queue is modelled as a list from which a state of least f is taken. Priorities that go stale after an update are not modelled.
- `DeliberativeSearch.ReconstructPlan` returns None where the source would put a missing cause into the plan: no goal, or the initial state is itself the goal.
- `DeliberativeSearch.Search` and `DeliberativeSearch.Plan`: the agent's loop runs until the queue is empty, while the model polls at most `steps` states (`while queue != [] && step < steps`). With a small bound both can stop before the queue empties, so neither states that a reachable goal is found.
- The template's A* loop guard `count < 100000` never fires because `count` is never incremented, so it is omitted.
- `CentralizedSolver.Solve` takes no `p`: the source ignores it and accepts every neighbour.
- `CentralizedSolver.ChooseNext` and `CentralizedSolver.Solve` require dense task ids (each id is the task's index). The centralized evaluator fills its status map for the keys 0 .. n-1 only (centralized/src/template/ConstraintOptimizationProblem.java:256-260). For any other id, `deliveryStatus.get(...)` returns null and unboxing it throws (ConstraintOptimizationProblem.java:273 and :285). The model leaves that exception out instead of modelling it.
- `CentralizedSolver.MinOf`: the source's tie branch follows an at-most test and is never taken. So exactly one cheapest candidate is kept and there is no draw among equals.
- `AuctionSolver.ChooseNext` retries at most `tries` batches where the source retries without bound. None stands for running out of tries.
- `Forest.DisjointSet.Connect` requires two distinct roots. The source's only caller passes exactly those, and other arguments could close a cycle.
- Edges are values: two edges with the same endpoints and weight are one element of the edge set. The source's `HashSet` of `Edge` objects compares identities, but `completeCityGraph` never builds two equal edges.
- The ghost ranks of the forest are a proof device for termination, not part of the source.

## Findings

| source | as written | input that shows it | evidently intended | confidence | as-written member | corrected member |
|---|---|---|---|---|---|---|
| auction/src/solver/ConstraintOptimizationSolver.java:413 | the delivery-anchor loop stops when the label after it is the end marker | an anchor at the end of its route, e.g. a vehicle with an empty route: no neighbour at all | every position from the anchor to the end of the route, the last label included, as in the centralized `move` | medium, not executed | AuctionSolver.AsWrittenSkipsRouteEnd | AuctionSolver.AnchorCandidatesComplete |
| centralized/src/template/ConstraintOptimizationProblem.java:364 | a position is admitted only when load plus weight is strictly below capacity | one vehicle of capacity 10 and one task of weight 10: `neighbors()` is empty and `chooseNext` draws from an empty list | admit load plus weight equal to capacity, as the evaluator accepts it | high, not executed | CentralizedSolver.ExactFitNeighbors | CentralizedSolver.EmptyRoutePlacements |
| deliberative/src/template/State.java:35-40 | the initial capacity is the full capacity, even with tasks already on board | capacity 10, carrying a task of weight 6, another task of weight 6 waiting: the pickup is allowed and 12 is carried | take the weight on board off the capacity | medium, not executed | DeliberativeState.OverloadAsWritten | DeliberativeState.WithinCapacity |
| deliberative/src/template/DeliberativeTemplate.java:171 | a known child is skipped unless its new cost is below the parent's cost, which never happens | parent recorded at 2, child recorded at 10, new route to the child at 5: the cheaper route is dropped | compare with the child's recorded cost, as the comment above the test and the agent's version do | high, not executed | DeliberativeSearch.AgainstParentDropsCheaperRoute | DeliberativeSearch.Search |
