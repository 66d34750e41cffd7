/**
 * The local-search solver of the auction agent
 * (auction/src/solver/ConstraintOptimizationSolver.java): the relocation
 * `move`, the randomized neighbourhood, the choice of the best neighbour and
 * the hill-climbing driver with restarts.  An assignment is a successor map;
 * its cost is CostEval's evaluator with the status map keyed by the task ids.
 * Random draws are nondeterministic choices; the wall-clock budget is an
 * iteration count; walks along a route stop after as many hops as there are
 * labels.
 */
module AuctionSolver {
  import opened Routing
  import opened CostEval
  import Collections
  import Construction

  // ---------------------------------------------------------------------------
  // move
  // ---------------------------------------------------------------------------

  /**
   * What `move` reads: the labels before the pickup and the delivery, the
   * pickup and delivery after them, and the two new anchors are all keys.
   */
  predicate MoveArgs(succ: Successors, bp: Node, bd: Node, nbp: Node, nbd: Node) {
    bp in succ && bd in succ && succ[bp] in succ && succ[bd] in succ && nbp in succ && nbd in succ
  }

  /**
   * The pickup after bp and the delivery after bd, taken out of their route
   * and spliced in after nbp and nbd, on a copy of the map.  Only the
   * entries of the six labels involved can change.
   */
  function Move(succ: Successors, bp: Node, bd: Node, nbp: Node, nbd: Node): (r: Successors)
    requires MoveArgs(succ, bp, bd, nbp, nbd)
    ensures r.Keys == succ.Keys
    ensures forall x :: x in succ && x !in {bp, bd, nbp, nbd, succ[bp], succ[bd]} ==> r[x] == succ[x]
  {
    Relink(Unlink(succ, bp, bd), succ[bp], succ[bd], nbp, nbd)
  }

  /** A move keeps an assignment well formed: the same labels, nothing linked back to a vehicle. */
  lemma MoveWellFormed(p: Problem, succ: Successors, bp: Node, bd: Node, nbp: Node, nbd: Node)
    requires WellFormed(p, succ) && MoveArgs(succ, bp, bd, nbp, nbd)
    ensures WellFormed(p, Move(succ, bp, bd, nbp, nbd))
  {
    RelinkClosed(p, succ, bp, bd, nbp, nbd);
  }

  /**
   * With anchors other than the moved labels, the moved pair reads
   * nbp -> pickup and delivery -> (what followed nbd once the pair was
   * taken out); with a single anchor the pickup is directly followed by the
   * delivery, and otherwise the pickup by what followed nbp and nbd by the
   * delivery.
   */
  lemma MoveReads(succ: Successors, bp: Node, bd: Node, nbp: Node, nbd: Node)
    requires MoveArgs(succ, bp, bd, nbp, nbd)
    requires succ[bp] != succ[bd] && nbp !in {succ[bp], succ[bd]} && nbd !in {succ[bp], succ[bd]}
    ensures var pickup, delivery := succ[bp], succ[bd];
      var m := Unlink(succ, bp, bd);
      var r := Move(succ, bp, bd, nbp, nbd);
      && r[nbp] == pickup
      && r[delivery] == m[nbd]
      && (nbp == nbd ==> r[pickup] == delivery)
      && (nbp != nbd ==> r[pickup] == m[nbp] && r[nbd] == delivery)
  {
    RelinkReads(Unlink(succ, bp, bd), succ[bp], succ[bd], nbp, nbd);
  }

  /**
   * Moving the pair back to where it was gives the map it started from: the
   * anchors are bp and bd, or bp twice when the delivery directly follows
   * the pickup.
   */
  lemma MoveInPlace(succ: Successors, bp: Node, bd: Node)
    requires bp in succ && bd in succ && succ[bp] in succ && succ[bd] in succ
    requires bp != bd && succ[bp] != bp && succ[bd] != bd && succ[bp] != succ[bd]
    ensures Move(succ, bp, bd, bp, if succ[bp] == bd then bp else bd) == succ
  {
    var pickup, delivery := succ[bp], succ[bd];
    var r := Move(succ, bp, bd, bp, if pickup == bd then bp else bd);
    forall x | x in succ
      ensures r[x] == succ[x]
    {
    }
  }

  // ---------------------------------------------------------------------------
  // neighbors
  // ---------------------------------------------------------------------------

  /**
   * The moves that put the pickup after the anchor nbp and the delivery after
   * nbd or a label further along nbd's route, up to and including the last
   * label of the route, within fuel hops.
   */
  function AnchorCandidates(p: Problem, succ: Successors, bp: Node, bd: Node, nbp: Node, nbd: Node, fuel: nat): seq<Successors>
    requires Closed(p, succ) && MoveArgs(succ, bp, bd, nbp, nbd)
    decreases fuel
  {
    if fuel == 0 then []
    else [Move(succ, bp, bd, nbp, nbd)] + (if succ[nbd] == End then [] else AnchorCandidates(p, succ, bp, bd, nbp, succ[nbd], fuel - 1))
  }

  /**
   * The inner loop as the source writes it: it stops as soon as the label
   * after nbd is the end marker, so the last label of a route is never an
   * anchor for the delivery.
   */
  function AnchorCandidatesAsWritten(p: Problem, succ: Successors, bp: Node, bd: Node, nbp: Node, nbd: Node, fuel: nat): seq<Successors>
    requires Closed(p, succ) && MoveArgs(succ, bp, bd, nbp, nbd)
    decreases fuel
  {
    if fuel == 0 || succ[nbd] == End then []
    else [Move(succ, bp, bd, nbp, nbd)] + AnchorCandidatesAsWritten(p, succ, bp, bd, nbp, succ[nbd], fuel - 1)
  }

  /**
   * As written, an anchor that ends its route (a vehicle whose route is
   * empty, or the last label of a route) yields no neighbour at all, while
   * the corrected loop yields the move that puts the pair right after it.
   */
  lemma AsWrittenSkipsRouteEnd(p: Problem, succ: Successors, bp: Node, bd: Node, nbp: Node, fuel: nat)
    requires Closed(p, succ) && MoveArgs(succ, bp, bd, nbp, nbp) && succ[nbp] == End && fuel > 0
    ensures AnchorCandidatesAsWritten(p, succ, bp, bd, nbp, nbp, fuel) == []
    ensures AnchorCandidates(p, succ, bp, bd, nbp, nbp, fuel) == [Move(succ, bp, bd, nbp, nbp)]
  {
  }

  /** The moves the inner loop yields from one anchor: as the source writes it, or as corrected. */
  function AnchorMoves(p: Problem, succ: Successors, bp: Node, bd: Node, nbp: Node, nbd: Node, fuel: nat, asWritten: bool): seq<Successors>
    requires Closed(p, succ) && MoveArgs(succ, bp, bd, nbp, nbd)
  {
    if asWritten then AnchorCandidatesAsWritten(p, succ, bp, bd, nbp, nbd, fuel) else AnchorCandidates(p, succ, bp, bd, nbp, nbd, fuel)
  }

  /** The loop as written yields a prefix of the corrected loop's moves: the same moves, short of the route's last label. */
  lemma {:induction false} AsWrittenPrefix(p: Problem, succ: Successors, bp: Node, bd: Node, nbp: Node, nbd: Node, fuel: nat)
    requires Closed(p, succ) && MoveArgs(succ, bp, bd, nbp, nbd)
    ensures AnchorCandidatesAsWritten(p, succ, bp, bd, nbp, nbd, fuel) <= AnchorCandidates(p, succ, bp, bd, nbp, nbd, fuel)
    decreases fuel
  {
    if fuel > 0 && succ[nbd] != End {
      AsWrittenPrefix(p, succ, bp, bd, nbp, succ[nbd], fuel - 1);
    }
  }

  /** Past the first, the candidates from nbd are those from the label after it. */
  lemma AnchorCandidatesTail(p: Problem, succ: Successors, bp: Node, bd: Node, nbp: Node, nbd: Node, fuel: nat, i: nat)
    requires Closed(p, succ) && MoveArgs(succ, bp, bd, nbp, nbd)
    requires 0 < i < |AnchorCandidates(p, succ, bp, bd, nbp, nbd, fuel)|
    ensures fuel > 0 && succ[nbd] != End && succ[nbd] in succ
    ensures i - 1 < |AnchorCandidates(p, succ, bp, bd, nbp, succ[nbd], fuel - 1)|
    ensures AnchorCandidates(p, succ, bp, bd, nbp, nbd, fuel)[i] == AnchorCandidates(p, succ, bp, bd, nbp, succ[nbd], fuel - 1)[i - 1]
  {
  }

  /** Every candidate from an anchor is a move whose delivery anchor is reached from nbd within fuel hops. */
  lemma {:induction false} AnchorCandidatesSound(p: Problem, succ: Successors, bp: Node, bd: Node, nbp: Node, nbd: Node, fuel: nat, i: nat)
    requires Closed(p, succ) && MoveArgs(succ, bp, bd, nbp, nbd)
    requires i < |AnchorCandidates(p, succ, bp, bd, nbp, nbd, fuel)|
    ensures i < fuel
    ensures var y := Advance(succ, nbd, i);
      MoveArgs(succ, bp, bd, nbp, y) && AnchorCandidates(p, succ, bp, bd, nbp, nbd, fuel)[i] == Move(succ, bp, bd, nbp, y)
    decreases i
  {
    if i > 0 {
      AnchorCandidatesTail(p, succ, bp, bd, nbp, nbd, fuel, i);
      AnchorCandidatesSound(p, succ, bp, bd, nbp, succ[nbd], fuel - 1, i - 1);
      AdvanceFront(succ, nbd, i - 1);
      var y := Advance(succ, succ[nbd], i - 1);
      assert Advance(succ, nbd, i) == y;
      assert AnchorCandidates(p, succ, bp, bd, nbp, succ[nbd], fuel - 1)[i - 1] == Move(succ, bp, bd, nbp, y);
    } else {
      assert Advance(succ, nbd, 0) == nbd;
    }
  }

  /** The candidates from an anchor reach at least as far as the route does within fuel hops. */
  lemma {:induction false} AnchorCandidatesReach(p: Problem, succ: Successors, bp: Node, bd: Node, nbp: Node, nbd: Node, fuel: nat, k: nat)
    requires Closed(p, succ) && MoveArgs(succ, bp, bd, nbp, nbd)
    requires k < fuel && forall i :: 0 < i <= k ==> Advance(succ, nbd, i) != End
    ensures k < |AnchorCandidates(p, succ, bp, bd, nbp, nbd, fuel)|
    decreases k
  {
    if k > 0 {
      AdvanceFront(succ, nbd, 0);
      assert succ[nbd] != End;
      forall i | 0 < i <= k - 1
        ensures Advance(succ, succ[nbd], i) != End
      {
        AdvanceFront(succ, nbd, i);
      }
      AnchorCandidatesReach(p, succ, bp, bd, nbp, succ[nbd], fuel - 1, k - 1);
    }
  }

  /**
   * Every label reached from nbd within fuel hops without passing the end
   * marker is an anchor for the delivery: the corrected loop generates all
   * positions after the pickup's anchor, the end of the route included.
   */
  lemma AnchorCandidatesComplete(p: Problem, succ: Successors, bp: Node, bd: Node, nbp: Node, nbd: Node, fuel: nat, k: nat)
    requires Closed(p, succ) && MoveArgs(succ, bp, bd, nbp, nbd)
    requires k < fuel && forall i :: 0 < i <= k ==> Advance(succ, nbd, i) != End
    ensures Advance(succ, nbd, k) in succ
    ensures Move(succ, bp, bd, nbp, Advance(succ, nbd, k)) in AnchorCandidates(p, succ, bp, bd, nbp, nbd, fuel)
  {
    AnchorCandidatesReach(p, succ, bp, bd, nbp, nbd, fuel, k);
    AnchorCandidatesSound(p, succ, bp, bd, nbp, nbd, fuel, k);
  }

  /** The neighbourhood: the candidates from each anchor, in the order the anchors are taken. */
  function Candidates(p: Problem, succ: Successors, bp: Node, bd: Node, anchors: seq<Node>, asWritten: bool): seq<Successors>
    requires Closed(p, succ) && bp in succ && bd in succ && succ[bp] in succ && succ[bd] in succ
    requires forall a :: a in anchors ==> a in succ
  {
    if anchors == [] then []
    else
      var a := anchors[|anchors| - 1];
      Candidates(p, succ, bp, bd, anchors[..|anchors| - 1], asWritten) + AnchorMoves(p, succ, bp, bd, a, a, |succ|, asWritten)
  }

  /** One more anchor appends its moves to the neighbourhood. */
  lemma CandidatesSnoc(p: Problem, succ: Successors, bp: Node, bd: Node, anchors: seq<Node>, a: Node, asWritten: bool)
    requires Closed(p, succ) && bp in succ && bd in succ && succ[bp] in succ && succ[bd] in succ
    requires (forall b :: b in anchors ==> b in succ) && a in succ
    ensures Candidates(p, succ, bp, bd, anchors + [a], asWritten)
      == Candidates(p, succ, bp, bd, anchors, asWritten) + AnchorMoves(p, succ, bp, bd, a, a, |succ|, asWritten)
  {
    assert (anchors + [a])[..|anchors|] == anchors;
  }

  /** Every neighbour is well formed. */
  lemma {:induction false} CandidatesWellFormed(p: Problem, succ: Successors, bp: Node, bd: Node, anchors: seq<Node>, asWritten: bool)
    requires WellFormed(p, succ) && bp in succ && bd in succ && succ[bp] in succ && succ[bd] in succ
    requires forall a :: a in anchors ==> a in succ
    ensures forall n :: n in Candidates(p, succ, bp, bd, anchors, asWritten) ==> WellFormed(p, n)
  {
    if anchors != [] {
      var a := anchors[|anchors| - 1];
      var init := anchors[..|anchors| - 1];
      CandidatesWellFormed(p, succ, bp, bd, init, asWritten);
      var last := AnchorMoves(p, succ, bp, bd, a, a, |succ|, asWritten);
      var all := AnchorCandidates(p, succ, bp, bd, a, a, |succ|);
      AsWrittenPrefix(p, succ, bp, bd, a, a, |succ|);
      forall i | 0 <= i < |last|
        ensures WellFormed(p, last[i])
      {
        assert i < |all| && last[i] == all[i];
        AnchorCandidatesSound(p, succ, bp, bd, a, a, |succ|, i);
        MoveWellFormed(p, succ, bp, bd, a, Advance(succ, a, i));
      }
    }
  }

  /**
   * The task `neighbors` relocates: bp is followed by a pickup, bd by a
   * delivery of the same task id, and bd lies on bp's route after it.
   */
  ghost predicate Relocates(succ: Successors, bp: Node, bd: Node) {
    && bp in succ && succ[bp].Pick? && succ[bp] in succ
    && bd in succ && succ[bd].Del? && succ[bd] in succ
    && succ[bd].task.id == succ[bp].task.id
    && exists k :: Advance(succ, bp, k) == bd
  }

  /** The labels followed by a pickup. */
  method BeforePickups(succ: Successors, labels: seq<Node>) returns (r: seq<Node>)
    requires forall x :: x in labels ==> x in succ
    ensures forall x :: x in r <==> x in labels && succ[x].Pick?
  {
    r := [];
    for i := 0 to |labels|
      invariant forall x :: x in r <==> x in labels[..i] && succ[x].Pick?
    {
      assert labels[..i + 1] == labels[..i] + [labels[i]];
      if succ[labels[i]].Pick? {
        r := r + [labels[i]];
      }
    }
    assert labels[..|labels|] == labels;
  }

  /**
   * The walk from bp along its route for a label followed by the delivery of
   * the pickup after bp; the last one found is kept.  None where none is
   * found within |succ| hops.
   */
  method FindBeforeDelivery(p: Problem, succ: Successors, bp: Node) returns (bd: Option<Node>)
    requires Closed(p, succ) && bp in succ && succ[bp].Pick? && succ[bp] in succ
    ensures bd.Some? ==> Relocates(succ, bp, bd.value)
  {
    var pickup := succ[bp];
    var cursor := bp;
    var fuel := |succ|;
    bd := None;
    while fuel > 0 && succ[cursor] != End
      invariant cursor in succ && fuel <= |succ|
      invariant cursor == Advance(succ, bp, |succ| - fuel)
      invariant bd.Some? ==> Relocates(succ, bp, bd.value)
    {
      var candidate := succ[cursor];
      if candidate.Del? && candidate.task.id == pickup.task.id {
        assert Advance(succ, bp, |succ| - fuel) == cursor;
        bd := Some(cursor);
      }
      cursor := candidate;
      fuel := fuel - 1;
    }
  }

  /**
   * `neighbors`: a label followed by a pickup is drawn, the label before its
   * delivery is found along the route, and then, for up to size anchors
   * drawn without replacement among all labels, every move putting the
   * pickup after the anchor and the delivery after a label at or after it.
   * With asWritten the inner loop is the source's, which yields nothing from
   * an anchor at the end of its route (AnchorCandidatesAsWritten); without
   * it, the corrected loop (AnchorCandidates).  None where the
   * source cannot return: no label is followed by a pickup (its draw never
   * ends) or no delivery is found (a null dereference).
   */
  method Neighbors(p: Problem, succ: Successors, size: int, asWritten: bool)
      returns (r: Option<seq<Successors>>, ghost bp: Node, ghost bd: Node, ghost anchors: seq<Node>)
    requires WellFormed(p, succ)
    ensures (forall x :: x in succ ==> !succ[x].Pick?) ==> r.None?
    ensures r.Some? ==> Relocates(succ, bp, bd)
    ensures r.Some? ==> (forall a :: a in anchors ==> a in succ) && Collections.Distinct(anchors)
    ensures r.Some? ==> |anchors| == if size <= 0 then 0 else if size < |succ| then size else |succ|
    ensures r.Some? ==> r.value == Candidates(p, succ, bp, bd, anchors, asWritten)
  {
    anchors := [];
    var allLabels := Collections.ListOf(succ.Keys);
    var pickupAnchors := BeforePickups(succ, allLabels);
    if |pickupAnchors| == 0 {
      return None, End, End, anchors;
    }
    var choice :| 0 <= choice < |pickupAnchors|;
    var beforePickup := pickupAnchors[choice];
    assert beforePickup in allLabels;
    var found := FindBeforeDelivery(p, succ, beforePickup);
    if found.None? {
      return None, beforePickup, End, anchors;
    }
    var beforeDelivery := found.value;
    bp, bd := beforePickup, beforeDelivery;
    var neighbors;
    neighbors, anchors := AnchorNeighbors(p, succ, beforePickup, beforeDelivery, size, asWritten);
    return Some(neighbors), bp, bd, anchors;
  }

  /**
   * One hop of the inner loop: if the moves so far followed by those from
   * nbd on are all of them, so are the moves with the one to nbd added
   * followed by those from the next label on.
   */
  lemma AnchorMovesStep(p: Problem, succ: Successors, bp: Node, bd: Node, nbp: Node, nbd: Node, fuel: nat, asWritten: bool,
                        moves: seq<Successors>, all: seq<Successors>)
    requires Closed(p, succ) && MoveArgs(succ, bp, bd, nbp, nbd) && fuel > 0 && !(asWritten && succ[nbd] == End)
    requires moves + AnchorMoves(p, succ, bp, bd, nbp, nbd, fuel, asWritten) == all
    ensures succ[nbd] == End ==> moves + [Move(succ, bp, bd, nbp, nbd)] == all
    ensures succ[nbd] != End ==> succ[nbd] in succ
    ensures succ[nbd] != End ==>
      (moves + [Move(succ, bp, bd, nbp, nbd)]) + AnchorMoves(p, succ, bp, bd, nbp, succ[nbd], fuel - 1, asWritten) == all
  {
    var move := Move(succ, bp, bd, nbp, nbd);
    if succ[nbd] == End {
      Collections.ConcatNil([move]);
    } else {
      Collections.ConcatRegroup(moves, move, AnchorMoves(p, succ, bp, bd, nbp, succ[nbd], fuel - 1, asWritten));
    }
  }

  /**
   * The moves from one anchor: the inner loop of `neighbors`, which stops
   * before a label followed by the end marker as written, and after it as
   * corrected.
   */
  method MovesFromAnchor(p: Problem, succ: Successors, bp: Node, bd: Node, nbp: Node, asWritten: bool) returns (moves: seq<Successors>)
    requires Closed(p, succ) && MoveArgs(succ, bp, bd, nbp, nbp)
    ensures moves == AnchorMoves(p, succ, bp, bd, nbp, nbp, |succ|, asWritten)
  {
    moves := [];
    var nbd := nbp;
    var fuel: nat := |succ|;
    Collections.ConcatEmpty(AnchorMoves(p, succ, bp, bd, nbp, nbp, |succ|, asWritten));
    while fuel > 0 && !(asWritten && succ[nbd] == End)
      invariant nbd in succ
      invariant moves + AnchorMoves(p, succ, bp, bd, nbp, nbd, fuel, asWritten) == AnchorMoves(p, succ, bp, bd, nbp, nbp, |succ|, asWritten)
    {
      var move := Move(succ, bp, bd, nbp, nbd);
      AnchorMovesStep(p, succ, bp, bd, nbp, nbd, fuel, asWritten, moves, AnchorMoves(p, succ, bp, bd, nbp, nbp, |succ|, asWritten));
      moves := moves + [move];
      if succ[nbd] == End {
        return;
      }
      nbd := succ[nbd];
      fuel := fuel - 1;
    }
    assert AnchorMoves(p, succ, bp, bd, nbp, nbd, fuel, asWritten) == [];
    Collections.ConcatNil(moves);
  }

  /** The outer loop of `neighbors`: up to size anchors taken from the end of the shuffled labels. */
  method AnchorNeighbors(p: Problem, succ: Successors, bp: Node, bd: Node, size: int, asWritten: bool)
      returns (neighbors: seq<Successors>, ghost anchors: seq<Node>)
    requires Closed(p, succ) && bp in succ && bd in succ && succ[bp] in succ && succ[bd] in succ
    ensures (forall a :: a in anchors ==> a in succ) && Collections.Distinct(anchors)
    ensures |anchors| == if size <= 0 then 0 else if size < |succ| then size else |succ|
    ensures neighbors == Candidates(p, succ, bp, bd, anchors, asWritten)
  {
    anchors := [];
    neighbors := [];
    var keys := Collections.ListOf(succ.Keys);
    var available := Collections.Shuffle(keys);
    assert |succ.Keys| == |succ|;
    var i := 0;
    while i < size
      invariant |available| + |anchors| == |succ| && |anchors| == i
      invariant i == 0 || i <= size
      invariant (forall a :: a in anchors ==> a in succ) && (forall a :: a in available ==> a in succ)
      invariant Collections.Distinct(anchors) && Collections.Distinct(available)
      invariant forall a :: a in anchors ==> a !in available
      invariant neighbors == Candidates(p, succ, bp, bd, anchors, asWritten)
    {
      if |available| == 0 {
        return;
      }
      var nbp := available[|available| - 1];
      var moves := MovesFromAnchor(p, succ, bp, bd, nbp, asWritten);
      Collections.TakeLast(anchors, available);
      CandidatesSnoc(p, succ, bp, bd, anchors, nbp, asWritten);
      neighbors := neighbors + moves;
      anchors := anchors + [nbp];
      available := available[..|available| - 1];
      i := i + 1;
    }
  }

  // ---------------------------------------------------------------------------
  // chooseNext
  // ---------------------------------------------------------------------------

  /**
   * The scan of one batch in `chooseNext`: infinite costs are skipped and a
   * finite cost at most the best so far replaces it, so on ties the later
   * candidate wins.  None when every candidate is infeasible.
   */
  method BestOf(p: Problem, candidates: seq<Successors>) returns (r: Option<Successors>, ghost index: nat)
    requires forall n :: n in candidates ==> WellFormed(p, n)
    ensures r.None? <==> forall j :: 0 <= j < |candidates| ==> CostOf(p, candidates[j], Ids(p)).Inf?
    ensures r.Some? ==> index < |candidates| && candidates[index] == r.value && CostOf(p, r.value, Ids(p)).Fin?
    ensures r.Some? ==> forall n :: n in candidates ==> AtMost(CostOf(p, r.value, Ids(p)), CostOf(p, n, Ids(p)))
    ensures r.Some? ==> forall j :: index < j < |candidates| ==> Below(CostOf(p, r.value, Ids(p)), CostOf(p, candidates[j], Ids(p)))
  {
    r := None;
    index := 0;
    var bestCost := Inf;
    var k := 0;
    while k < |candidates|
      invariant 0 <= k <= |candidates|
      invariant r.None? <==> forall j :: 0 <= j < k ==> CostOf(p, candidates[j], Ids(p)).Inf?
      invariant r.None? ==> bestCost == Inf
      invariant r.Some? ==> index < k && candidates[index] == r.value && bestCost == CostOf(p, r.value, Ids(p)) && bestCost.Fin?
      invariant r.Some? ==> forall j :: 0 <= j < k ==> AtMost(bestCost, CostOf(p, candidates[j], Ids(p)))
      invariant r.Some? ==> forall j :: index < j < k ==> Below(bestCost, CostOf(p, candidates[j], Ids(p)))
    {
      var c := Evaluate(p, candidates[k], Ids(p));
      if c.Fin? && AtMost(c, bestCost) {
        r := Some(candidates[k]);
        bestCost := c;
        index := k;
      }
      k := k + 1;
    }
    if r.Some? {
      forall n | n in candidates
        ensures AtMost(bestCost, CostOf(p, n, Ids(p)))
      {
        var j :| 0 <= j < |candidates| && candidates[j] == n;
      }
    }
  }

  /** What `chooseNext` drew for one batch: the relocated task's pickup and delivery predecessors, and the anchors. */
  datatype Draw = Draw(bp: Node, bd: Node, anchors: seq<Node>)

  /**
   * `chooseNext`: batches of neighbours are drawn until one holds a finite
   * candidate, and a cheapest finite candidate of that batch is returned.
   * The source retries without bound; here at most `tries` batches are
   * drawn, and None stands for running out of them, or for an assignment
   * without any task, on which the source never finds a pickup to move.
   */
  method ChooseNext(p: Problem, succ: Successors, size: int, tries: nat, asWritten: bool)
      returns (r: Option<Successors>, ghost batch: seq<Successors>, ghost bp: Node, ghost bd: Node, ghost anchors: seq<Node>)
    requires WellFormed(p, succ)
    ensures r.Some? ==> Relocates(succ, bp, bd) && (forall a :: a in anchors ==> a in succ)
    ensures r.Some? ==> batch == Candidates(p, succ, bp, bd, anchors, asWritten)
    ensures r.Some? ==> r.value in batch && WellFormed(p, r.value) && CostOf(p, r.value, Ids(p)).Fin?
    ensures r.Some? ==> Drawn(p, succ, Draw(bp, bd, anchors), r.value, asWritten)
    ensures r.Some? ==> forall n :: n in batch ==> WellFormed(p, n) && AtMost(CostOf(p, r.value, Ids(p)), CostOf(p, n, Ids(p)))
  {
    batch, bp, bd, anchors := [], End, End, [];
    var attempt := 0;
    while attempt < tries
    {
      var neighbors;
      neighbors, bp, bd, anchors := Neighbors(p, succ, size, asWritten);
      if neighbors.None? {
        return None, batch, bp, bd, anchors;
      }
      var current := neighbors.value;
      batch := current;
      CandidatesWellFormed(p, succ, bp, bd, anchors, asWritten);
      ghost var index;
      r, index := BestOf(p, current);
      if r.Some? {
        return r, batch, bp, bd, anchors;
      }
      attempt := attempt + 1;
    }
    return None, batch, bp, bd, anchors;
  }

  // ---------------------------------------------------------------------------
  // solve
  // ---------------------------------------------------------------------------

  /** n is a neighbour `neighbors` lists for succ under the draw d. */
  ghost predicate Drawn(p: Problem, succ: Successors, d: Draw, n: Successors, asWritten: bool) {
    Closed(p, succ) && Relocates(succ, d.bp, d.bd) && (forall a :: a in d.anchors ==> a in succ)
    && n in Candidates(p, succ, d.bp, d.bd, d.anchors, asWritten)
  }

  /**
   * The acceptance rule of `solve`: from start, with the neighbour next, the
   * walk stands at next or stays at start, and it takes next whenever next
   * is no dearer than start.
   */
  ghost predicate Moved(p: Problem, start: Successors, next: Successors, stood: Successors)
  {
    && WellFormed(p, start) && WellFormed(p, next)
    && (stood == next || stood == start)
    && (AtMost(CostOf(p, next, Ids(p)), CostOf(p, start, Ids(p))) ==> stood == next)
  }

  /**
   * Step i of the walk of `solve`, which now stands at current: at a step
   * already taken `chooseNext` was asked for a neighbour of starts[i] and
   * returned chosen[i], one of the neighbours of draws[i]; the walk then
   * stood at visited[i + 1], as Moved says.  Every step starts where the walk stood, or from one of the initial
   * assignments (the first, and those drawn at restarts); so does the next
   * one, from current.
   */
  ghost predicate Step(p: Problem, asWritten: bool, visited: seq<Successors>, starts: seq<Successors>, chosen: seq<Successors>,
                       draws: seq<Draw>, initials: seq<Successors>, current: Successors, i: nat)
    requires |visited| == |starts| + 1 && |chosen| == |starts| && |draws| == |starts| && i <= |starts| && initials != []
  {
    if i < |starts| then
      && Drawn(p, starts[i], draws[i], chosen[i], asWritten)
      && Moved(p, starts[i], chosen[i], visited[i + 1])
      && (starts[i] == visited[i] || starts[i] in initials)
    else
      current == visited[i] || current == initials[|initials| - 1]
  }

  /** The walk of `solve`: it began at the first initial assignment, every step is a Step, and it stands at current. */
  ghost predicate Walk(p: Problem, asWritten: bool, visited: seq<Successors>, starts: seq<Successors>, chosen: seq<Successors>,
                       draws: seq<Draw>, initials: seq<Successors>, current: Successors)
  {
    && |visited| == |starts| + 1 && |chosen| == |starts| && |draws| == |starts| && initials != [] && initials[0] == visited[0]
    && forall i {:trigger Step(p, asWritten, visited, starts, chosen, draws, initials, current, i)} :: 0 <= i <= |starts| ==>
         Step(p, asWritten, visited, starts, chosen, draws, initials, current, i)
  }

  lemma WalkStep(p: Problem, asWritten: bool, visited: seq<Successors>, starts: seq<Successors>, chosen: seq<Successors>,
                 draws: seq<Draw>, initials: seq<Successors>, start: Successors, d: Draw, next: Successors, current: Successors)
    requires Walk(p, asWritten, visited, starts, chosen, draws, initials, start)
    requires Drawn(p, start, d, next, asWritten) && Moved(p, start, next, current)
    ensures Walk(p, asWritten, visited + [current], starts + [start], chosen + [next], draws + [d], initials, current)
  {
    var visited', starts', chosen', draws' := visited + [current], starts + [start], chosen + [next], draws + [d];
    assert Step(p, asWritten, visited, starts, chosen, draws, initials, start, |starts|);
    forall i | 0 <= i <= |starts'| ensures Step(p, asWritten, visited', starts', chosen', draws', initials, current, i) {
      if i < |starts| {
        StepKept(p, asWritten, visited, starts, chosen, draws, initials, start, start, d, next, current, i);
      } else if i == |starts| {
        assert starts'[i] == start && chosen'[i] == next && draws'[i] == d && visited'[i + 1] == current;
        assert start == visited'[i] || start in initials;
      } else {
        assert visited'[i] == current;
      }
    }
  }

  /** A step already taken stays a step when the walk moves on. */
  lemma StepKept(p: Problem, asWritten: bool, visited: seq<Successors>, starts: seq<Successors>, chosen: seq<Successors>,
                 draws: seq<Draw>, initials: seq<Successors>, now: Successors, start: Successors, d: Draw, next: Successors,
                 current: Successors, i: nat)
    requires |visited| == |starts| + 1 && |chosen| == |starts| && |draws| == |starts| && i < |starts| && initials != []
    requires Step(p, asWritten, visited, starts, chosen, draws, initials, now, i)
    ensures Step(p, asWritten, visited + [current], starts + [start], chosen + [next], draws + [d], initials, current, i)
  {
    var visited', starts', chosen', draws' := visited + [current], starts + [start], chosen + [next], draws + [d];
    assert visited'[i] == visited[i] && visited'[i + 1] == visited[i + 1];
    assert starts'[i] == starts[i] && chosen'[i] == chosen[i] && draws'[i] == draws[i];
  }

  /** Restarting from a fresh initial assignment, which the construction built, keeps the walk and the list of initial assignments. */
  lemma WalkRestart(p: Problem, asWritten: bool, visited: seq<Successors>, starts: seq<Successors>,
                    chosen: seq<Successors>, draws: seq<Draw>, initials: seq<Successors>, current: Successors,
                    restart: Successors, chains: seq<seq<Node>>)
    requires Walk(p, asWritten, visited, starts, chosen, draws, initials, current) && Construction.Initials(p, initials)
    requires WellFormed(p, restart) && Encodes(p, restart, chains) && Construction.Paired(p, chains)
    ensures Walk(p, asWritten, visited, starts, chosen, draws, initials + [restart], restart)
    ensures Construction.Initials(p, initials + [restart])
  {
    Construction.InitialsSnoc(p, initials, restart, chains);
    var initials' := initials + [restart];
    forall i | 0 <= i <= |starts| ensures Step(p, asWritten, visited, starts, chosen, draws, initials', restart, i) {
      if i < |starts| {
        assert Step(p, asWritten, visited, starts, chosen, draws, initials, current, i);
        if starts[i] in initials {
          var k :| 0 <= k < |initials| && initials[k] == starts[i];
          assert initials'[k] == starts[i];
        }
      } else {
        assert initials'[|initials'| - 1] == restart;
      }
    }
  }

  /**
   * `solve`: hill climbing from a random initial assignment.  A neighbour no
   * more expensive than the current assignment is always taken, a more
   * expensive one when a uniform draw falls below pWorse.  The reset counter
   * restarts from a fresh initial assignment once it exceeds nReset, and the
   * cheapest assignment seen at the global-best comparison is returned.
   * `visited` lists the assignments compared with the global best and
   * `bests` the successive global-best costs.  The time budget is the
   * iteration count; None stands for no initial assignment (a task no
   * vehicle can carry) or a `chooseNext` that found nothing.
   */
  method Solve(p: Problem, pWorse: real, size: int, nReset: int, iterations: nat, tries: nat, asWritten: bool)
      returns (r: Option<Successors>, ghost visited: seq<Successors>, ghost starts: seq<Successors>, ghost chosen: seq<Successors>,
               ghost bests: seq<Cost>, ghost draws: seq<Draw>, ghost initials: seq<Successors>, ghost current: Successors)
    requires DistinctTasks(p) && DistinctVehicles(p)
    ensures (exists i :: 0 <= i < |p.tasks| && !Construction.HasCapable(p, i)) ==> r.None?
    ensures r.Some? ==> WellFormed(p, r.value) && Tracked(p, Ids(p), r.value, CostOf(p, r.value, Ids(p)), visited, bests)
    ensures r.Some? ==> Walk(p, asWritten, visited, starts, chosen, draws, initials, current)
    ensures r.Some? ==> Construction.Initials(p, initials)
    ensures r.Some? ==> WellFormed(p, visited[0]) && AtMost(CostOf(p, r.value, Ids(p)), CostOf(p, visited[0], Ids(p)))
    ensures r.Some? && DistinctIds(p) ==> CostOf(p, r.value, Ids(p)).Fin?
  {
    visited, starts, chosen, bests, draws, initials, current := [], [], [], [], [], [], map[];
    var first;
    ghost var chains;
    first, chains := Construction.InitialAssignment(p);
    if first.None? {
      return None, visited, starts, chosen, bests, draws, initials, current;
    }
    var assignment := first.value;
    var cost := Evaluate(p, assignment, Ids(p));
    var globalBest, globalBestCost, currentBestCost := assignment, cost, cost;
    var resetCounter := 0;
    Construction.InitialsSnoc(p, [], assignment, chains);
    visited, bests, initials := [assignment], [cost], [] + [assignment];
    assert Tracked(p, Ids(p), globalBest, globalBestCost, visited, bests);
    var step := 0;
    while step < iterations
      invariant WellFormed(p, assignment) && cost == CostOf(p, assignment, Ids(p))
      invariant Tracked(p, Ids(p), globalBest, globalBestCost, visited, bests)
      invariant Walk(p, asWritten, visited, starts, chosen, draws, initials, assignment)
      invariant Construction.Initials(p, initials)
      invariant forall i :: 0 <= i < |p.tasks| ==> Construction.HasCapable(p, i)
      invariant 0 <= resetCounter && (resetCounter <= nReset || resetCounter == 0)
    {
      var next;
      ghost var batch, bp, bd, anchors;
      next, batch, bp, bd, anchors := ChooseNext(p, assignment, size, tries, asWritten);
      if next.None? {
        return None, visited, starts, chosen, bests, draws, initials, current;
      }
      ghost var start, d := assignment, Draw(bp, bd, anchors);
      var nextCost := Evaluate(p, next.value, Ids(p));
      var accept := AtMost(nextCost, cost);
      if !accept {
        var draw: real :| 0.0 <= draw < 1.0;
        accept := draw < pWorse;
      }
      if accept {
        assignment, cost := next.value, nextCost;
      }
      if Below(cost, currentBestCost) {
        currentBestCost, resetCounter := cost, 0;
      } else {
        resetCounter := resetCounter + 1;
      }
      ghost var best0, bestCost0 := globalBest, globalBestCost;
      if Below(cost, globalBestCost) {
        globalBest, globalBestCost := assignment, cost;
      }
      TrackedStep(p, Ids(p), best0, bestCost0, visited, bests, assignment, globalBest, globalBestCost);
      WalkStep(p, asWritten, visited, starts, chosen, draws, initials, start, d, next.value, assignment);
      visited, starts, chosen, draws := visited + [assignment], starts + [start], chosen + [next.value], draws + [d];
      bests := bests + [globalBestCost];
      if resetCounter > nReset {
        var restart;
        restart, chains := Construction.InitialAssignment(p);
        WalkRestart(p, asWritten, visited, starts, chosen, draws, initials, assignment, restart.value, chains);
        assignment := restart.value;
        initials := initials + [assignment];
        cost := Evaluate(p, assignment, Ids(p));
        currentBestCost, resetCounter := cost, 0;
      }
      step := step + 1;
    }
    assert visited[0] in visited && NoCheaper(p, Ids(p), globalBestCost, visited[0]);
    if DistinctIds(p) {
      Construction.BestFeasible(p, Ids(p), globalBest, globalBestCost, visited, bests, initials);
    }
    return Some(globalBest), visited, starts, chosen, bests, draws, initials, assignment;
  }
}
