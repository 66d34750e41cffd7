/**
 * The disjoint-set forest behind both minimum-spanning-tree computations
 * (`DisjointSet` in deliberative/src/deliberative/Graph.java and
 * deliberative/src/template/Graph.java, and the parent map the template's
 * `mstWeight` keeps itself).  A forest is a parent map; an element without
 * a parent is a root.  The ghost rank, which grows from child to parent and
 * is bounded by a height, is what makes walking to the root terminate; it
 * is not part of the source.
 */
module Forest {

  ghost function Rank<E>(rank: map<E, nat>, x: E): nat {
    if x in rank then rank[x] else 0
  }

  /** Every parent outranks its child, and no rank exceeds the height. */
  ghost predicate Ranked<E>(parents: map<E, E>, rank: map<E, nat>, height: nat) {
    (forall x :: x in parents ==> Rank(rank, x) < Rank(rank, parents[x]))
    && (forall x :: x in rank ==> rank[x] <= height)
  }

  /** The root of x: its parents followed until an element without one. */
  ghost function Find<E>(parents: map<E, E>, rank: map<E, nat>, height: nat, x: E): E
    requires Ranked(parents, rank, height)
    decreases height - Rank(rank, x)
  {
    if x in parents then Find(parents, rank, height, parents[x]) else x
  }

  /** The number of parent links from x to its root. */
  ghost function Depth<E>(parents: map<E, E>, rank: map<E, nat>, height: nat, x: E): nat
    requires Ranked(parents, rank, height)
    decreases height - Rank(rank, x)
  {
    if x in parents then 1 + Depth(parents, rank, height, parents[x]) else 0
  }

  /** A root has no parent, and the root of an element of a closed set of elements is in the set. */
  lemma {:induction false} FindIsRoot<E>(parents: map<E, E>, rank: map<E, nat>, height: nat, x: E, nodes: set<E>)
    requires Ranked(parents, rank, height)
    ensures Find(parents, rank, height, x) !in parents
    ensures x in nodes && (forall y :: y in parents ==> parents[y] in nodes) ==> Find(parents, rank, height, x) in nodes
    decreases height - Rank(rank, x)
  {
    if x in parents {
      FindIsRoot(parents, rank, height, parents[x], nodes);
    }
  }

  /** `root` of the template's `mstWeight`: follow the parents from child until there is none. */
  method Root<E>(parents: map<E, E>, ghost rank: map<E, nat>, ghost height: nat, child: E) returns (node: E)
    requires Ranked(parents, rank, height)
    ensures node == Find(parents, rank, height, child) && node !in parents
  {
    node := child;
    while node in parents
      invariant Find(parents, rank, height, node) == Find(parents, rank, height, child)
      decreases height - Rank(rank, node)
    {
      node := parents[node];
    }
  }

  /** `rootAndDepth` on a parent map: follow the parents from elem, counting the links. */
  method RootAndDepthIn<E>(parents: map<E, E>, ghost rank: map<E, nat>, ghost height: nat, elem: E) returns (root: E, depth: nat)
    requires Ranked(parents, rank, height)
    ensures root == Find(parents, rank, height, elem) && root !in parents
    ensures depth == Depth(parents, rank, height, elem)
  {
    root, depth := elem, 0;
    while root in parents
      invariant Find(parents, rank, height, root) == Find(parents, rank, height, elem)
      invariant depth + Depth(parents, rank, height, root) == Depth(parents, rank, height, elem)
      decreases height - Rank(rank, root)
    {
      root := parents[root];
      depth := depth + 1;
    }
  }

  /** The ranks after hanging root rhs under root lhs: lhs is raised above rhs if need be. */
  ghost function LinkRank<E>(rank: map<E, nat>, rhs: E, lhs: E): map<E, nat> {
    rank[lhs := if Rank(rank, lhs) > Rank(rank, rhs) then Rank(rank, lhs) else Rank(rank, rhs) + 1]
  }

  ghost function LinkHeight<E>(rank: map<E, nat>, height: nat, rhs: E): nat {
    if height > Rank(rank, rhs) then height else Rank(rank, rhs) + 1
  }

  /**
   * Hanging a root under another root keeps the forest ranked, and moves
   * exactly the elements whose root was rhs under lhs.
   */
  lemma {:induction false} LinkFind<E>(parents: map<E, E>, rank: map<E, nat>, height: nat, rhs: E, lhs: E, x: E)
    requires Ranked(parents, rank, height) && rhs !in parents && lhs !in parents && rhs != lhs
    ensures Ranked(parents[rhs := lhs], LinkRank(rank, rhs, lhs), LinkHeight(rank, height, rhs))
    ensures var root := Find(parents, rank, height, x);
      Find(parents[rhs := lhs], LinkRank(rank, rhs, lhs), LinkHeight(rank, height, rhs), x)
        == if root == rhs then lhs else root
    decreases height - Rank(rank, x)
  {
    var parents', rank', height' := parents[rhs := lhs], LinkRank(rank, rhs, lhs), LinkHeight(rank, height, rhs);
    assert Ranked(parents', rank', height') by {
      forall y | y in parents'
        ensures Rank(rank', y) < Rank(rank', parents'[y])
      {
        if y != rhs {
          assert y != lhs;
        }
      }
    }
    if x in parents {
      LinkFind(parents, rank, height, rhs, lhs, parents[x]);
    } else if x == rhs {
      assert Find(parents', rank', height', lhs) == lhs;
    }
  }

  /** `DisjointSet`: a parent map updated in place. */
  class DisjointSet<E(==, !new)> {
    var parents: map<E, E>
    ghost var rank: map<E, nat>
    ghost var height: nat

    ghost predicate Valid()
      reads this
    {
      Ranked(parents, rank, height)
    }

    /** The root of elem in the current forest. */
    ghost function RootOf(elem: E): E
      reads this
      requires Valid()
    {
      Find(parents, rank, height, elem)
    }

    constructor()
      ensures Valid() && parents == map[] && rank == map[] && height == 0
    {
      parents, rank, height := map[], map[], 0;
    }

    /** `rootAndDepth` on the set's own parent map. */
    method RootAndDepth(elem: E) returns (root: E, depth: nat)
      requires Valid()
      ensures root == RootOf(elem) && root !in parents && depth == Depth(parents, rank, height, elem)
    {
      root, depth := RootAndDepthIn(parents, rank, height, elem);
    }

    /** `root`: the first half of `rootAndDepth`. */
    method Root(elem: E) returns (root: E)
      requires Valid()
      ensures root == RootOf(elem) && root !in parents
    {
      var depth;
      root, depth := RootAndDepth(elem);
    }

    /** `depth`: the second half of `rootAndDepth`. */
    method ElementDepth(elem: E) returns (depth: nat)
      requires Valid()
      ensures depth == Depth(parents, rank, height, elem)
    {
      var root;
      root, depth := RootAndDepth(elem);
    }

    /** `connected`: two elements are connected when they have the same root. */
    method Connected(lhs: E, rhs: E) returns (b: bool)
      requires Valid()
      ensures b <==> RootOf(lhs) == RootOf(rhs)
    {
      var a := Root(lhs);
      var c := Root(rhs);
      b := a == c;
    }

    /**
     * `connect`: rhs gets lhs as its parent and nothing else changes.  The
     * source's only caller passes two distinct roots, which keeps the forest
     * a forest; afterwards every element whose root was rhs has root lhs.
     */
    method Connect(rhs: E, lhs: E)
      requires Valid() && rhs !in parents && lhs !in parents && rhs != lhs
      modifies this
      ensures Valid() && parents == old(parents)[rhs := lhs]
      ensures rank == LinkRank(old(rank), rhs, lhs) && height == LinkHeight(old(rank), old(height), rhs)
      ensures forall x :: RootOf(x) == if old(RootOf(x)) == rhs then lhs else old(RootOf(x))
    {
      forall x
        ensures var root := Find(parents, rank, height, x);
          Find(parents[rhs := lhs], LinkRank(rank, rhs, lhs), LinkHeight(rank, height, rhs), x)
            == if root == rhs then lhs else root
      {
        LinkFind(parents, rank, height, rhs, lhs, x);
      }
      LinkFind(parents, rank, height, rhs, lhs, rhs);
      parents, rank, height := parents[rhs := lhs], LinkRank(rank, rhs, lhs), LinkHeight(rank, height, rhs);
    }
  }
}
