/**
 * The Java collection idioms the solvers rely on: taking an element out of a
 * non-empty set, copying a key set into a list (`addAll`), and
 * `Collections.shuffle`.  The order a Java collection yields and the draws of
 * the random generator are nondeterministic choices here.
 */
module Collections {

  /** A non-empty set has an element. */
  lemma HasElement<T>(s: set<T>)
    requires s != {}
    ensures exists x :: x in s
  {
    if forall x :: x !in s {
      assert false;
    }
  }

  /** The same for sets of integers, whose elements the verifier boxes differently. */
  lemma HasInt(s: set<int>)
    requires s != {}
    ensures exists x :: x in s
  {
    if forall x :: x !in s {
      assert false;
    }
  }

  /** `new ArrayList<>(set)`: the elements of a set, each exactly once, in some order. */
  method ListOf<T>(s: set<T>) returns (r: seq<T>)
    ensures |r| == |s|
    ensures forall x :: x in r <==> x in s
    ensures Distinct(r)
  {
    r := [];
    var remaining := s;
    while remaining != {}
      invariant remaining <= s
      invariant forall x :: x in r <==> x in s && x !in remaining
      invariant |r| + |remaining| == |s|
      invariant Distinct(r)
      decreases |remaining|
    {
      HasElement(remaining);
      var x :| x in remaining;
      forall i, j | 0 <= i < j < |r| + 1 ensures Entry(r + [x], i) != Entry(r + [x], j) {
        if j < |r| {
          assert Entry(r, i) != Entry(r, j);
        } else {
          assert (r + [x])[i] in r;
        }
      }
      r := r + [x];
      remaining := remaining - {x};
    }
  }

  /** Position i of s, named so that pairwise statements only fire where positions are mentioned. */
  function Entry<T>(s: seq<T>, i: nat): T
    requires i < |s|
  {
    s[i]
  }

  /** No element occurs at two positions. */
  predicate Distinct<T(==)>(s: seq<T>) {
    forall i, j {:trigger Entry(s, i), Entry(s, j)} :: 0 <= i < j < |s| ==> Entry(s, i) != Entry(s, j)
  }

  /** In a list without repetitions, two entries are equal exactly when they sit at the same position. */
  lemma SamePosition<T>(order: seq<T>, k: nat, l: nat)
    requires Distinct(order) && k < |order| && l < |order|
    ensures order[k] == order[l] <==> k == l
  {
    if k < l {
      assert Entry(order, k) != Entry(order, l);
    } else if l < k {
      assert Entry(order, l) != Entry(order, k);
    }
  }

  /** Regrouping a concatenation around one element (stated generically, where it is cheap to prove). */
  lemma ConcatRegroup<T>(xs: seq<T>, x: T, ys: seq<T>)
    ensures (xs + [x]) + ys == xs + ([x] + ys)
  {
  }

  /** Concatenation is associative. */
  lemma ConcatAssoc<T>(xs: seq<T>, ys: seq<T>, zs: seq<T>)
    ensures (xs + ys) + zs == xs + (ys + zs)
  {
  }

  /** The empty sequence is a left unit of concatenation. */
  lemma ConcatEmpty<T>(ys: seq<T>)
    ensures [] + ys == ys
  {
  }

  /** The empty sequence is a right unit of concatenation. */
  lemma ConcatNil<T>(xs: seq<T>)
    ensures xs + [] == xs
  {
  }

  /** What lies in a concatenation and not in its left part lies in its right part. */
  lemma InConcatRight<T>(xs: seq<T>, ys: seq<T>, a: T)
    requires a in xs + ys && a !in xs
    ensures a in ys
  {
  }

  /** Moving the last element of `ys` onto the end of `xs` keeps both free of repetitions and apart. */
  lemma TakeLast<T>(xs: seq<T>, ys: seq<T>)
    requires ys != [] && Distinct(xs) && Distinct(ys)
    requires forall a :: a in xs ==> a !in ys
    ensures Distinct(xs + [ys[|ys| - 1]]) && Distinct(ys[..|ys| - 1])
    ensures ys[|ys| - 1] !in ys[..|ys| - 1]
    ensures forall a :: a in xs ==> a !in ys[..|ys| - 1]
  {
    var last := ys[|ys| - 1];
    assert last !in xs;
    var xs' := xs + [last];
    forall i, j | 0 <= i < j < |xs'| ensures Entry(xs', i) != Entry(xs', j) {
      if j == |xs| {
        assert xs'[i] in xs;
      } else {
        assert Entry(xs, i) != Entry(xs, j);
      }
    }
    var rest := ys[..|ys| - 1];
    forall i, j | 0 <= i < j < |rest| ensures Entry(rest, i) != Entry(rest, j) {
      assert Entry(ys, i) != Entry(ys, j);
    }
    forall i | 0 <= i < |rest| ensures rest[i] != last {
      assert Entry(ys, i) != Entry(ys, |ys| - 1);
    }
  }

  /** Swapping two positions keeps a sequence free of repetitions. */
  lemma SwapDistinct<T>(s: seq<T>, a: nat, b: nat)
    requires a < |s| && b < |s|
    ensures Distinct(s) ==> Distinct(s[a := s[b]][b := s[a]])
  {
    var r := s[a := s[b]][b := s[a]];
    if Distinct(s) {
      forall i, j | 0 <= i < j < |r|
        ensures Entry(r, i) != Entry(r, j)
      {
        var i' := if i == a then b else if i == b then a else i;
        var j' := if j == a then b else if j == b then a else j;
        assert r[i] == s[i'] && r[j] == s[j'] && i' != j';
        if i' > j' {
          assert Entry(s, j') != Entry(s, i');
        } else {
          assert Entry(s, i') != Entry(s, j');
        }
      }
    }
  }

  /**
   * `Collections.shuffle`: for i from the last position down to 1, position
   * i is swapped with a drawn position at most i.
   */
  method Shuffle<T(==)>(s: seq<T>) returns (r: seq<T>)
    ensures multiset(r) == multiset(s) && |r| == |s|
    ensures forall x :: x in r <==> x in s
    ensures Distinct(s) ==> Distinct(r)
  {
    r := s;
    var i := |s|;
    while i > 1
      invariant multiset(r) == multiset(s) && |r| == |s| && i <= |s|
      invariant Distinct(s) ==> Distinct(r)
    {
      var j :| 0 <= j < i;
      SwapDistinct(r, i - 1, j);
      r := r[i - 1 := r[j]][j := r[i - 1]];
      i := i - 1;
    }
    forall x
      ensures x in r <==> x in s
    {
      assert x in r <==> x in multiset(r);
      assert x in s <==> x in multiset(s);
    }
  }
}
