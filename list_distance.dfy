/**
 * The list comparisons of 2024/01_2024: two columns of location ids,
 * compared by the total distance between their sorted entries and by a
 * similarity score that weights each left-hand id by how often it occurs
 * on the right.
 */
module ListDistance {

  // ------------------------------------------------------------------
  // Sorting, as `list.sort` does it for integers

  predicate Sorted(s: seq<int>)
  {
    forall i, j | 0 <= i < j < |s| :: s[i] <= s[j]
  }

  /** Inserts `x` into the sorted sequence `s`. */
  function Insert(x: int, s: seq<int>): (r: seq<int>)
    requires Sorted(s)
    ensures |r| == |s| + 1 && Sorted(r) && multiset(r) == multiset(s) + multiset{x}
    ensures forall i | 0 <= i < |r| :: r[i] == x || r[i] in s
  {
    if s == [] || x <= s[0] then
      [x] + s
    else
      assert s == [s[0]] + s[1..];
      var t := Insert(x, s[1..]);
      assert forall i | 0 <= i < |t| :: s[0] <= t[i];
      [s[0]] + t
  }

  /** The sorted permutation of `s`. */
  function Sort(s: seq<int>): (r: seq<int>)
    ensures |r| == |s| && Sorted(r) && multiset(r) == multiset(s)
  {
    if s == [] then []
    else
      assert s == [s[0]] + s[1..];
      Insert(s[0], Sort(s[1..]))
  }

  /** Two sorted sequences with the same elements are equal. */
  lemma {:induction false} SortedUnique(a: seq<int>, b: seq<int>)
    requires Sorted(a) && Sorted(b) && multiset(a) == multiset(b)
    ensures a == b
  {
    assert |a| == |multiset(a)| == |multiset(b)| == |b|;
    if a != [] {
      assert a[0] == b[0] by {
        assert a[0] in multiset(b) && b[0] in multiset(a) by {
          assert a[0] in multiset(a) && b[0] in multiset(b);
        }
        assert a[0] in b && b[0] in a;
        var i :| 0 <= i < |b| && b[i] == a[0];
        var j :| 0 <= j < |a| && a[j] == b[0];
        assert b[0] <= b[i] && a[0] <= a[j];
      }
      assert a == [a[0]] + a[1..] && b == [b[0]] + b[1..];
      assert multiset(a[1..]) == multiset(b[1..]) by {
        var x := a[0];
        assert multiset(a) == multiset{x} + multiset(a[1..]);
        assert multiset(b) == multiset{x} + multiset(b[1..]);
        forall y ensures multiset(a[1..])[y] == multiset(b[1..])[y] {
          assert multiset(a)[y] == multiset(b)[y];
        }
      }
      SortedUnique(a[1..], b[1..]);
    }
  }

  /** Sorting depends only on the elements, not on their order. */
  lemma SortIgnoresOrder(s: seq<int>, t: seq<int>)
    requires multiset(s) == multiset(t)
    ensures Sort(s) == Sort(t)
  {
    SortedUnique(Sort(s), Sort(t));
  }

  // ------------------------------------------------------------------
  // Sums

  function Abs(x: int): int
  {
    if x < 0 then -x else x
  }

  function Sum(s: seq<int>): int
  {
    if s == [] then 0 else s[0] + Sum(s[1..])
  }

  /** Sum of |a[i] - b[i]| over the indices of `a`. */
  function PairDistance(a: seq<int>, b: seq<int>): (d: int)
    requires |b| >= |a|
    ensures d >= 0
  {
    if a == [] then 0 else Abs(a[0] - b[0]) + PairDistance(a[1..], b[1..])
  }

  /** The total distance of two id lists: their sorted entries paired off by index. */
  function Distance(left: seq<int>, right: seq<int>): (d: int)
    requires |right| >= |left|
    ensures d >= 0
  {
    PairDistance(Sort(left), Sort(right))
  }

  lemma {:induction false} SumOfDistances(a: seq<int>, b: seq<int>, dists: seq<int>)
    requires |b| >= |a| == |dists|
    requires forall i | 0 <= i < |a| :: dists[i] == Abs(a[i] - b[i])
    ensures Sum(dists) == PairDistance(a, b)
  {
    if a != [] {
      SumOfDistances(a[1..], b[1..], dists[1..]);
    }
  }

  /** Reordering either list does not change the total distance. */
  lemma DistanceIgnoresOrder(l1: seq<int>, r1: seq<int>, l2: seq<int>, r2: seq<int>)
    requires |r1| >= |l1|
    requires multiset(l1) == multiset(l2) && multiset(r1) == multiset(r2)
    ensures |r2| >= |l2| && Distance(l1, r1) == Distance(l2, r2)
  {
    assert |l1| == |multiset(l1)| == |multiset(l2)| == |l2|;
    assert |r1| == |multiset(r1)| == |multiset(r2)| == |r2|;
    SortIgnoresOrder(l1, l2);
    SortIgnoresOrder(r1, r2);
  }

  // ------------------------------------------------------------------
  // Similarity

  lemma NonEmpty(ids: set<int>)
    requires |ids| != 0
    ensures exists n :: n in ids
  {
    if forall n :: n !in ids {
      assert false;
    }
  }

  /** Some element of a non-empty id set. */
  ghost function Pick(ids: set<int>): (n: int)
    requires |ids| != 0
    ensures n in ids
  {
    NonEmpty(ids);
    var n :| n in ids;
    n
  }

  /** What id `n` adds to the score: n times its number of occurrences in `right`. */
  function Term(n: int, right: seq<int>): int
  {
    n * multiset(right)[n]
  }

  lemma TermAdd(n: int, right: seq<int>, right': seq<int>, y: int)
    requires multiset(right') == multiset(right) + multiset{y}
    ensures Term(n, right') == Term(n, right) + (if n == y then n else 0)
  {
    var c := multiset(right)[n];
    assert multiset(right')[n] == c + (if n == y then 1 else 0);
    assert n * (c + 1) == n * c + n;
  }

  /** Sum of n * (occurrences of n in `right`) over the ids n of `ids`. */
  ghost function Weighted(ids: set<int>, right: seq<int>): int
  {
    if |ids| == 0 then 0
    else
      var n := Pick(ids);
      Term(n, right) + Weighted(ids - {n}, right)
  }

  /** Weighted may take its ids in any order. */
  lemma WeightedRemove(ids: set<int>, n: int, right: seq<int>)
    requires n in ids
    ensures Weighted(ids, right) == Term(n, right) + Weighted(ids - {n}, right)
    decreases |ids|
  {
    var m := Pick(ids);
    if m != n {
      WeightedRemove(ids - {m}, n, right);
      WeightedRemove(ids - {n}, m, right);
      assert ids - {m} - {n} == ids - {n} - {m};
    }
  }

  /** The distinct ids of a list, as `set(left)` gives them. */
  function Distinct(ids: seq<int>): set<int>
  {
    set n | n in ids
  }

  /** The similarity score: each distinct left id times its count on the right. */
  ghost function Similarity(left: seq<int>, right: seq<int>): int
  {
    Weighted(Distinct(left), right)
  }

  /** The same score, read off the right list: every right entry that also occurs on the left adds itself. */
  function MatchedSum(left: seq<int>, right: seq<int>): int
  {
    if right == [] then 0
    else (if right[0] in left then right[0] else 0) + MatchedSum(left, right[1..])
  }

  /** One more occurrence of `y` on the right adds `y` to the score when `y` is among the ids. */
  lemma {:induction false} WeightedAdd(ids: set<int>, right: seq<int>, right': seq<int>, y: int)
    requires multiset(right') == multiset(right) + multiset{y}
    ensures Weighted(ids, right') == Weighted(ids, right) + (if y in ids then y else 0)
    decreases |ids|
  {
    if |ids| != 0 {
      var n := Pick(ids);
      WeightedRemove(ids, n, right');
      WeightedRemove(ids, n, right);
      WeightedAdd(ids - {n}, right, right', y);
      TermAdd(n, right, right', y);
    }
  }

  /** The two readings of the similarity score agree. */
  lemma {:induction false} SimilarityIsMatchedSum(left: seq<int>, right: seq<int>)
    ensures Similarity(left, right) == MatchedSum(left, right)
  {
    if right == [] {
      ZeroCounts(Distinct(left), right);
    } else {
      assert right == [right[0]] + right[1..];
      SimilarityIsMatchedSum(left, right[1..]);
      WeightedAdd(Distinct(left), right[1..], right, right[0]);
    }
  }

  /** Ids that never occur in the right column contribute nothing to the score. */
  lemma {:induction false} ZeroCounts(ids: set<int>, right: seq<int>)
    requires forall n | n in ids :: n !in right
    ensures Weighted(ids, right) == 0
    decreases |ids|
  {
    if |ids| != 0 {
      var n := Pick(ids);
      assert multiset(right)[n] == 0;
      ZeroCounts(ids - {n}, right);
    }
  }

  /** A left id that repeats adds nothing the second time. */
  lemma RepeatedLeftId(left: seq<int>, right: seq<int>, x: int)
    requires x in left
    ensures Similarity(left + [x], right) == Similarity(left, right)
  {
    assert Distinct(left + [x]) == Distinct(left);
  }

  // ------------------------------------------------------------------
  // The two columns and the two scores

  /** The distance of each pair `a[i]`, `b[i]`, in index order. */
  method PairDistances(a: seq<int>, b: seq<int>) returns (ds: seq<int>)
    requires |b| >= |a|
    ensures |ds| == |a| && forall i | 0 <= i < |a| :: ds[i] == Abs(a[i] - b[i])
    ensures Sum(ds) == PairDistance(a, b)
  {
    ds := [];
    for i := 0 to |a|
      invariant |ds| == i
      invariant forall k | 0 <= k < i :: ds[k] == Abs(a[k] - b[k])
    {
      ds := ds + [Abs(a[i] - b[i])];
    }
    SumOfDistances(a, b, ds);
  }

  /** The parsed input: the left and right columns, and the distances once computed. */
  class Sink {
    var left: seq<int>
    var right: seq<int>
    var dists: seq<int>

    constructor (left: seq<int>, right: seq<int>)
      ensures this.left == left && this.right == right && dists == []
    {
      this.left := left;
      this.right := right;
      dists := [];
    }

    /**
     * Sorts both columns in place, records the distance of each pair
     * and returns their sum.  The right column must be at least as long
     * as the left one, otherwise the pairing indexes past its end.
     */
    method DistFn() returns (ans: int)
      requires |right| >= |left|
      modifies this
      ensures left == Sort(old(left)) && right == Sort(old(right))
      ensures |dists| == |left| && forall i | 0 <= i < |left| :: dists[i] == Abs(left[i] - right[i])
      ensures ans == Sum(dists) == Distance(old(left), old(right))
    {
      var l, r := Sort(left), Sort(right);
      var ds := PairDistances(l, r);
      left, right, dists := l, r, ds;
      ans := Sum(ds);
    }

    /** Adds n * (count of n on the right) for each distinct n on the left. */
    method SimScoreFn() returns (ans: int)
      ensures ans == Similarity(left, right) == MatchedSum(left, right)
    {
      ans := 0;
      var rc := multiset(right);
      var ids := Distinct(left);
      var pending := ids;
      while pending != {}
        invariant pending <= ids
        invariant ans + Weighted(pending, right) == Weighted(ids, right)
        decreases |pending|
      {
        var n :| n in pending;
        WeightedRemove(pending, n, right);
        pending := pending - {n};
        if rc[n] == 0 {
          continue;
        }
        ans := ans + n * rc[n];
        assert n * rc[n] == Term(n, right);
      }
      SimilarityIsMatchedSum(left, right);
    }
  }

  // ------------------------------------------------------------------
  // The source's example

  lemma ExampleSimilarity()
    ensures MatchedSum([15131, 57702, 12503, 73808, 57168, 98765, 98765], [78158, 35057, 57702, 42908, 71761]) == 57702
  {
  }
}
