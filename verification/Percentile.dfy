/**
 The linearly interpolated percentile the evaluator reports, over the reals.
 */
module Percentile {
  import opened Sorting

  predicate AtMost(a: real, b: real) { a <= b }

  // The value at a real position of a list, interpolated between its neighbours.
  function At(s: seq<real>, k: real): real
    requires 0.0 <= k <= (|s| - 1) as real
  {
    var lo, hi := k.Floor, -(-k).Floor;
    Mix(s[lo], s[hi] - s[lo], k - lo as real)
  }

  function Mix(a: real, d: real, t: real): real { a + d * t }

  function Position(n: nat, p: real): (k: real)
    requires n > 0 && 0.0 <= p <= 1.0
    ensures 0.0 <= k <= (n - 1) as real
  {
    ScaledWithin((n - 1) as real, p);
    (n - 1) as real * p
  }

  lemma ScaledWithin(n: real, p: real)
    requires n >= 0.0 && 0.0 <= p <= 1.0
    ensures 0.0 <= n * p <= n
  {
  }

  function Percentile(values: seq<real>, p: real): real
    requires values != [] && 0.0 <= p <= 1.0
  {
    At(Sort(values, AtMost), Position(|values|, p))
  }

  lemma RealOrder()
    ensures TotalPreorder(AtMost) && Antisymmetric(AtMost)
  {
  }

  // Interpolation stays between the two neighbours and grows with the position.
  lemma MixBetween(a: real, d: real, t: real)
    requires 0.0 <= d && 0.0 <= t <= 1.0
    ensures a <= Mix(a, d, t) <= a + d
  {
    ScaledWithin(d, t);
  }

  lemma MixMonotone(a: real, d: real, t: real, u: real)
    requires 0.0 <= d && t <= u
    ensures Mix(a, d, t) <= Mix(a, d, u)
  {
    Scaled(t, u, d);
  }

  lemma AtInside(s: seq<real>, k: real)
    requires 0.0 <= k <= (|s| - 1) as real && Sorted(s, AtMost)
    ensures var lo, hi := k.Floor, -(-k).Floor;
            0 <= lo <= hi <= lo + 1 && hi < |s| && s[lo] <= At(s, k) <= s[hi]
  {
    hide Mix;
    var lo, hi := k.Floor, -(-k).Floor;
    assert lo == hi || AtMost(s[lo], s[hi]);
    MixBetween(s[lo], s[hi] - s[lo], k - lo as real);
  }

  lemma AtBetween(s: seq<real>, k: real)
    requires 0.0 <= k <= (|s| - 1) as real && Sorted(s, AtMost)
    ensures s[k.Floor] <= At(s, k)
    ensures k.Floor + 1 < |s| ==> At(s, k) <= s[k.Floor + 1]
    ensures At(s, k) <= s[|s| - 1] && s[0] <= At(s, k)
  {
    hide At;
    AtInside(s, k);
    var lo, hi := k.Floor, -(-k).Floor;
    assert lo > 0 ==> AtMost(s[0], s[lo]);
    assert hi < |s| - 1 ==> AtMost(s[hi], s[|s| - 1]);
    assert lo + 1 < |s| ==> AtMost(s[lo], s[lo + 1]);
  }

  // A later position has no smaller value.
  lemma AtMonotone(s: seq<real>, j: real, k: real)
    requires 0.0 <= j <= k <= (|s| - 1) as real && Sorted(s, AtMost)
    ensures At(s, j) <= At(s, k)
  {
    AtBetween(s, j);
    AtBetween(s, k);
    if j.Floor == k.Floor {
      SameCell(s, j, k);
    } else {
      assert j.Floor + 1 <= k.Floor;
      assert j.Floor + 1 < k.Floor ==> AtMost(s[j.Floor + 1], s[k.Floor]);
    }
  }

  lemma SameCell(s: seq<real>, j: real, k: real)
    requires 0.0 <= j <= k <= (|s| - 1) as real && Sorted(s, AtMost) && j.Floor == k.Floor
    ensures At(s, j) <= At(s, k)
  {
    hide Mix;
    var lo := j.Floor;
    if j == lo as real {
      assert -(-j).Floor == lo;
      AtInside(s, j);
      AtInside(s, k);
    } else {
      assert -(-j).Floor == lo + 1 && -(-k).Floor == lo + 1;
      assert AtMost(s[lo], s[lo + 1]);
      MixMonotone(s[lo], s[lo + 1] - s[lo], j - lo as real, k - lo as real);
    }
  }

  lemma Scaled(a: real, b: real, d: real)
    requires a <= b && d >= 0.0
    ensures d * a <= d * b
  {
  }

  lemma PositionMonotone(n: nat, p: real, q: real)
    requires n > 0 && 0.0 <= p <= q <= 1.0
    ensures Position(n, p) <= Position(n, q)
  {
    Scaled(p, q, (n - 1) as real);
  }

  // The order of the values does not matter.
  lemma PercentileOrderFree(a: seq<real>, b: seq<real>, p: real)
    requires a != [] && b != [] && multiset(a) == multiset(b) && 0.0 <= p <= 1.0
    ensures Percentile(a, p) == Percentile(b, p)
  {
    hide Sort, At;
    RealOrder();
    assert |a| == |multiset(a)| == |multiset(b)| == |b|;
    SortDependsOnMultiset(a, b, AtMost);
  }

  // Every percentile lies between the 0 and 1 ones, which are the least and greatest value.
  lemma PercentileWithin(values: seq<real>, p: real)
    requires values != [] && 0.0 <= p <= 1.0
    ensures var least, most := Percentile(values, 0.0), Percentile(values, 1.0);
            && least in values && most in values && least <= Percentile(values, p) <= most
            && forall x :: x in values ==> least <= x <= most
  {
    hide Sort, At, Position, Sorted;
    var s := Sort(values, AtMost);
    RealOrder();
    SortSorted(values, AtMost);
    AtBetween(s, Position(|s|, p));
    Ends(s);
    SameMembers(values, s);
    forall x | x in values ensures s[0] <= x <= s[|s| - 1] { Extremes(s, x); }
  }

  lemma Extremes(s: seq<real>, x: real)
    requires Sorted(s, AtMost) && x in s
    ensures s[0] <= x <= s[|s| - 1]
  {
    var j :| 0 <= j < |s| && s[j] == x;
    assert j > 0 ==> AtMost(s[0], s[j]);
    assert j < |s| - 1 ==> AtMost(s[j], s[|s| - 1]);
  }

  lemma Ends(s: seq<real>)
    requires s != []
    ensures At(s, Position(|s|, 0.0)) == s[0] && At(s, Position(|s|, 1.0)) == s[|s| - 1]
  {
    hide Mix;
    var n := (|s| - 1) as real;
    Unscaled(n);
    AtWhole(s, 0);
    AtWhole(s, |s| - 1);
  }

  lemma Unscaled(n: real)
    ensures n * 0.0 == 0.0 && n * 1.0 == n
  {
  }

  // At a whole position there is nothing to interpolate.
  lemma AtWhole(s: seq<real>, i: nat)
    requires i < |s|
    ensures At(s, i as real) == s[i]
  {
    hide Mix;
    var k := i as real;
    assert k.Floor == i && -(-k).Floor == i;
    assert k - k.Floor as real == 0.0;
    MixNothing(s[i]);
  }

  lemma MixNothing(a: real)
    ensures Mix(a, 0.0, 0.0) == a
  {
  }

  // So no interquartile range, nor any other, is negative.
  lemma PercentileMonotone(values: seq<real>, p: real, q: real)
    requires values != [] && 0.0 <= p <= q <= 1.0
    ensures Percentile(values, p) <= Percentile(values, q)
  {
    hide Sort, At, Position;
    RealOrder();
    SortSorted(values, AtMost);
    PositionMonotone(|values|, p, q);
    AtMonotone(Sort(values, AtMost), Position(|values|, p), Position(|values|, q));
  }
}
