/**
 * Coordinates and the real-number sums behind the centroid computations.
 * Great-circle (haversine) distance and the square root are floating-point
 * numerics and are kept abstract: they are passed in as functions, with the
 * properties the pipeline relies on stated as predicates.
 */
module Geo {

  datatype LatLng = LatLng(lat: real, lng: real)

  /** Haversine distance is never negative. */
  ghost predicate NonNegativeDistance(dist: (LatLng, LatLng) -> real)
  {
    forall a, b :: 0.0 <= dist(a, b)
  }

  /** Haversine distance does not depend on the direction of travel. */
  ghost predicate SymmetricDistance(dist: (LatLng, LatLng) -> real)
  {
    forall a, b :: dist(a, b) == dist(b, a)
  }

  /** `Math.sqrt` of a non-negative number is non-negative. */
  ghost predicate NonNegativeSqrt(sqrt: real -> real)
  {
    forall x :: 0.0 <= x ==> 0.0 <= sqrt(x)
  }

  /** Left-to-right sum, as `reduce((sum, x) => sum + x, 0)` computes it. */
  function Sum(xs: seq<real>): real
  {
    if |xs| == 0 then 0.0 else Sum(xs[..|xs| - 1]) + xs[|xs| - 1]
  }

  /** Sum of `xs[k] * ws[k]`, accumulated left to right. */
  function Dot(xs: seq<real>, ws: seq<real>): real
    requires |xs| == |ws|
  {
    if |xs| == 0 then 0.0
    else Dot(xs[..|xs| - 1], ws[..|ws| - 1]) + xs[|xs| - 1] * ws[|ws| - 1]
  }

  lemma {:induction false} SumOfTwo(xs: seq<real>)
    requires |xs| == 2
    ensures Sum(xs) == xs[0] + xs[1]
  {
    assert xs[..1][..0] == [];
    assert Sum(xs[..1]) == xs[0];
  }

  lemma {:induction false} DotOfTwo(xs: seq<real>, ws: seq<real>)
    requires |xs| == |ws| == 2
    ensures Dot(xs, ws) == xs[0] * ws[0] + xs[1] * ws[1]
  {
    assert xs[..1][..0] == [] && ws[..1][..0] == [];
    assert Dot(xs[..1], ws[..1]) == xs[0] * ws[0];
  }

  /** Extending a prefix by one term adds that term to the sum. */
  lemma {:induction false} SumPrefixStep(ws: seq<real>, i: nat)
    requires i < |ws|
    ensures Sum(ws[..i + 1]) == Sum(ws[..i]) + ws[i]
  {
    assert ws[..i + 1][..i] == ws[..i];
  }

  /** Extending a prefix by one term adds that product to the weighted sum. */
  lemma {:induction false} DotPrefixStep(xs: seq<real>, ws: seq<real>, i: nat)
    requires |xs| == |ws| && i < |xs|
    ensures Dot(xs[..i + 1], ws[..i + 1]) == Dot(xs[..i], ws[..i]) + xs[i] * ws[i]
  {
    assert xs[..i + 1][..i] == xs[..i];
    assert ws[..i + 1][..i] == ws[..i];
  }

  ghost predicate AllPositive(ws: seq<real>)
  {
    forall k :: 0 <= k < |ws| ==> 0.0 < ws[k]
  }

  ghost predicate AllNonNegative(xs: seq<real>)
  {
    forall k :: 0 <= k < |xs| ==> 0.0 <= xs[k]
  }

  ghost predicate AllWithin(xs: seq<real>, lo: real, hi: real)
  {
    forall k :: 0 <= k < |xs| ==> lo <= xs[k] <= hi
  }

  lemma {:induction false} SumPositive(ws: seq<real>)
    requires AllPositive(ws) && |ws| > 0
    ensures Sum(ws) > 0.0
  {
    if |ws| > 1 {
      SumPositive(ws[..|ws| - 1]);
    }
  }

  lemma {:induction false} SumNonNegative(xs: seq<real>)
    requires AllNonNegative(xs)
    ensures Sum(xs) >= 0.0
  {
    if |xs| > 0 {
      SumNonNegative(xs[..|xs| - 1]);
    }
  }

  /** A non-negative summand never exceeds the sum. */
  lemma {:induction false} TermAtMostSum(xs: seq<real>, k: nat)
    requires AllNonNegative(xs) && k < |xs|
    ensures xs[k] <= Sum(xs)
  {
    var n := |xs|;
    if k == n - 1 {
      SumNonNegative(xs[..n - 1]);
    } else {
      TermAtMostSum(xs[..n - 1], k);
    }
  }

  /** Multiplying both sides of `a <= b` by a positive number keeps the order. */
  lemma {:induction false} MulPositive(a: real, b: real, w: real)
    requires a <= b && 0.0 < w
    ensures a * w <= b * w
  {
    assert b * w - a * w == (b - a) * w;
  }

  /** Arithmetic step of `DotLowerBound`, kept apart from the recursive definitions. */
  lemma {:induction false} LowerStep(lo: real, sum: real, sumW: real, w: real, dot': real, dot: real, x: real)
    requires sum == sumW + w && dot' == dot + x * w
    requires lo * sumW <= dot && lo <= x && 0.0 < w
    ensures lo * sum <= dot'
  {
    MulPositive(lo, x, w);
    assert lo * (sumW + w) == lo * sumW + lo * w;
  }

  /** Arithmetic step of `DotUpperBound`, kept apart from the recursive definitions. */
  lemma {:induction false} UpperStep(hi: real, sum: real, sumW: real, w: real, dot': real, dot: real, x: real)
    requires sum == sumW + w && dot' == dot + x * w
    requires dot <= hi * sumW && x <= hi && 0.0 < w
    ensures dot' <= hi * sum
  {
    MulPositive(x, hi, w);
    assert hi * (sumW + w) == hi * sumW + hi * w;
  }

  /** `lo * Σw <= Σ x·w` when every weight is positive and every x is at least `lo`. */
  lemma {:induction false} DotLowerBound(xs: seq<real>, ws: seq<real>, lo: real, hi: real)
    requires |xs| == |ws|
    requires AllPositive(ws) && AllWithin(xs, lo, hi)
    ensures lo * Sum(ws) <= Dot(xs, ws)
  {
    var n := |xs|;
    if n > 0 {
      var xs', ws' := xs[..n - 1], ws[..n - 1];
      assert AllPositive(ws') && AllWithin(xs', lo, hi);
      DotLowerBound(xs', ws', lo, hi);
      LowerStep(lo, Sum(ws), Sum(ws'), ws[n - 1], Dot(xs, ws), Dot(xs', ws'), xs[n - 1]);
    }
  }

  /** `Σ x·w <= hi * Σw` when every weight is positive and every x is at most `hi`. */
  lemma {:induction false} DotUpperBound(xs: seq<real>, ws: seq<real>, lo: real, hi: real)
    requires |xs| == |ws|
    requires AllPositive(ws) && AllWithin(xs, lo, hi)
    ensures Dot(xs, ws) <= hi * Sum(ws)
  {
    var n := |xs|;
    if n > 0 {
      var xs', ws' := xs[..n - 1], ws[..n - 1];
      assert AllPositive(ws') && AllWithin(xs', lo, hi);
      DotUpperBound(xs', ws', lo, hi);
      UpperStep(hi, Sum(ws), Sum(ws'), ws[n - 1], Dot(xs, ws), Dot(xs', ws'), xs[n - 1]);
    }
  }

  /** Multiplying both sides of `a < b` by a positive number keeps the strict order. */
  lemma {:induction false} MulPositiveStrict(a: real, b: real, w: real)
    requires a < b && 0.0 < w
    ensures a * w < b * w
  {
    assert b * w - a * w == (b - a) * w;
  }

  /** Dividing `lo * s <= d <= hi * s` by a positive `s`. */
  lemma {:induction false} DivBounds(d: real, s: real, lo: real, hi: real)
    requires 0.0 < s && lo * s <= d <= hi * s
    ensures lo <= d / s <= hi
  {
    var q := d / s;
    assert q * s == d;
    if q < lo {
      MulPositiveStrict(q, lo, s);
    } else if hi < q {
      MulPositiveStrict(hi, q, s);
    }
  }

  /** `lo * Σw <= Σ x·w <= hi * Σw` for positive weights and values in [lo, hi]. */
  lemma {:induction false} DotBetween(xs: seq<real>, ws: seq<real>, lo: real, hi: real)
    requires |xs| == |ws| > 0
    requires AllPositive(ws) && AllWithin(xs, lo, hi)
    ensures 0.0 < Sum(ws)
    ensures lo * Sum(ws) <= Dot(xs, ws) <= hi * Sum(ws)
  {
    SumPositive(ws);
    DotLowerBound(xs, ws, lo, hi);
    DotUpperBound(xs, ws, lo, hi);
  }

  /** A positive-weighted mean lies between any lower and upper bound of its values. */
  lemma {:induction false} WeightedMeanWithin(xs: seq<real>, ws: seq<real>, lo: real, hi: real)
    requires |xs| == |ws| > 0
    requires AllPositive(ws) && AllWithin(xs, lo, hi)
    ensures Sum(ws) > 0.0
    ensures lo <= Dot(xs, ws) / Sum(ws) <= hi
  {
    DotBetween(xs, ws, lo, hi);
    DivBounds(Dot(xs, ws), Sum(ws), lo, hi);
  }

  /** `WeightedMeanWithin` for every pair of bounds at once. */
  lemma {:induction false} WeightedMeanWithinAll(xs: seq<real>, ws: seq<real>)
    requires |xs| == |ws| > 0 && AllPositive(ws)
    ensures Sum(ws) > 0.0
    ensures forall lo, hi :: AllWithin(xs, lo, hi) ==> lo <= Dot(xs, ws) / Sum(ws) <= hi
  {
    SumPositive(ws);
    forall lo, hi | AllWithin(xs, lo, hi)
      ensures lo <= Dot(xs, ws) / Sum(ws) <= hi
    {
      WeightedMeanWithin(xs, ws, lo, hi);
    }
  }
}
