/**
 * Travel lookups and the travel metrics of a destination.
 *
 * `FromResponse` is the response-to-duration mapping of
 * `getTravelTimeForOrigin`; `ComputeMetrics` is the average / maximum /
 * standard deviation / fairness score computed for every grid point and every
 * venue over the durations that are finite.
 */
module Metrics {
  import opened Wrappers
  import opened ExtReal
  import opened Geo

  /**
   * What the distance-matrix provider gave back for one origin/destination
   * pair: a failed call, or the first element with its optional duration and
   * distance values (seconds and meters).
   */
  datatype TravelResponse =
    | Failed
    | Element(durationValue: Option<nat>, distanceValue: Option<nat>)

  /** One origin's travel to a destination; `Inf` stands for JavaScript's `Infinity`. */
  datatype Travel = Travel(duration: Ext, distance: Ext)

  /** `value || Infinity`: a missing value and the value 0 both become `Infinity`. */
  function OrInfinity(value: Option<nat>): (r: Ext)
    ensures r.Inf? <==> value.None? || value.value == 0
    ensures r.Fin? ==> r.v == value.value as real && r.v > 0.0
  {
    match value
    case Some(n) => if n == 0 then Inf else Fin(n as real)
    case None => Inf
  }

  /**
   * The result of one travel lookup: a failed call gives infinite duration
   * and distance; otherwise each field is finite exactly when the provider
   * gave a non-zero value, and then equals it.
   */
  function FromResponse(response: TravelResponse): (t: Travel)
    ensures response.Failed? ==> t.duration.Inf? && t.distance.Inf?
    ensures t.duration.Fin? <==>
      response.Element? && response.durationValue.Some? && response.durationValue.value != 0
    ensures t.distance.Fin? <==>
      response.Element? && response.distanceValue.Some? && response.distanceValue.value != 0
    ensures t.duration.Fin? ==> t.duration.v == response.durationValue.value as real
    ensures t.distance.Fin? ==> t.distance.v == response.distanceValue.value as real
  {
    match response
    case Failed => Travel(Inf, Inf)
    case Element(d, m) => Travel(OrInfinity(d), OrInfinity(m))
  }

  /** The finite durations, in order: `filter(d => d !== Infinity)`. */
  function Finites(ds: seq<Ext>): (r: seq<real>)
    ensures |r| <= |ds|
  {
    if |ds| == 0 then []
    else Finites(ds[..|ds| - 1]) + (if ds[|ds| - 1].Fin? then [ds[|ds| - 1].v] else [])
  }

  /** `Math.max(...xs)` of a non-empty list: an upper bound that is one of the values. */
  function Max(xs: seq<real>): (m: real)
    requires |xs| > 0
    ensures forall k :: 0 <= k < |xs| ==> xs[k] <= m
    ensures exists k :: 0 <= k < |xs| && xs[k] == m
  {
    if |xs| == 1 then xs[0]
    else
      var init := xs[..|xs| - 1];
      var m' := Max(init);
      assert forall k :: 0 <= k < |init| ==> init[k] == xs[k];
      if xs[|xs| - 1] > m' then xs[|xs| - 1] else m'
  }

  /** Squared deviations `(x - mean)^2`, as `Math.pow(x - mean, 2)` computes them. */
  function SquaredDeviations(xs: seq<real>, mean: real): (r: seq<real>)
    ensures |r| == |xs|
  {
    seq(|xs|, k requires 0 <= k < |xs| => (xs[k] - mean) * (xs[k] - mean))
  }

  /**
   * Average of the finite durations, or `Infinity` when there are none: the
   * value that, times the number of finite durations, gives their sum.
   */
  function Average(ds: seq<Ext>): (r: Ext)
    ensures r.Inf? <==> forall k :: 0 <= k < |ds| ==> ds[k].Inf?
    ensures r.Fin? ==> r.v * |Finites(ds)| as real == Sum(Finites(ds))
  {
    var xs := Finites(ds);
    FinitesEmpty(ds);
    if |xs| == 0 then Inf else Fin(Sum(xs) / |xs| as real)
  }

  /**
   * Score weights: `avg + 0.3 * max + 0.5 * std`. Maximum and deviation only
   * add to the average, never take away from it.
   */
  function Fairness(average: real, maxDuration: real, stdDeviation: real): (f: real)
    ensures 0.0 <= maxDuration && 0.0 <= stdDeviation ==> average <= f
  {
    average + 0.3 * maxDuration + 0.5 * stdDeviation
  }

  datatype Metrics = Metrics(
    averageDuration: Ext,
    maxDuration: Ext,
    stdDeviation: real,
    fairnessScore: Ext)

  /**
   * The metrics of a list of durations. With no finite duration, average,
   * maximum and fairness are `Infinity` and the deviation is `sqrt(0)`; the
   * grid search leaves the deviation undefined there, which nothing reads.
   */
  function ComputeMetrics(ds: seq<Ext>, sqrt: real -> real): (m: Metrics)
    ensures m.averageDuration == Average(ds)
    ensures m.maxDuration.Inf? <==> m.averageDuration.Inf?
    ensures m.fairnessScore.Inf? <==> m.averageDuration.Inf?
    ensures m.fairnessScore.Fin? ==>
      m.fairnessScore.v == Fairness(m.averageDuration.v, m.maxDuration.v, m.stdDeviation)
    ensures m.maxDuration.Fin? ==> |Finites(ds)| > 0 && m.maxDuration.v == Max(Finites(ds))
    ensures m.averageDuration.Fin? ==>
      m.stdDeviation == sqrt(Sum(SquaredDeviations(Finites(ds), m.averageDuration.v)) / |Finites(ds)| as real)
    ensures m.averageDuration.Inf? ==> m.stdDeviation == sqrt(0.0)
  {
    var xs := Finites(ds);
    if |xs| == 0 then Metrics(Inf, Inf, sqrt(0.0), Inf)
    else
      var avg := Sum(xs) / |xs| as real;
      var std := sqrt(Sum(SquaredDeviations(xs, avg)) / |xs| as real);
      Metrics(Fin(avg), Fin(Max(xs)), std, Fin(Fairness(avg, Max(xs), std)))
  }

  // ---------------------------------------------------------------- lemmas

  lemma {:induction false} FinitesAppend(a: seq<Ext>, b: seq<Ext>)
    ensures Finites(a + b) == Finites(a) + Finites(b)
    decreases |b|
  {
    if |b| == 0 {
      assert a + b == a;
    } else {
      assert (a + b)[..|a + b| - 1] == a + b[..|b| - 1];
      FinitesAppend(a, b[..|b| - 1]);
    }
  }

  /** No finite duration exactly when every duration is infinite. */
  lemma {:induction false} FinitesEmpty(ds: seq<Ext>)
    ensures |Finites(ds)| == 0 <==> forall k :: 0 <= k < |ds| ==> ds[k].Inf?
  {
    if |ds| > 0 {
      FinitesEmpty(ds[..|ds| - 1]);
      assert forall k :: 0 <= k < |ds| - 1 ==> ds[..|ds| - 1][k] == ds[k];
    }
  }

  /**
   * Infinite durations are ignored: an `Infinity` anywhere in the list
   * leaves every metric unchanged.
   */
  lemma {:induction false} InfiniteDurationIgnored(a: seq<Ext>, b: seq<Ext>, sqrt: real -> real)
    ensures ComputeMetrics(a + [Inf] + b, sqrt) == ComputeMetrics(a + b, sqrt)
  {
    assert Finites(a + [Inf] + b) == Finites(a + b) by {
      FinitesAppend(a + [Inf], b);
      FinitesAppend(a, [Inf]);
      FinitesAppend(a, b);
      assert Finites([Inf]) == [] by {
        assert [Inf][..0] == [];
      }
    }
  }

  /** Average, maximum and fairness are infinite exactly when no duration is finite. */
  lemma {:induction false} AllInfiniteIffInfiniteScore(ds: seq<Ext>, sqrt: real -> real)
    ensures var m := ComputeMetrics(ds, sqrt);
      (m.fairnessScore.Inf? <==> forall k :: 0 <= k < |ds| ==> ds[k].Inf?) &&
      (m.averageDuration.Inf? <==> m.fairnessScore.Inf?) &&
      (m.maxDuration.Inf? <==> m.fairnessScore.Inf?)
  {
    FinitesEmpty(ds);
  }

  /** Arithmetic step of `SumAtMostCountTimes`. */
  lemma {:induction false} SumStep(sum': real, sum: real, x: real, n: real, n1: real, m: real)
    requires sum == sum' + x && sum' <= n * m && x <= m && n1 == n + 1.0
    ensures sum <= n1 * m
  {
    assert n1 * m == n * m + m;
  }

  /** Values all at most `m` sum to at most their number times `m`. */
  lemma {:induction false} SumAtMostCountTimes(xs: seq<real>, m: real)
    requires forall k :: 0 <= k < |xs| ==> xs[k] <= m
    ensures Sum(xs) <= |xs| as real * m
  {
    if |xs| > 0 {
      var n := |xs| - 1;
      var xs' := xs[..n];
      assert forall k :: 0 <= k < n ==> xs'[k] == xs[k];
      SumAtMostCountTimes(xs', m);
      assert Sum(xs) == Sum(xs') + xs[n];
      SumStep(Sum(xs'), Sum(xs), xs[n], n as real, |xs| as real, m);
    }
  }

  /** The sum of a non-empty list is at most its length times its maximum. */
  lemma {:induction false} SumAtMostCountTimesMax(xs: seq<real>)
    requires |xs| > 0
    ensures Sum(xs) <= |xs| as real * Max(xs)
  {
    SumAtMostCountTimes(xs, Max(xs));
  }

  /** A quotient `s / n` with `s <= n * m` and `n > 0` is at most `m`. */
  lemma {:induction false} DivAtMost(s: real, n: real, m: real)
    requires 0.0 < n && s <= n * m
    ensures s / n <= m
  {
    var q := s / n;
    assert q * n == s;
    if q > m {
      assert q * n - m * n == (q - m) * n;
    }
  }

  /** When some duration is finite, the average never exceeds the maximum. */
  lemma {:induction false} AverageAtMostMax(ds: seq<Ext>, sqrt: real -> real)
    requires exists k :: 0 <= k < |ds| && ds[k].Fin?
    ensures var m := ComputeMetrics(ds, sqrt);
      m.averageDuration.Fin? && m.maxDuration.Fin? &&
      m.averageDuration.v <= m.maxDuration.v
  {
    FinitesEmpty(ds);
    var xs := Finites(ds);
    SumAtMostCountTimesMax(xs);
    DivAtMost(Sum(xs), |xs| as real, Max(xs));
  }

  /** Every finite duration is non-negative (true of every duration `FromResponse` produces). */
  ghost predicate NonNegativeDurations(ds: seq<Ext>)
  {
    forall k :: 0 <= k < |ds| && ds[k].Fin? ==> 0.0 <= ds[k].v
  }

  lemma {:induction false} FinitesNonNegative(ds: seq<Ext>)
    requires NonNegativeDurations(ds)
    ensures AllNonNegative(Finites(ds))
  {
    if |ds| > 0 {
      assert NonNegativeDurations(ds[..|ds| - 1]);
      FinitesNonNegative(ds[..|ds| - 1]);
    }
  }

  /**
   * For non-negative durations and a square root that is non-negative on
   * non-negative input, the fairness score is at least the average.
   */
  lemma {:induction false} FairnessAtLeastAverage(ds: seq<Ext>, sqrt: real -> real)
    requires NonNegativeDurations(ds) && NonNegativeSqrt(sqrt)
    ensures var m := ComputeMetrics(ds, sqrt);
      m.averageDuration.Fin? ==> m.fairnessScore.Fin? && m.averageDuration.v <= m.fairnessScore.v
  {
    var xs := Finites(ds);
    if |xs| > 0 {
      FinitesNonNegative(ds);
      assert 0.0 <= xs[0] <= Max(xs);
      DeviationNonNegative(xs, sqrt);
    }
  }

  /** The standard deviation, taken with a non-negative square root, is non-negative. */
  lemma {:induction false} DeviationNonNegative(xs: seq<real>, sqrt: real -> real)
    requires |xs| > 0 && NonNegativeSqrt(sqrt)
    ensures 0.0 <= sqrt(Sum(SquaredDeviations(xs, Sum(xs) / |xs| as real)) / |xs| as real)
  {
    var n := |xs| as real;
    var squares := SquaredDeviations(xs, Sum(xs) / n);
    forall k | 0 <= k < |squares| ensures 0.0 <= squares[k] {
      SquareNonNegative(xs[k] - Sum(xs) / n);
    }
    SumNonNegative(squares);
    assert 0.0 <= Sum(squares) / n;
  }

  lemma {:induction false} SquareNonNegative(d: real)
    ensures 0.0 <= d * d
  {
  }

  /**
   * The fairness score is strictly monotone: strictly lower average, maximum
   * and deviation give a strictly lower score.
   */
  lemma {:induction false} FairnessMonotone(a1: real, m1: real, s1: real, a2: real, m2: real, s2: real)
    requires a1 < a2 && m1 < m2 && s1 < s2
    ensures Fairness(a1, m1, s1) < Fairness(a2, m2, s2)
  {
  }

  /** Every duration a travel lookup yields is non-negative. */
  lemma {:induction false} LookupDurationsNonNegative(responses: seq<TravelResponse>)
    ensures NonNegativeDurations(seq(|responses|, k requires 0 <= k < |responses| => FromResponse(responses[k]).duration))
  {
  }
}
