/**
 * `performGridSearch`: a 5×5 grid of candidate points around the epicenter,
 * each scored by the travel metrics of every participant's trip to it, then
 * ranked by fairness score with the stable sort.
 */
module GridSearch {
  import opened ExtReal
  import opened Geo
  import opened Metrics
  import opened StableSort
  import opened Epicenter

  /** Grid offsets in degrees, used for latitude and for longitude. */
  const Deltas: seq<real> := [-0.008, -0.004, 0.0, 0.004, 0.008]

  /** The travel-time provider: origin address, destination, mode name. */
  type TravelProvider = (string, LatLng, string) -> TravelResponse

  /** Point `k` of the grid: latitude offset `k / 5` (outer loop), longitude offset `k % 5` (inner loop). */
  function GridPoint(center: LatLng, k: nat): (p: LatLng)
    requires k < 25
    ensures center.lat - 0.008 <= p.lat <= center.lat + 0.008
    ensures center.lng - 0.008 <= p.lng <= center.lng + 0.008
    ensures p.lat - center.lat in Deltas && p.lng - center.lng in Deltas
  {
    assert k / 5 < 5 && k % 5 < 5;
    LatLng(center.lat + Deltas[k / 5], center.lng + Deltas[k % 5])
  }

  function Grid(center: LatLng): (points: seq<LatLng>)
    ensures |points| == 25
  {
    seq(25, k requires 0 <= k < 25 => GridPoint(center, k))
  }

  /** The nested loops that push the grid points, latitude offset outermost. */
  method GridCandidates(center: LatLng) returns (points: seq<LatLng>)
    ensures points == Grid(center)
  {
    points := [];
    for a := 0 to |Deltas|
      invariant points == Grid(center)[..5 * a]
    {
      var latDelta := Deltas[a];
      for b := 0 to |Deltas|
        invariant points == Grid(center)[..5 * a + b]
      {
        var lngDelta := Deltas[b];
        assert (5 * a + b) / 5 == a && (5 * a + b) % 5 == b;
        assert Grid(center)[..5 * a + b + 1] == Grid(center)[..5 * a + b] + [Grid(center)[5 * a + b]];
        points := points + [LatLng(center.lat + latDelta, center.lng + lngDelta)];
      }
    }
  }

  /** The 25 grid points are pairwise distinct. */
  lemma {:induction false} GridDistinct(center: LatLng, k: nat, l: nat)
    requires k < 25 && l < 25 && k != l
    ensures Grid(center)[k] != Grid(center)[l]
  {
    assert k == 5 * (k / 5) + k % 5 && l == 5 * (l / 5) + l % 5;
  }

  /** A scored grid point. */
  datatype Candidate = Candidate(point: LatLng, travelResults: seq<Travel>, metrics: Metrics)

  /** One lookup per participant, in participant order (`Promise.all` over `locations.map`). */
  function TravelResults(locations: seq<Location>, destination: LatLng, travel: TravelProvider): (r: seq<Travel>)
    ensures |r| == |locations|
    ensures forall i :: 0 <= i < |locations| ==> r[i] == FromResponse(travel(locations[i].address, destination, locations[i].transport))
  {
    seq(|locations|, i requires 0 <= i < |locations| =>
      FromResponse(travel(locations[i].address, destination, locations[i].transport)))
  }

  function Durations(travels: seq<Travel>): (ds: seq<Ext>)
    ensures |ds| == |travels|
    ensures forall i :: 0 <= i < |travels| ==> ds[i] == travels[i].duration
  {
    seq(|travels|, i requires 0 <= i < |travels| => travels[i].duration)
  }

  /**
   * Score one grid point: one lookup per participant, and a score that is
   * infinite exactly when every participant's lookup gave no duration.
   */
  function Evaluate(point: LatLng, locations: seq<Location>, travel: TravelProvider,
                    sqrt: real -> real): (c: Candidate)
    ensures c.point == point && |c.travelResults| == |locations|
    ensures forall i :: 0 <= i < |locations| ==>
      c.travelResults[i] == FromResponse(travel(locations[i].address, point, locations[i].transport))
    ensures c.metrics == ComputeMetrics(Durations(c.travelResults), sqrt)
    ensures c.metrics.fairnessScore.Inf? <==> forall i :: 0 <= i < |locations| ==> c.travelResults[i].duration.Inf?
  {
    var results := TravelResults(locations, point, travel);
    var ds := Durations(results);
    AllInfiniteIffInfiniteScore(ds, sqrt);
    assert |ds| == |locations| && forall k :: 0 <= k < |ds| ==> ds[k] == results[k].duration;
    Candidate(point, results, ComputeMetrics(Durations(results), sqrt))
  }

  /** The candidates in grid order, before sorting. */
  function Candidates(center: LatLng, locations: seq<Location>, travel: TravelProvider,
                      sqrt: real -> real): (cs: seq<Candidate>)
    ensures |cs| == 25
    ensures forall k :: 0 <= k < 25 ==> cs[k] == Evaluate(Grid(center)[k], locations, travel, sqrt)
    ensures forall k :: 0 <= k < 25 ==> cs[k].point == Grid(center)[k]
  {
    seq(25, k requires 0 <= k < 25 => Evaluate(Grid(center)[k], locations, travel, sqrt))
  }

  /** The sort key `a.fairnessScore - b.fairnessScore`. */
  function CandidateFairness(c: Candidate): Ext
  {
    c.metrics.fairnessScore
  }

  /** The candidates ranked by fairness, ties in grid order: a sorted permutation of them. */
  function Ranking(center: LatLng, locations: seq<Location>, travel: TravelProvider,
                   sqrt: real -> real): (r: seq<Candidate>)
    ensures |r| == 25
    ensures SortedBy(r, CandidateFairness)
    ensures multiset(r) == multiset(Candidates(center, locations, travel, sqrt))
  {
    SortedByKeyIsSorted(Candidates(center, locations, travel, sqrt), CandidateFairness);
    SortedByKeyPermutes(Candidates(center, locations, travel, sqrt), CandidateFairness);
    SortedByKey(Candidates(center, locations, travel, sqrt), CandidateFairness)
  }

  /**
   * The grid search: 25 candidates ranked ascending by fairness; the best is
   * the first, its score is not above any candidate's, and its point is one
   * of the grid points.
   */
  method PerformGridSearch(epicenter: LatLng, locations: seq<Location>, travel: TravelProvider,
                           sqrt: real -> real)
    returns (bestCandidate: Candidate, allCandidates: seq<Candidate>)
    ensures allCandidates == Ranking(epicenter, locations, travel, sqrt)
    ensures |allCandidates| == 25 && bestCandidate == allCandidates[0]
    ensures SortedBy(allCandidates, CandidateFairness)
    ensures forall c :: c in allCandidates ==> Le(bestCandidate.metrics.fairnessScore, c.metrics.fairnessScore)
    ensures bestCandidate.point in Grid(epicenter)
  {
    var gridCandidates := GridCandidates(epicenter);
    var candidateResults := new Candidate[|gridCandidates|](
      k requires 0 <= k < |gridCandidates| => Evaluate(gridCandidates[k], locations, travel, sqrt));
    assert candidateResults[..] == Candidates(epicenter, locations, travel, sqrt);
    SortInPlace(candidateResults, CandidateFairness);
    allCandidates := candidateResults[..];
    bestCandidate := allCandidates[0];
    assert allCandidates == Ranking(epicenter, locations, travel, sqrt);
    HeadIsLeast(allCandidates, CandidateFairness);
    RankedFromGrid(epicenter, locations, travel, sqrt);
  }

  /** Every ranked candidate stands at a grid point. */
  lemma {:induction false} RankedFromGrid(center: LatLng, locations: seq<Location>, travel: TravelProvider,
                                         sqrt: real -> real)
    ensures forall c :: c in Ranking(center, locations, travel, sqrt) ==> c.point in Grid(center)
  {
    PointsFrom(Ranking(center, locations, travel, sqrt), Candidates(center, locations, travel, sqrt), Grid(center));
  }

  /** A permutation of candidates standing at given points stands at those points. */
  lemma {:induction false} PointsFrom(r: seq<Candidate>, cs: seq<Candidate>, points: seq<LatLng>)
    requires multiset(r) == multiset(cs) && |cs| == |points|
    requires forall k :: 0 <= k < |cs| ==> cs[k].point == points[k]
    ensures forall c :: c in r ==> c.point in points
  {
    forall c | c in r ensures c.point in points {
      assert c in multiset(cs);
      var k :| 0 <= k < |cs| && cs[k] == c;
      assert c.point == points[k];
    }
  }

  /**
   * Ties keep grid order: the best candidate is the earliest grid point whose
   * score is minimal; every earlier grid point scores strictly worse.
   */
  lemma {:induction false} BestIsEarliestMinimal(center: LatLng, locations: seq<Location>,
                                                travel: TravelProvider, sqrt: real -> real)
    returns (m: nat)
    ensures m < 25
    ensures Ranking(center, locations, travel, sqrt)[0] == Candidates(center, locations, travel, sqrt)[m]
    ensures forall j :: 0 <= j < 25 ==>
      Le(Candidates(center, locations, travel, sqrt)[m].metrics.fairnessScore,
         Candidates(center, locations, travel, sqrt)[j].metrics.fairnessScore)
    ensures forall j :: 0 <= j < m ==>
      Less(Candidates(center, locations, travel, sqrt)[m].metrics.fairnessScore,
           Candidates(center, locations, travel, sqrt)[j].metrics.fairnessScore)
  {
    var cs := Candidates(center, locations, travel, sqrt);
    m := HeadIsFirstMinimal(cs, CandidateFairness);
    forall j | 0 <= j < 25
      ensures Le(cs[m].metrics.fairnessScore, cs[j].metrics.fairnessScore)
    {
      assert Le(CandidateFairness(cs[m]), CandidateFairness(cs[j]));
    }
    forall j | 0 <= j < m
      ensures Less(cs[m].metrics.fairnessScore, cs[j].metrics.fairnessScore)
    {
      assert Less(CandidateFairness(cs[m]), CandidateFairness(cs[j]));
    }
  }

  /** When every key is `k`, the stable sort leaves the sequence as it is. */
  lemma {:induction false} SortedAllEqualKeys<T>(s: seq<T>, key: T -> Ext, k: Ext)
    requires forall i :: 0 <= i < |s| ==> key(s[i]) == k
    ensures SortedByKey(s, key) == s
  {
    var r := SortedByKey(s, key);
    SortedByKeyIsStable(s, key, k);
    SortedByKeyPermutes(s, key);
    assert forall i :: 0 <= i < |r| ==> key(r[i]) == k by {
      forall i | 0 <= i < |r| ensures key(r[i]) == k {
        assert r[i] in multiset(s);
      }
    }
    WithKeyAll(s, key, k);
    WithKeyAll(r, key, k);
  }

  lemma {:induction false} WithKeyAll<T>(s: seq<T>, key: T -> Ext, k: Ext)
    requires forall i :: 0 <= i < |s| ==> key(s[i]) == k
    ensures WithKey(s, key, k) == s
  {
    if |s| > 0 {
      WithKeyAll(s[..|s| - 1], key, k);
    }
  }

  /**
   * When every travel lookup fails, every candidate scores `Infinity`, the
   * ranking is the grid order, and the best candidate is the first grid point
   * (the south-west corner); the search still succeeds.
   */
  lemma {:induction false} AllLookupsFail(center: LatLng, locations: seq<Location>, travel: TravelProvider,
                       sqrt: real -> real)
    requires forall a, p, m :: travel(a, p, m) == Failed
    ensures forall c :: c in Ranking(center, locations, travel, sqrt) ==> c.metrics.fairnessScore == Inf
    ensures Ranking(center, locations, travel, sqrt)[0].point
         == LatLng(center.lat - 0.008, center.lng - 0.008)
  {
    var cs := Candidates(center, locations, travel, sqrt);
    CandidatesScoreInfinity(center, locations, travel, sqrt);
    SortedAllEqualKeys(cs, CandidateFairness, Inf);
    FirstGridPoint(center);
  }

  /** When every lookup fails, every candidate scores `Infinity`. */
  lemma {:induction false} CandidatesScoreInfinity(center: LatLng, locations: seq<Location>, travel: TravelProvider,
                                                   sqrt: real -> real)
    requires forall a, p, m :: travel(a, p, m) == Failed
    ensures forall k :: 0 <= k < 25 ==> CandidateFairness(Candidates(center, locations, travel, sqrt)[k]) == Inf
  {
    forall k | 0 <= k < 25 ensures CandidateFairness(Candidates(center, locations, travel, sqrt)[k]) == Inf {
      FailedLookupsScoreInfinity(Grid(center)[k], locations, travel, sqrt);
    }
  }

  /** The first grid point is the south-west corner. */
  lemma {:induction false} FirstGridPoint(center: LatLng)
    ensures Grid(center)[0] == LatLng(center.lat - 0.008, center.lng - 0.008)
  {
    assert Grid(center)[0] == GridPoint(center, 0);
  }

  /** A point every lookup fails for scores `Infinity`. */
  lemma {:induction false} FailedLookupsScoreInfinity(point: LatLng, locations: seq<Location>,
                                                     travel: TravelProvider, sqrt: real -> real)
    requires forall a, p, m :: travel(a, p, m) == Failed
    ensures CandidateFairness(Evaluate(point, locations, travel, sqrt)) == Inf
  {
    var results := TravelResults(locations, point, travel);
    var ds := Durations(results);
    forall i | 0 <= i < |ds| ensures ds[i].Inf? {
      assert travel(locations[i].address, point, locations[i].transport) == Failed;
    }
    AllInfiniteIffInfiniteScore(ds, sqrt);
  }
}
