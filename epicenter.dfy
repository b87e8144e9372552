/**
 * `computeWeightedEpicenter`: geocode the participants' addresses, then take
 * a mean of their coordinates weighted by how far each lies from the others
 * (its centrality) and by a factor for its transport mode.
 *
 * The geocoding provider and the haversine distance (in kilometres) are
 * parameters. The method follows the source's loops; `EpicenterOf` is the
 * function it is proved against, and the lemmas state what the weighting
 * guarantees.
 */
module Epicenter {
  import opened Wrappers
  import opened Geo

  /** One participant of a request: an address and a transport mode name. */
  datatype Location = Location(address: string, transport: string)

  /** A participant whose address geocoded: its coordinates, mode and address. */
  datatype GeoLoc = GeoLoc(pos: LatLng, transport: string, address: string)

  /**
   * The three outcomes of `computeWeightedEpicenter`: `null` when nothing
   * geocoded, the only geocoded location itself, or the weighted centre
   * together with the geocoded locations it was computed from.
   */
  datatype EpicenterResult =
    | NoGeocode
    | Single(loc: GeoLoc)
    | Weighted(center: LatLng, originalLocations: seq<GeoLoc>)
  {
    /** The coordinates the grid search is centred on. */
    function Point(): LatLng
      requires !NoGeocode?
    {
      if Single? then loc.pos else center
    }
  }

  /** The geocoding step for one participant: its coordinates, mode and address. */
  function Attach(location: Location, pos: LatLng): GeoLoc
  {
    GeoLoc(pos, location.transport, location.address)
  }

  /** The participants whose address geocoded, in input order. */
  function Geocoded(locations: seq<Location>, geocode: string -> Option<LatLng>): (g: seq<GeoLoc>)
    ensures |g| <= |locations|
  {
    if |locations| == 0 then []
    else
      var last := locations[|locations| - 1];
      var coords := geocode(last.address);
      Geocoded(locations[..|locations| - 1], geocode)
        + (if coords.Some? then [Attach(last, coords.value)] else [])
  }

  /** `Σ dist(g[i], g[k])` over `k < j`, `k != i`: the inner loop's running sum. */
  function PartialDistanceSum(g: seq<GeoLoc>, i: nat, j: nat, dist: (LatLng, LatLng) -> real): real
    requires i < |g| && j <= |g|
  {
    if j == 0 then 0.0
    else
      var term := if i == j - 1 then 0.0 else dist(g[i].pos, g[j - 1].pos);
      PartialDistanceSum(g, i, j - 1, dist) + term
  }

  /** For every point, the sum of its distances to all the others. */
  function DistanceSums(g: seq<GeoLoc>, dist: (LatLng, LatLng) -> real): (ds: seq<real>)
    ensures |ds| == |g|
  {
    seq(|g|, i requires 0 <= i < |g| => PartialDistanceSum(g, i, |g|, dist))
  }

  function TotalDistance(g: seq<GeoLoc>, dist: (LatLng, LatLng) -> real): real
  {
    Sum(DistanceSums(g, dist))
  }

  /**
   * The points are spread out: their total pairwise distance is positive.
   * (When all geocoded points coincide the source divides by zero.)
   */
  ghost predicate Spread(g: seq<GeoLoc>, dist: (LatLng, LatLng) -> real)
  {
    TotalDistance(g, dist) > 0.0
  }

  /** What the entry point demands: a weighted mean is only taken of spread-out points. */
  ghost predicate SpreadWhenWeighted(locations: seq<Location>, geocode: string -> Option<LatLng>,
                                     dist: (LatLng, LatLng) -> real)
  {
    |Geocoded(locations, geocode)| >= 2 ==> Spread(Geocoded(locations, geocode), dist)
  }

  /** The transport-mode factor of the `switch`; unknown modes get 1.0. */
  function TransportFactor(transport: string): (f: real)
    ensures transport == "driving" <==> f == 0.7
    ensures transport == "transit" <==> f == 0.85
    ensures transport == "bicycling" <==> f == 1.1
    ensures transport == "walking" <==> f == 1.3
    ensures f == 1.0 <==> transport !in ["driving", "transit", "bicycling", "walking"]
  {
    match transport
    case "driving" => 0.7
    case "transit" => 0.85
    case "bicycling" => 1.1
    case "walking" => 1.3
    case _ => 1.0
  }

  /** Centrality weights `0.4 + 0.6 * d_i / total`. */
  function Centralities(g: seq<GeoLoc>, dist: (LatLng, LatLng) -> real): (cs: seq<real>)
    requires Spread(g, dist)
    ensures |cs| == |g|
  {
    var ds, total := DistanceSums(g, dist), TotalDistance(g, dist);
    seq(|g|, i requires 0 <= i < |g| => 0.4 + 0.6 * ds[i] / total)
  }

  /** Final weights: centrality times transport factor. */
  function FinalWeights(g: seq<GeoLoc>, dist: (LatLng, LatLng) -> real): (ws: seq<real>)
    requires Spread(g, dist)
    ensures |ws| == |g|
  {
    var cs := Centralities(g, dist);
    seq(|g|, i requires 0 <= i < |g| => cs[i] * TransportFactor(g[i].transport))
  }

  function Lats(g: seq<GeoLoc>): (r: seq<real>)
    ensures |r| == |g|
  {
    seq(|g|, i requires 0 <= i < |g| => g[i].pos.lat)
  }

  function Lngs(g: seq<GeoLoc>): (r: seq<real>)
    ensures |r| == |g|
  {
    seq(|g|, i requires 0 <= i < |g| => g[i].pos.lng)
  }

  /**
   * The weighted mean of latitudes and of longitudes: it lies within any
   * bounds of the participants' coordinates.
   */
  function WeightedCenter(g: seq<GeoLoc>, dist: (LatLng, LatLng) -> real): (c: LatLng)
    requires |g| > 0 && Spread(g, dist) && NonNegativeDistance(dist)
    ensures forall lo, hi :: AllWithin(Lats(g), lo, hi) ==> lo <= c.lat <= hi
    ensures forall lo, hi :: AllWithin(Lngs(g), lo, hi) ==> lo <= c.lng <= hi
  {
    var ws := FinalWeights(g, dist);
    WeightsPositive(g, dist);
    SumPositive(ws);
    WeightedMeanWithinAll(Lats(g), ws);
    WeightedMeanWithinAll(Lngs(g), ws);
    LatLng(Dot(Lats(g), ws) / Sum(ws), Dot(Lngs(g), ws) / Sum(ws))
  }

  /**
   * The epicenter of the geocoded participants `g`: none without a
   * participant, the participant itself when alone, and otherwise a point
   * within any bounds of the participants' coordinates.
   */
  function EpicenterOf(g: seq<GeoLoc>, dist: (LatLng, LatLng) -> real): (r: EpicenterResult)
    requires |g| >= 2 ==> Spread(g, dist)
    requires NonNegativeDistance(dist)
    ensures r.NoGeocode? <==> |g| == 0
    ensures r.Single? <==> |g| == 1
    ensures r.Single? ==> r.loc == g[0]
    ensures r.Weighted? ==> r.originalLocations == g
    ensures !r.NoGeocode? ==> forall lo, hi :: AllWithin(Lats(g), lo, hi) ==> lo <= r.Point().lat <= hi
    ensures !r.NoGeocode? ==> forall lo, hi :: AllWithin(Lngs(g), lo, hi) ==> lo <= r.Point().lng <= hi
  {
    if |g| == 0 then NoGeocode
    else if |g| == 1 then
      assert Lats(g)[0] == g[0].pos.lat && Lngs(g)[0] == g[0].pos.lng;
      Single(g[0])
    else Weighted(WeightedCenter(g, dist), g)
  }

  // ---------------------------------------------------------- the methods

  method ComputeWeightedEpicenter(locations: seq<Location>, geocode: string -> Option<LatLng>,
                                  dist: (LatLng, LatLng) -> real)
    returns (r: EpicenterResult)
    requires NonNegativeDistance(dist)
    requires SpreadWhenWeighted(locations, geocode, dist)
    ensures r == EpicenterOf(Geocoded(locations, geocode), dist)
  {
    var geocodedLocations := GeocodeAll(locations, geocode);
    if |geocodedLocations| == 0 {
      return NoGeocode;
    }
    if |geocodedLocations| == 1 {
      return Single(geocodedLocations[0]);
    }
    var distances := PairwiseDistanceSums(geocodedLocations, dist);
    var totalDistance := Sum(distances);
    var weights: seq<real> := [];
    for i := 0 to |geocodedLocations|
      invariant weights == Centralities(geocodedLocations, dist)[..i]
    {
      weights := weights + [0.4 + 0.6 * distances[i] / totalDistance];
    }
    var center := ApplyWeights(geocodedLocations, weights, dist);
    r := Weighted(center, geocodedLocations);
  }

  /** The geocoding loop: keeps the participants whose address geocoded, in order. */
  method GeocodeAll(locations: seq<Location>, geocode: string -> Option<LatLng>)
    returns (geocodedLocations: seq<GeoLoc>)
    ensures geocodedLocations == Geocoded(locations, geocode)
  {
    geocodedLocations := [];
    for n := 0 to |locations|
      invariant geocodedLocations == Geocoded(locations[..n], geocode)
    {
      assert locations[..n + 1][..n] == locations[..n];
      var location := locations[n];
      var coords := geocode(location.address);
      if coords.Some? {
        geocodedLocations := geocodedLocations + [Attach(location, coords.value)];
      }
    }
    assert locations[..|locations|] == locations;
  }

  /** The nested distance loops: for each point, the sum of its distances to the others. */
  method PairwiseDistanceSums(g: seq<GeoLoc>, dist: (LatLng, LatLng) -> real)
    returns (distances: seq<real>)
    ensures distances == DistanceSums(g, dist)
  {
    distances := [];
    for i := 0 to |g|
      invariant |distances| == i
      invariant forall k :: 0 <= k < i ==> distances[k] == PartialDistanceSum(g, k, |g|, dist)
    {
      distances := distances + [0.0];
      for j := 0 to |g|
        invariant |distances| == i + 1
        invariant forall k :: 0 <= k < i ==> distances[k] == PartialDistanceSum(g, k, |g|, dist)
        invariant distances[i] == PartialDistanceSum(g, i, j, dist)
      {
        if i == j {
          continue;
        }
        distances := distances[i := distances[i] + dist(g[i].pos, g[j].pos)];
      }
    }
  }

  /** The weighting loop: applies the transport factors and takes the weighted mean. */
  method ApplyWeights(g: seq<GeoLoc>, weights: seq<real>, dist: (LatLng, LatLng) -> real)
    returns (center: LatLng)
    requires |g| > 0 && Spread(g, dist) && NonNegativeDistance(dist)
    requires weights == Centralities(g, dist)
    ensures center == WeightedCenter(g, dist)
  {
    ghost var ws := FinalWeights(g, dist);
    var weightedLatSum, weightedLngSum, weightSum := WeightedSums(g, weights, TransportFactor, ws);
    WeightsPositive(g, dist);
    SumPositive(ws);
    center := LatLng(weightedLatSum / weightSum, weightedLngSum / weightSum);
  }

  /**
   * The accumulation loop: each weight is scaled by the factor of its
   * participant's transport mode (`TransportFactor`, passed as `factor`).
   */
  method WeightedSums(g: seq<GeoLoc>, weights: seq<real>, factor: string -> real, ghost ws: seq<real>)
    returns (weightedLatSum: real, weightedLngSum: real, weightSum: real)
    requires |weights| == |g| && |ws| == |g|
    requires forall i :: 0 <= i < |g| ==> ws[i] == weights[i] * factor(g[i].transport)
    ensures weightedLatSum == Dot(Lats(g), ws)
    ensures weightedLngSum == Dot(Lngs(g), ws)
    ensures weightSum == Sum(ws)
  {
    weightedLatSum, weightedLngSum, weightSum := 0.0, 0.0, 0.0;
    for i := 0 to |g|
      invariant weightedLatSum == Dot(Lats(g)[..i], ws[..i])
      invariant weightedLngSum == Dot(Lngs(g)[..i], ws[..i])
      invariant weightSum == Sum(ws[..i])
    {
      var location := g[i];
      var transportFactor := factor(location.transport);
      var finalWeight := weights[i] * transportFactor;
      DotPrefixStep(Lats(g), ws, i);
      DotPrefixStep(Lngs(g), ws, i);
      SumPrefixStep(ws, i);
      weightedLatSum := weightedLatSum + location.pos.lat * finalWeight;
      weightedLngSum := weightedLngSum + location.pos.lng * finalWeight;
      weightSum := weightSum + finalWeight;
    }
    assert Lats(g)[..|g|] == Lats(g) && Lngs(g)[..|g|] == Lngs(g) && ws[..|g|] == ws;
  }

  // ---------------------------------------------------------------- lemmas

  /** Geocoding a concatenation geocodes each part: input order is kept. */
  lemma {:induction false} GeocodedAppend(a: seq<Location>, b: seq<Location>, geocode: string -> Option<LatLng>)
    ensures Geocoded(a + b, geocode) == Geocoded(a, geocode) + Geocoded(b, geocode)
    decreases |b|
  {
    if |b| == 0 {
      assert a + b == a;
    } else {
      assert (a + b)[..|a + b| - 1] == a + b[..|b| - 1];
      GeocodedAppend(a, b[..|b| - 1], geocode);
    }
  }

  /**
   * A location survives geocoding exactly when some participant's address
   * geocoded to its coordinates, and it carries that participant's mode and
   * address.
   */
  lemma {:induction false} GeocodedMembers(locations: seq<Location>, geocode: string -> Option<LatLng>, x: GeoLoc)
    ensures x in Geocoded(locations, geocode) <==>
      exists k :: 0 <= k < |locations| && geocode(locations[k].address) == Some(x.pos)
        && x == Attach(locations[k], x.pos)
  {
    if |locations| > 0 {
      var n := |locations| - 1;
      GeocodedMembers(locations[..n], geocode, x);
      assert forall k :: 0 <= k < n ==> locations[..n][k] == locations[k];
    }
  }

  /** When no address geocodes, nothing survives. */
  lemma {:induction false} GeocodedNone(locations: seq<Location>, geocode: string -> Option<LatLng>)
    requires forall k :: 0 <= k < |locations| ==> geocode(locations[k].address).None?
    ensures Geocoded(locations, geocode) == []
  {
    if |locations| > 0 {
      GeocodedNone(locations[..|locations| - 1], geocode);
    }
  }

  /**
   * Exactly one geocoded address: the epicenter is that participant's
   * location unchanged, and no weighting takes place.
   */
  lemma {:induction false} OneSurvivor(locations: seq<Location>, geocode: string -> Option<LatLng>,
                    dist: (LatLng, LatLng) -> real, k: nat)
    requires NonNegativeDistance(dist)
    requires k < |locations| && geocode(locations[k].address).Some?
    requires forall j :: 0 <= j < |locations| && j != k ==> geocode(locations[j].address).None?
    ensures Geocoded(locations, geocode) == [Attach(locations[k], geocode(locations[k].address).value)]
    ensures EpicenterOf(Geocoded(locations, geocode), dist)
         == Single(Attach(locations[k], geocode(locations[k].address).value))
  {
    var before, at, after := locations[..k], [locations[k]], locations[k + 1..];
    assert locations == before + at + after;
    forall j | 0 <= j < |before| ensures geocode(before[j].address).None? {
      assert before[j] == locations[j];
    }
    forall j | 0 <= j < |after| ensures geocode(after[j].address).None? {
      assert after[j] == locations[k + 1 + j];
    }
    GeocodedNone(before, geocode);
    GeocodedNone(after, geocode);
    assert at[..0] == [];
    assert Geocoded(at, geocode) == [Attach(locations[k], geocode(locations[k].address).value)];
    GeocodedAppend(before, at, geocode);
    GeocodedAppend(before + at, after, geocode);
  }

  lemma {:induction false} PartialDistanceSumNonNegative(g: seq<GeoLoc>, i: nat, j: nat, dist: (LatLng, LatLng) -> real)
    requires i < |g| && j <= |g| && NonNegativeDistance(dist)
    ensures 0.0 <= PartialDistanceSum(g, i, j, dist)
  {
    if j > 0 {
      PartialDistanceSumNonNegative(g, i, j - 1, dist);
    }
  }

  /** Each centrality weight lies in [0.4, 1.0]. */
  lemma {:induction false} CentralityWithin(g: seq<GeoLoc>, dist: (LatLng, LatLng) -> real, i: nat)
    requires Spread(g, dist) && NonNegativeDistance(dist) && i < |g|
    ensures 0.4 <= Centralities(g, dist)[i] <= 1.0
  {
    var ds, total := DistanceSums(g, dist), TotalDistance(g, dist);
    forall k | 0 <= k < |ds| ensures 0.0 <= ds[k] {
      PartialDistanceSumNonNegative(g, k, |g|, dist);
    }
    TermAtMostSum(ds, i);
    var d := ds[i];
    assert 0.0 * total <= 0.6 * d <= 0.6 * total;
    DivBounds(0.6 * d, total, 0.0, 0.6);
  }

  /** Every final weight is positive, between 0.4 * 0.7 and 1.0 * 1.3. */
  lemma {:induction false} WeightsPositive(g: seq<GeoLoc>, dist: (LatLng, LatLng) -> real)
    requires Spread(g, dist) && NonNegativeDistance(dist)
    ensures AllPositive(FinalWeights(g, dist))
    ensures forall i :: 0 <= i < |g| ==> 0.28 <= FinalWeights(g, dist)[i] <= 1.3
  {
    var cs, ws := Centralities(g, dist), FinalWeights(g, dist);
    forall i | 0 <= i < |g| ensures 0.28 <= ws[i] <= 1.3 {
      CentralityWithin(g, dist, i);
      var c, f := cs[i], TransportFactor(g[i].transport);
      MulPositive(0.4, c, f);
      MulPositive(c, 1.0, f);
      assert 0.4 * 0.7 <= 0.4 * f;
    }
  }

  /**
   * The epicenter of two or more spread-out points lies, in latitude and in
   * longitude, between any bounds of the points' coordinates (in particular
   * between their minimum and maximum).
   */
  lemma {:induction false} EpicenterWithin(g: seq<GeoLoc>, dist: (LatLng, LatLng) -> real,
                        latLo: real, latHi: real, lngLo: real, lngHi: real)
    requires |g| >= 2 && Spread(g, dist) && NonNegativeDistance(dist)
    requires forall i :: 0 <= i < |g| ==> latLo <= g[i].pos.lat <= latHi && lngLo <= g[i].pos.lng <= lngHi
    ensures EpicenterOf(g, dist).Weighted?
    ensures latLo <= EpicenterOf(g, dist).center.lat <= latHi
    ensures lngLo <= EpicenterOf(g, dist).center.lng <= lngHi
  {
    var ws := FinalWeights(g, dist);
    WeightsPositive(g, dist);
    WeightedMeanWithin(Lats(g), ws, latLo, latHi);
    WeightedMeanWithin(Lngs(g), ws, lngLo, lngHi);
  }

  /** `(a * w + b * w) / (w + w)` is the midpoint of `a` and `b`. */
  lemma {:induction false} MidpointArithmetic(a: real, b: real, w: real, dotAB: real, sumW: real)
    requires 0.0 < w && dotAB == a * w + b * w && sumW == w + w
    ensures dotAB / sumW == (a + b) / 2.0
  {
    assert dotAB == (a + b) * w;
    assert sumW == 2.0 * w;
    assert (a + b) * w / (2.0 * w) == (a + b) / 2.0;
  }

  /**
   * Two spread-out points with the same transport mode and a symmetric
   * distance get equal weights, so the epicenter is their midpoint.
   */
  lemma {:induction false} TwoPointMidpoint(g: seq<GeoLoc>, dist: (LatLng, LatLng) -> real)
    requires |g| == 2 && g[0].transport == g[1].transport
    requires Spread(g, dist) && NonNegativeDistance(dist) && SymmetricDistance(dist)
    ensures EpicenterOf(g, dist) == Weighted(
      LatLng((g[0].pos.lat + g[1].pos.lat) / 2.0, (g[0].pos.lng + g[1].pos.lng) / 2.0), g)
  {
    TwoPointEqualWeights(g, dist);
    var ws := FinalWeights(g, dist);
    WeightsPositive(g, dist);
    SumOfTwo(ws);
    DotOfTwo(Lats(g), ws);
    DotOfTwo(Lngs(g), ws);
    MidpointArithmetic(g[0].pos.lat, g[1].pos.lat, ws[0], Dot(Lats(g), ws), Sum(ws));
    MidpointArithmetic(g[0].pos.lng, g[1].pos.lng, ws[0], Dot(Lngs(g), ws), Sum(ws));
  }

  /** With a symmetric distance, two points are equally central; the same mode gives equal weights. */
  lemma {:induction false} TwoPointEqualWeights(g: seq<GeoLoc>, dist: (LatLng, LatLng) -> real)
    requires |g| == 2 && g[0].transport == g[1].transport
    requires Spread(g, dist) && SymmetricDistance(dist)
    ensures FinalWeights(g, dist)[0] == FinalWeights(g, dist)[1]
  {
    var d := dist(g[0].pos, g[1].pos);
    var ds := DistanceSums(g, dist);
    assert PartialDistanceSum(g, 0, 1, dist) == 0.0;
    assert ds[0] == d;
    assert PartialDistanceSum(g, 1, 1, dist) == dist(g[1].pos, g[0].pos);
    assert ds[1] == d;
    var cs := Centralities(g, dist);
    assert cs[0] == cs[1];
  }
}
