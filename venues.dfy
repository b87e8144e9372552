/**
 * `searchVenues`: ask the nearby-search provider for places around a point,
 * keep those rated at least `minRating` (when it is positive), order them by
 * `(rating || 3.0) * 100 - distance` descending and keep the first
 * `maxResults`. A failed call or an empty answer gives no venue.
 */
module Venues {
  import opened Wrappers
  import opened ExtReal
  import opened Geo
  import opened StableSort

  /** A place as the nearby-search provider describes it. */
  datatype Place = Place(
    name: string,
    vicinity: Option<string>,
    formattedAddress: Option<string>,
    location: LatLng,
    placeId: string,
    rating: Option<real>,
    userRatingsTotal: Option<nat>,
    priceLevel: Option<nat>)

  datatype PlacesResponse = PlacesFailed | PlacesOk(results: seq<Place>)

  /** The caller's options; an absent field takes its default. */
  datatype SearchOptions = SearchOptions(
    keyword: Option<string>,
    placeType: Option<string>,
    radius: Option<nat>,
    rankBy: Option<string>,
    minRating: Option<real>,
    openNow: Option<bool>,
    maxResults: Option<nat>)

  /** The query sent to the provider; an absent field is left out of the request. */
  datatype SearchParams = SearchParams(
    location: LatLng,
    radius: Option<nat>,
    rankByDistance: bool,
    keyword: Option<string>,
    placeType: Option<string>,
    openNow: bool)

  type NearbyProvider = SearchParams -> PlacesResponse

  const DefaultRadius: nat := 1000
  const DefaultRankBy: string := "prominence"
  const DefaultMinRating: real := 0.0
  const DefaultMaxResults: nat := 5

  /** A string option is sent only when present and non-empty (JavaScript truthiness). */
  function Truthy(s: Option<string>): (r: Option<string>)
    ensures r.Some? <==> s.Some? && s.value != ""
    ensures r.Some? ==> r == s
  {
    if s.Some? && s.value != "" then s else None
  }

  /** The request parameters built from the options. */
  function Params(location: LatLng, options: SearchOptions): (p: SearchParams)
    ensures p.location == location
    ensures p.rankByDistance <==> options.rankBy == Some("distance")
    ensures p.radius.Some? <==> options.radius.GetOr(DefaultRadius) != 0 && !p.rankByDistance
    ensures p.radius.Some? ==> p.radius.value == options.radius.GetOr(DefaultRadius)
    ensures p.keyword == Truthy(options.keyword) && p.placeType == Truthy(options.placeType)
    ensures p.openNow <==> options.openNow == Some(true)
  {
    var radius := options.radius.GetOr(DefaultRadius);
    var rankBy := options.rankBy.GetOr(DefaultRankBy);
    SearchParams(
      location,
      if radius != 0 && rankBy != "distance" then Some(radius) else None,
      rankBy == "distance",
      Truthy(options.keyword),
      Truthy(options.placeType),
      options.openNow.GetOr(false))
  }

  /** `place.rating >= minRating`: a place without a rating fails the comparison. */
  predicate RatedAtLeast(place: Place, minRating: real)
  {
    place.rating.Some? && place.rating.value >= minRating
  }

  /** The places rated at least `minRating`, in order: a sub-multiset of the input. */
  function FilterRated(places: seq<Place>, minRating: real): (r: seq<Place>)
    ensures |r| <= |places|
    ensures multiset(r) <= multiset(places)
  {
    if |places| == 0 then []
    else
      var init, last := places[..|places| - 1], places[|places| - 1];
      assert places == init + [last];
      FilterRated(init, minRating) + (if RatedAtLeast(last, minRating) then [last] else [])
  }

  /** `rating || 3.0`: an absent or zero rating counts as 3.0. */
  function EffectiveRating(place: Place): (r: real)
    ensures place.rating.Some? && place.rating.value != 0.0 ==> r == place.rating.value
    ensures place.rating.None? || place.rating.value == 0.0 ==> r == 3.0
  {
    if place.rating.Some? && place.rating.value != 0.0 then place.rating.value else 3.0
  }

  /** `(rating || 3.0) * 100 - distance`. */
  function VenueScore(center: LatLng, place: Place, distM: (LatLng, LatLng) -> real): real
  {
    EffectiveRating(place) * 100.0 - distM(center, place.location)
  }

  /** Comparator `scoreB - scoreA` as an ascending key: the negated score. */
  function RankKey(center: LatLng, distM: (LatLng, LatLng) -> real): Place -> Ext
  {
    (place: Place) => Fin(-VenueScore(center, place, distM))
  }

  /**
   * The places kept by the rating filter: all of them unless `minRating` is
   * positive, and then exactly those rated at least `minRating`.
   */
  function Kept(places: seq<Place>, minRating: real): (r: seq<Place>)
    ensures forall p :: p in r <==> p in places && (minRating > 0.0 ==> RatedAtLeast(p, minRating))
    ensures multiset(r) <= multiset(places)
  {
    if minRating > 0.0 then
      FilterRatedMembers(places, minRating);
      FilterRated(places, minRating)
    else places
  }

  function SearchVenues(center: LatLng, options: SearchOptions, nearby: NearbyProvider,
                        distM: (LatLng, LatLng) -> real): (r: seq<Place>)
    ensures nearby(Params(center, options)).PlacesFailed? ==> r == []
    ensures nearby(Params(center, options)).PlacesOk? && nearby(Params(center, options)).results == [] ==> r == []
    ensures |r| <= options.maxResults.GetOr(DefaultMaxResults)
    ensures forall p :: p in r ==> nearby(Params(center, options)).PlacesOk? && p in nearby(Params(center, options)).results
    ensures options.minRating.GetOr(DefaultMinRating) > 0.0 ==>
      forall p :: p in r ==> RatedAtLeast(p, options.minRating.GetOr(DefaultMinRating))
    ensures forall i, j :: 0 <= i < j < |r| ==> VenueScore(center, r[i], distM) >= VenueScore(center, r[j], distM)
    ensures nearby(Params(center, options)).PlacesOk? ==>
      var kept := Kept(nearby(Params(center, options)).results, options.minRating.GetOr(DefaultMinRating));
      |r| == (if |kept| < options.maxResults.GetOr(DefaultMaxResults) then |kept| else options.maxResults.GetOr(DefaultMaxResults)) &&
      multiset(r) <= multiset(kept) &&
      forall i, q :: 0 <= i < |r| && q in kept && q !in r ==> VenueScore(center, r[i], distM) >= VenueScore(center, q, distM)
  {
    var minRating := options.minRating.GetOr(DefaultMinRating);
    var maxResults := options.maxResults.GetOr(DefaultMaxResults);
    match nearby(Params(center, options))
    case PlacesFailed => []
    case PlacesOk(results) =>
      if |results| == 0 then []
      else
        var kept := Kept(results, minRating);
        var sorted := SortedByKey(kept, RankKey(center, distM));
        var n := if |sorted| < maxResults then |sorted| else maxResults;
        SortedByKeyIsSorted(kept, RankKey(center, distM));
        SortedByKeyPermutes(kept, RankKey(center, distM));
        SortedPrefixByScore(center, distM, sorted, n);
        PrefixMembers(sorted, kept, n);
        TopScored(center, distM, sorted, kept, n);
        sorted[..n]
  }

  /**
   * The sort is stable, so among places of equal score the answer's order
   * decides which survive the cut: those returned are the first ones of that
   * score in the answer, in the answer's order.
   */
  lemma {:induction false} SearchVenuesStable(center: LatLng, options: SearchOptions, nearby: NearbyProvider,
                                              distM: (LatLng, LatLng) -> real)
    requires nearby(Params(center, options)).PlacesOk?
    ensures forall k ::
      (WithKey(SearchVenues(center, options, nearby, distM), RankKey(center, distM), k) <=
       WithKey(Kept(nearby(Params(center, options)).results, options.minRating.GetOr(DefaultMinRating)), RankKey(center, distM), k))
  {
    var key := RankKey(center, distM);
    var kept := Kept(nearby(Params(center, options)).results, options.minRating.GetOr(DefaultMinRating));
    var r := SearchVenues(center, options, nearby, distM);
    if |nearby(Params(center, options)).results| > 0 {
      var sorted := SortedByKey(kept, key);
      var maxResults := options.maxResults.GetOr(DefaultMaxResults);
      var n := if |sorted| < maxResults then |sorted| else maxResults;
      assert r == sorted[..n];
      forall k ensures WithKey(r, key, k) <= WithKey(kept, key, k) {
        WithKeyPrefix(sorted, key, k, n);
        SortedByKeyIsStable(kept, key, k);
      }
    } else {
      forall k ensures WithKey(r, key, k) <= WithKey(kept, key, k) {
        assert r == [];
      }
    }
  }

  /**
   * The prefix of a descending sort holds the best-scored places: none left
   * out scores higher than any kept, and none is invented.
   */
  lemma {:induction false} TopScored(center: LatLng, distM: (LatLng, LatLng) -> real,
                                     sorted: seq<Place>, kept: seq<Place>, n: nat)
    requires n <= |sorted| && SortedBy(sorted, RankKey(center, distM))
    requires multiset(sorted) == multiset(kept)
    ensures multiset(sorted[..n]) <= multiset(kept)
    ensures forall i, q :: 0 <= i < n && q in kept && q !in sorted[..n] ==>
      VenueScore(center, sorted[..n][i], distM) >= VenueScore(center, q, distM)
  {
    assert sorted == sorted[..n] + sorted[n..];
    forall i, q | 0 <= i < n && q in kept && q !in sorted[..n]
      ensures VenueScore(center, sorted[..n][i], distM) >= VenueScore(center, q, distM)
    {
      assert q in multiset(sorted);
      forall k | 0 <= k < n ensures sorted[k] != q {
        assert sorted[..n][k] == sorted[k];
      }
      var j :| 0 <= j < |sorted| && sorted[j] == q;
      assert Le(RankKey(center, distM)(sorted[i]), RankKey(center, distM)(sorted[j]));
    }
  }

  /**
   * The score trades rating against distance: a place scores at least as
   * high as another exactly when it is no more than 100 m farther per point
   * of rating it has over the other.
   */
  lemma {:induction false} VenueScoreTradeOff(center: LatLng, a: Place, b: Place, distM: (LatLng, LatLng) -> real)
    ensures VenueScore(center, a, distM) >= VenueScore(center, b, distM) <==>
      distM(center, a.location) - distM(center, b.location) <= 100.0 * (EffectiveRating(a) - EffectiveRating(b))
    ensures distM(center, a.location) == distM(center, b.location) ==>
      (VenueScore(center, a, distM) > VenueScore(center, b, distM) <==> EffectiveRating(a) > EffectiveRating(b))
    ensures EffectiveRating(a) == EffectiveRating(b) ==>
      (VenueScore(center, a, distM) > VenueScore(center, b, distM) <==> distM(center, a.location) < distM(center, b.location))
  {
  }

  /** Exactly the places rated at least `minRating` survive the filter. */
  lemma {:induction false} FilterRatedMembers(places: seq<Place>, minRating: real)
    ensures forall p :: p in FilterRated(places, minRating) <==> p in places && RatedAtLeast(p, minRating)
  {
    if |places| > 0 {
      var n := |places| - 1;
      FilterRatedMembers(places[..n], minRating);
      assert places == places[..n] + [places[n]];
    }
  }

  lemma {:induction false} SortedPrefixByScore(center: LatLng, distM: (LatLng, LatLng) -> real, sorted: seq<Place>, n: nat)
    requires n <= |sorted| && SortedBy(sorted, RankKey(center, distM))
    ensures forall i, j :: 0 <= i < j < n ==>
      VenueScore(center, sorted[..n][i], distM) >= VenueScore(center, sorted[..n][j], distM)
  {
    forall i, j | 0 <= i < j < n
      ensures VenueScore(center, sorted[..n][i], distM) >= VenueScore(center, sorted[..n][j], distM)
    {
      assert Le(RankKey(center, distM)(sorted[i]), RankKey(center, distM)(sorted[j]));
    }
  }

  lemma {:induction false} PrefixMembers(sorted: seq<Place>, kept: seq<Place>, n: nat)
    requires n <= |sorted| && multiset(sorted) == multiset(kept)
    ensures forall p :: p in sorted[..n] ==> p in kept
  {
    forall p | p in sorted[..n] ensures p in kept {
      assert p in multiset(sorted);
    }
  }
}
