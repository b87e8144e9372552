/**
 * The `POST /compute-location` handler: validate the request, compute the
 * weighted epicenter, run the grid search around it, look for venues around
 * the best grid point, score each venue by the participants' travel times and
 * answer with the fairest venue (or, when no venue was found, the best grid
 * point itself). `Respond` is the handler as a function; `ComputeLocation` follows
 * the handler step by step and is proved equal to it.
 */
module Endpoint {
  import opened Wrappers
  import opened ExtReal
  import opened Geo
  import opened Metrics
  import opened StableSort
  import opened Epicenter
  import opened GridSearch
  import opened Venues

  /** The request body; `venueType` defaults to the empty string. */
  datatype Request = Request(locations: seq<Location>, venueType: Option<string>)

  /** The outside services and numerics the handler relies on. */
  datatype Providers = Providers(
    geocode: string -> Option<LatLng>,
    travel: TravelProvider,
    nearby: NearbyProvider,
    reverseGeocode: LatLng -> Option<string>,
    distKm: (LatLng, LatLng) -> real,
    distM: (LatLng, LatLng) -> real,
    sqrt: real -> real)

  /** `venue.rating || "Not rated"`. */
  datatype Rating = Rated(value: real) | NotRated

  /** A venue with its participants' travel results and their metrics. */
  datatype VenueResult = VenueResult(
    name: string,
    address: Option<string>,
    location: LatLng,
    placeId: string,
    rating: Rating,
    userRatingsTotal: nat,
    priceLevel: Option<nat>,
    travelDetails: seq<Travel>,
    metrics: Metrics)

  datatype Alternative = Alternative(
    name: string,
    address: Option<string>,
    location: LatLng,
    averageTime: Ext,
    placeId: string,
    rating: Rating)

  /**
   * The answer: the best grid point when no venue was found (`placeId` null,
   * no rating, no alternatives), otherwise the fairest venue and up to three
   * runners-up.
   */
  datatype BestLocation =
    | Fallback(name: string, address: Option<string>, location: LatLng, travelTimes: seq<Ext>, averageTime: Ext)
    | Venue(name: string, address: Option<string>, location: LatLng, travelTimes: seq<Ext>,
            averageTime: Ext, placeId: string, rating: Rating, userRatingsTotal: nat,
            alternativeVenues: seq<Alternative>)

  datatype Response =
    | BadRequest(error: string)
    | ServerError(error: string)
    | Ok(bestLocation: BestLocation)

  const TooFewLocations: string := "At least two locations are required."
  const NoEpicenter: string := "Unable to compute epicenter from the given addresses."
  const FallbackName: string := "Meeting Point"
  const DefaultKeyword: string := "restaurant,cafe,bar"
  const VenueRadius: nat := 600
  const VenueMinRating: real := 3.8
  const VenueMaxResults: nat := 10
  const MaxAlternatives: nat := 3

  /** What the handler takes for granted about its inputs (see the README). */
  ghost predicate Assumptions(req: Request, p: Providers)
  {
    NonNegativeDistance(p.distKm) && SpreadWhenWeighted(req.locations, p.geocode, p.distKm)
  }

  /** `venueType || "restaurant,cafe,bar"`. */
  function Keyword(venueType: Option<string>): (k: string)
    ensures k == DefaultKeyword <==> venueType.None? || venueType.value == "" || venueType.value == DefaultKeyword
    ensures venueType.Some? && venueType.value != "" ==> k == venueType.value
  {
    if venueType.Some? && venueType.value != "" then venueType.value else DefaultKeyword
  }

  /**
   * The venue search around the meeting point: within 600 m, ranked by
   * prominence, for the keyword, not only open places, rated 3.8 or more, at
   * most 10.
   */
  function VenueOptions(venueType: Option<string>): (o: SearchOptions)
    ensures forall point :: Params(point, o) == SearchParams(point, Some(VenueRadius), false, Some(Keyword(venueType)), None, false)
    ensures o.minRating.GetOr(DefaultMinRating) == VenueMinRating
    ensures o.maxResults.GetOr(DefaultMaxResults) == VenueMaxResults
  {
    SearchOptions(Some(Keyword(venueType)), None, Some(VenueRadius), None,
                  Some(VenueMinRating), None, Some(VenueMaxResults))
  }

  function RatingOf(place: Place): (r: Rating)
    ensures r.NotRated? <==> place.rating.None? || place.rating.value == 0.0
    ensures r.Rated? ==> place.rating == Some(r.value)
  {
    if place.rating.Some? && place.rating.value != 0.0 then Rated(place.rating.value) else NotRated
  }

  /** `vicinity || formatted_address`. */
  function AddressOf(place: Place): (a: Option<string>)
    ensures place.vicinity.Some? && place.vicinity.value != "" ==> a == place.vicinity
    ensures place.vicinity.None? || place.vicinity.value == "" ==> a == place.formattedAddress
  {
    if place.vicinity.Some? && place.vicinity.value != "" then place.vicinity else place.formattedAddress
  }

  /** A found venue scored by the travel times from every participant to it. */
  function Score(place: Place, locations: seq<Location>, travel: TravelProvider, sqrt: real -> real): VenueResult
  {
    var details := TravelResults(locations, place.location, travel);
    VenueResult(place.name, AddressOf(place), place.location, place.placeId, RatingOf(place),
                place.userRatingsTotal.GetOr(0), place.priceLevel, details,
                ComputeMetrics(Durations(details), sqrt))
  }

  function Scored(places: seq<Place>, locations: seq<Location>, travel: TravelProvider,
                  sqrt: real -> real): (vs: seq<VenueResult>)
    ensures |vs| == |places|
  {
    seq(|places|, k requires 0 <= k < |places| => Score(places[k], locations, travel, sqrt))
  }

  /** The sort key `a.metrics.fairnessScore - b.metrics.fairnessScore`. */
  function VenueFairness(v: VenueResult): Ext
  {
    v.metrics.fairnessScore
  }

  function AlternativeOf(v: VenueResult): Alternative
  {
    Alternative(v.name, v.address, v.location, v.metrics.averageDuration, v.placeId, v.rating)
  }

  /** `venueResults.slice(1, 4)`, projected. */
  function Alternatives(ranked: seq<VenueResult>): (alts: seq<Alternative>)
    requires |ranked| > 0
    ensures |alts| == if |ranked| <= MaxAlternatives then |ranked| - 1 else MaxAlternatives
    ensures forall k :: 0 <= k < |alts| ==> alts[k] == AlternativeOf(ranked[k + 1])
  {
    var end := if |ranked| < MaxAlternatives + 1 then |ranked| else MaxAlternatives + 1;
    seq(end - 1, k requires 0 <= k < end - 1 => AlternativeOf(ranked[k + 1]))
  }

  /** The answer built from the fairest venue, with the next ones as alternatives. */
  function BestVenue(ranked: seq<VenueResult>): (b: BestLocation)
    requires |ranked| > 0
    ensures b.Venue? && b.placeId == ranked[0].placeId && b.name == ranked[0].name
    ensures b.location == ranked[0].location && b.rating == ranked[0].rating
    ensures b.travelTimes == Durations(ranked[0].travelDetails) && b.averageTime == ranked[0].metrics.averageDuration
    ensures b.address == ranked[0].address && b.userRatingsTotal == ranked[0].userRatingsTotal
    ensures b.alternativeVenues == Alternatives(ranked)
    ensures |b.alternativeVenues| == if |ranked| <= MaxAlternatives then |ranked| - 1 else MaxAlternatives
    ensures forall k :: 0 <= k < |b.alternativeVenues| ==> b.alternativeVenues[k].placeId == ranked[k + 1].placeId
  {
    var v := ranked[0];
    Venue(v.name, v.address, v.location, Durations(v.travelDetails), v.metrics.averageDuration,
          v.placeId, v.rating, v.userRatingsTotal, Alternatives(ranked))
  }

  /**
   * The answer built from the best grid point when no venue was found: named
   * "Meeting Point", addressed by reverse geocoding or by that name again,
   * with every participant's travel time to the point and their mean.
   */
  function FallbackAt(point: LatLng, locations: seq<Location>, p: Providers): (f: BestLocation)
    ensures f.Fallback? && f.name == FallbackName && f.location == point
    ensures p.reverseGeocode(point).Some? ==> f.address == p.reverseGeocode(point)
    ensures p.reverseGeocode(point).None? ==> f.address == Some(FallbackName)
    ensures |f.travelTimes| == |locations|
    ensures forall i :: 0 <= i < |locations| ==>
      f.travelTimes[i] == FromResponse(p.travel(locations[i].address, point, locations[i].transport)).duration
    ensures f.averageTime == Average(f.travelTimes)
  {
    var travelTimes := Durations(TravelResults(locations, point, p.travel));
    Fallback(FallbackName, Some(p.reverseGeocode(point).GetOr(FallbackName)), point, travelTimes, Average(travelTimes))
  }

  // ------------------------------------------------ the handler as a function

  /** The epicenter of the request's participants. */
  function EpicenterFor(req: Request, p: Providers): EpicenterResult
    requires Assumptions(req, p)
  {
    EpicenterOf(Geocoded(req.locations, p.geocode), p.distKm)
  }

  /** The best grid point around the epicenter. */
  function MeetingCandidate(req: Request, p: Providers): Candidate
    requires Assumptions(req, p) && !EpicenterFor(req, p).NoGeocode?
  {
    Ranking(EpicenterFor(req, p).Point(), req.locations, p.travel, p.sqrt)[0]
  }

  /** The venues found around the best grid point. */
  function FoundVenues(req: Request, p: Providers): seq<Place>
    requires Assumptions(req, p) && !EpicenterFor(req, p).NoGeocode?
  {
    SearchVenues(MeetingCandidate(req, p).point, VenueOptions(req.venueType), p.nearby, p.distM)
  }

  /** The found venues, fairest first, ties in search order. */
  function RankedVenues(req: Request, p: Providers): seq<VenueResult>
    requires Assumptions(req, p) && !EpicenterFor(req, p).NoGeocode?
  {
    SortedByKey(Scored(FoundVenues(req, p), req.locations, p.travel, p.sqrt), VenueFairness)
  }

  /**
   * The handler's answer: 400 exactly when fewer than two participants are
   * named, 500 when none of their addresses geocodes, otherwise 200.
   */
  function Respond(req: Request, p: Providers): (r: Response)
    requires Assumptions(req, p)
    ensures r.BadRequest? <==> |req.locations| < 2
    ensures r.BadRequest? ==> r.error == TooFewLocations
    ensures r.ServerError? <==> |req.locations| >= 2 && |Geocoded(req.locations, p.geocode)| == 0
    ensures r.ServerError? ==> r.error == NoEpicenter
  {
    if |req.locations| < 2 then BadRequest(TooFewLocations)
    else if EpicenterFor(req, p).NoGeocode? then ServerError(NoEpicenter)
    else
      var ranked := RankedVenues(req, p);
      if |ranked| == 0 then Ok(FallbackAt(MeetingCandidate(req, p).point, req.locations, p))
      else Ok(BestVenue(ranked))
  }

  // --------------------------------------------------------- the handler

  method ComputeLocation(req: Request, p: Providers) returns (resp: Response)
    requires Assumptions(req, p)
    ensures resp == Respond(req, p)
  {
    if |req.locations| < 2 {
      return BadRequest(TooFewLocations);
    }
    var epicenter := ComputeWeightedEpicenter(req.locations, p.geocode, p.distKm);
    if epicenter.NoGeocode? {
      return ServerError(NoEpicenter);
    }
    var bestCandidate, allCandidates := PerformGridSearch(epicenter.Point(), req.locations, p.travel, p.sqrt);
    assert bestCandidate == MeetingCandidate(req, p);
    var venues := SearchVenues(bestCandidate.point, VenueOptions(req.venueType), p.nearby, p.distM);
    var ranked := RankVenues(venues, req.locations, p.travel, p.sqrt);
    assert ranked == RankedVenues(req, p);
    if |ranked| == 0 {
      var point := bestCandidate.point;
      var fallbackAddress := FallbackName;
      var address := p.reverseGeocode(point);
      if address.Some? {
        fallbackAddress := address.value;
      }
      var travelTimes := Durations(TravelResults(req.locations, point, p.travel));
      resp := Ok(Fallback(FallbackName, Some(fallbackAddress), point, travelTimes, Average(travelTimes)));
    } else {
      resp := Ok(BestVenue(ranked));
    }
  }

  /** Score every found venue into an array and sort it in place by fairness. */
  method RankVenues(venues: seq<Place>, locations: seq<Location>, travel: TravelProvider, sqrt: real -> real)
    returns (ranked: seq<VenueResult>)
    ensures ranked == SortedByKey(Scored(venues, locations, travel, sqrt), VenueFairness)
  {
    var venueResults := new VenueResult[|venues|](
      k requires 0 <= k < |venues| => Score(venues[k], locations, travel, sqrt));
    assert venueResults[..] == Scored(venues, locations, travel, sqrt);
    SortInPlace(venueResults, VenueFairness);
    ranked := venueResults[..];
  }

  // ---------------------------------------------------------------- lemmas

  /** The handler fails with 500 exactly when no participant's address geocodes. */
  lemma {:induction false} ServerErrorIff(req: Request, p: Providers)
    requires Assumptions(req, p)
    ensures Respond(req, p).ServerError? <==>
      |req.locations| >= 2 && forall k :: 0 <= k < |req.locations| ==> p.geocode(req.locations[k].address).None?
  {
    if forall k :: 0 <= k < |req.locations| ==> p.geocode(req.locations[k].address).None? {
      GeocodedNone(req.locations, p.geocode);
    } else {
      var k :| 0 <= k < |req.locations| && p.geocode(req.locations[k].address).Some?;
      var x := Attach(req.locations[k], p.geocode(req.locations[k].address).value);
      GeocodedMembers(req.locations, p.geocode, x);
      assert x in Geocoded(req.locations, p.geocode);
    }
  }

  /** Every ranked venue is a found venue, scored. */
  lemma {:induction false} RankedAreScored(req: Request, p: Providers, v: VenueResult)
    requires Assumptions(req, p) && !EpicenterFor(req, p).NoGeocode?
    requires v in RankedVenues(req, p)
    ensures exists k :: 0 <= k < |FoundVenues(req, p)| && v == Score(FoundVenues(req, p)[k], req.locations, p.travel, p.sqrt)
  {
    var found := FoundVenues(req, p);
    var scored := Scored(found, req.locations, p.travel, p.sqrt);
    SortedFromInput(scored, VenueFairness, v);
    var k :| 0 <= k < |scored| && scored[k] == v;
    assert v == Score(found[k], req.locations, p.travel, p.sqrt);
  }

  /**
   * The reported travel times line up with the request: entry `i` is the
   * duration the travel provider gives from participant `i`, with that
   * participant's mode, to the reported location.
   */
  lemma {:induction false} TravelTimesAligned(req: Request, p: Providers)
    requires Assumptions(req, p) && Respond(req, p).Ok?
    ensures var best := Respond(req, p).bestLocation;
      |best.travelTimes| == |req.locations| &&
      forall i :: 0 <= i < |req.locations| ==>
        best.travelTimes[i] == FromResponse(p.travel(req.locations[i].address, best.location, req.locations[i].transport)).duration
  {
    var ranked := RankedVenues(req, p);
    if |ranked| > 0 {
      RankedAreScored(req, p, ranked[0]);
      var found := FoundVenues(req, p);
      var k :| 0 <= k < |found| && ranked[0] == Score(found[k], req.locations, p.travel, p.sqrt);
      ScoreTimesAligned(found[k], req.locations, p.travel, p.sqrt);
    }
  }

  /** A scored venue's travel times are the provider's durations from each participant to it. */
  lemma {:induction false} ScoreTimesAligned(place: Place, locations: seq<Location>, travel: TravelProvider, sqrt: real -> real)
    ensures var v := Score(place, locations, travel, sqrt);
      v.location == place.location &&
      |Durations(v.travelDetails)| == |locations| &&
      forall i :: 0 <= i < |locations| ==>
        Durations(v.travelDetails)[i] == FromResponse(travel(locations[i].address, v.location, locations[i].transport)).duration
  {
  }

  /** The reported average is the mean of the finite reported travel times. */
  lemma {:induction false} AverageIsMean(req: Request, p: Providers)
    requires Assumptions(req, p) && Respond(req, p).Ok?
    ensures Respond(req, p).bestLocation.averageTime == Average(Respond(req, p).bestLocation.travelTimes)
  {
    var ranked := RankedVenues(req, p);
    if |ranked| > 0 {
      RankedAreScored(req, p, ranked[0]);
    }
  }

  /**
   * Without a venue, the answer is the best grid point under the name
   * "Meeting Point", with its reverse-geocoded address or that name again.
   */
  lemma {:induction false} FallbackIff(req: Request, p: Providers)
    requires Assumptions(req, p) && Respond(req, p).Ok?
    ensures Respond(req, p).bestLocation.Fallback? <==> FoundVenues(req, p) == []
    ensures var best := Respond(req, p).bestLocation;
      best.Fallback? ==>
        best.name == FallbackName &&
        best.location == MeetingCandidate(req, p).point &&
        best.location in Grid(EpicenterFor(req, p).Point()) &&
        (best.address == p.reverseGeocode(best.location) || (p.reverseGeocode(best.location).None? && best.address == Some(FallbackName)))
  {
    var center := EpicenterFor(req, p).Point();
    var cs := Candidates(center, req.locations, p.travel, p.sqrt);
    SortedByKeyPermutes(cs, CandidateFairness);
    assert MeetingCandidate(req, p) in multiset(cs);
  }

  /**
   * The chosen venue is the fairest one found, and the alternatives are the
   * next ones in fairness order.
   */
  lemma {:induction false} FairestVenueFirst(req: Request, p: Providers)
    requires Assumptions(req, p) && Respond(req, p).Ok? && Respond(req, p).bestLocation.Venue?
    ensures var ranked := RankedVenues(req, p);
      |ranked| > 0 && Respond(req, p).bestLocation.placeId == ranked[0].placeId &&
      (forall v :: v in Scored(FoundVenues(req, p), req.locations, p.travel, p.sqrt) ==>
        Le(VenueFairness(ranked[0]), VenueFairness(v))) &&
      (forall i, j :: 0 <= i < j < |ranked| ==> Le(VenueFairness(ranked[i]), VenueFairness(ranked[j])))
  {
    var scored := Scored(FoundVenues(req, p), req.locations, p.travel, p.sqrt);
    var ranked := RankedVenues(req, p);
    SortedByKeyIsSorted(scored, VenueFairness);
    SortedByKeyPermutes(scored, VenueFairness);
    forall v | v in scored ensures Le(VenueFairness(ranked[0]), VenueFairness(v)) {
      assert v in multiset(ranked);
      var i :| 0 <= i < |ranked| && ranked[i] == v;
      if i == 0 {
        LeTotalPreorder(VenueFairness(v), VenueFairness(v), VenueFairness(v));
      }
    }
  }

  /**
   * The search keeps only places rated 3.8 or more, so the chosen venue and
   * every alternative carry a rating of at least 3.8 (never "Not rated"),
   * and at most three alternatives are offered.
   */
  lemma {:induction false} VenuesWellRated(req: Request, p: Providers)
    requires Assumptions(req, p) && Respond(req, p).Ok? && Respond(req, p).bestLocation.Venue?
    ensures var best := Respond(req, p).bestLocation;
      best.rating.Rated? && best.rating.value >= VenueMinRating &&
      |best.alternativeVenues| <= MaxAlternatives &&
      forall a :: a in best.alternativeVenues ==> a.rating.Rated? && a.rating.value >= VenueMinRating
  {
    var found := FoundVenues(req, p);
    var ranked := RankedVenues(req, p);
    forall v | v in ranked ensures v.rating.Rated? && v.rating.value >= VenueMinRating {
      RankedAreScored(req, p, v);
      var k :| 0 <= k < |found| && v == Score(found[k], req.locations, p.travel, p.sqrt);
      assert found[k] in found;
    }
    var alts := Respond(req, p).bestLocation.alternativeVenues;
    forall a | a in alts ensures a.rating.Rated? && a.rating.value >= VenueMinRating {
      var k :| 0 <= k < |alts| && alts[k] == a;
      assert ranked[k + 1] in ranked;
    }
  }
}
