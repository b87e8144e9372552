# togather: a verified model of the meeting-point service

togather suggests a fair place for a group to meet. Each participant gives an
address and a travel mode. The back end (`togather-backend/server.js`) answers
`POST /compute-location` in five steps:

1. It geocodes the addresses and takes a weighted epicenter of them. The weights
   favour outlying participants and slow transport modes.
2. It scores a 5×5 grid of points around the epicenter by everyone's travel times.
3. It searches for well-rated venues around the fairest grid point.
4. It scores each venue by everyone's travel times.
5. It answers with the fairest venue and up to three alternatives. When no
   venue is found, it answers with the grid point itself, under the name
   "Meeting Point".

The fairness score is `average + 0.3·max + 0.5·standard deviation` of the finite
travel times. A failed lookup counts as `Infinity`.

The front end (`src/App.jsx`) keeps the participant list: two to eight rows,
each with an id, a colour, a travel mode, an address and a position once a
suggestion is picked. It validates the rows, posts the request and shows the
result on a map.

The project has one module per part of the program:

| file | module | models |
|---|---|---|
| `wrappers.dfy` | `Wrappers` | `Option` |
| `ext_real.dfy` | `ExtReal` | reals with `Infinity` (`Ext`) and the order JavaScript's `sort` gives them under an `a - b` comparator |
| `geo.dfy` | `Geo` | coordinates, sums and dot products, and bounds on weighted means |
| `stable_sort.dfy` | `StableSort` | `Array.prototype.sort`, as a stable sort by key (the function `SortedByKey` and the in-place array method `SortInPlace`) |
| `metrics.dfy` | `Metrics` | how a travel-time answer is read (`|| Infinity`), and the average / max / deviation / fairness metrics |
| `epicenter.dfy` | `Epicenter` | `computeWeightedEpicenter` |
| `grid_search.dfy` | `GridSearch` | `performGridSearch` |
| `venues.dfy` | `Venues` | `searchVenues` |
| `endpoint.dfy` | `Endpoint` | the `/compute-location` handler |
| `app_state.dfy` | `App` | the React state and its handlers (class `AppState`), and the map centre and zoom |

The Google services are parameters of the model: geocoding, distance matrix,
nearby search and reverse geocoding. So are the haversine distance and
`Math.sqrt`. The handler takes two things for granted about them
(`Endpoint.Assumptions`):

- distances are non-negative;
- when at least two addresses geocode, their total pairwise distance is positive.

Where the source loops over data, it is modelled as a method with loops: the
epicenter, the grid, the in-place sort and the handler. Each method is proved
equal to a pure function, and the lemmas state the properties of that
function.

## Model

| member | source | states |
|---|---|---|
| `Wrappers.Option.GetOr` | togather-backend/server.js:151 | the value when present, otherwise the default (`??`): the destructuring defaults of `searchVenues`, and `user_ratings_total || 0`, where a present 0 gives 0 either way |
| `ExtReal.LeTotalPreorder` | togather-backend/server.js:317 | the order an `a - b` comparator induces on finite scores and `Infinity` is a total preorder: reflexive, total, transitive, and it identifies only equal scores |
| `Geo.SumOfTwo` | togather-backend/server.js:79 | the total over two points is the sum of the two |
| `Geo.DotOfTwo` | togather-backend/server.js:107-109 | the weighted sum over two points is the sum of the two weighted terms |
| `Geo.SumPrefixStep` | togather-backend/server.js:109 | one more loop step adds the next weight to the running weight sum |
| `Geo.DotPrefixStep` | togather-backend/server.js:107-108 | one more loop step adds the next weighted coordinate to the running sum |
| `Geo.SumPositive` | togather-backend/server.js:113-114 | a non-empty sum of positive weights is positive, so the final division is defined |
| `Geo.SumNonNegative` | togather-backend/server.js:79 | a sum of non-negative distances is non-negative |
| `Geo.TermAtMostSum` | togather-backend/server.js:85 | each point's distance sum is at most the total, so its centrality is at most 1 |
| `Geo.DotLowerBound` | togather-backend/server.js:107-114 | with positive weights, the weighted sum is at least the least coordinate times the weight sum |
| `Geo.DotUpperBound` | togather-backend/server.js:107-114 | with positive weights, the weighted sum is at most the greatest coordinate times the weight sum |
| `Geo.DotBetween` | togather-backend/server.js:107-114 | both bounds together, with a positive weight sum |
| `Geo.DivBounds` | togather-backend/server.js:113-114 | dividing by a positive weight sum keeps the bounds |
| `Geo.WeightedMeanWithin` | togather-backend/server.js:107-114 | a positively weighted mean lies between the least and the greatest coordinate |
| `Geo.WeightedMeanWithinAll` | togather-backend/server.js:107-114 | the weight sum is positive, and the weighted mean lies inside every interval that holds all the coordinates |
| `StableSort.Insert` | togather-backend/server.js:317 | inserting one element lengthens the sorted prefix by one |
| `StableSort.InsertPermutes` | togather-backend/server.js:317 | insertion adds exactly the inserted element to the multiset |
| `StableSort.SortedByKey` | togather-backend/server.js:317 | the sort keeps the length |
| `StableSort.SortedByKeyPermutes` | togather-backend/server.js:317 | the sort is a permutation of its input |
| `StableSort.InsertSorted` | togather-backend/server.js:317 | insertion keeps a sorted sequence sorted |
| `StableSort.SortedByKeyIsSorted` | togather-backend/server.js:317 | the sort's output is ordered by key, ascending |
| `StableSort.WithKeyAppend` | togather-backend/server.js:317 | taking the elements with one key commutes with concatenation |
| `StableSort.WithKeySnoc` | togather-backend/server.js:317 | the same, for one element appended |
| `StableSort.InsertWithKey` | togather-backend/server.js:317 | insertion puts the new element after every element with an equal key |
| `StableSort.SortedByKeyIsStable` | togather-backend/server.js:317 | the sort is stable: elements with equal keys keep their input order |
| `StableSort.WithKeyHead` | togather-backend/server.js:452 | the first element with a key is the earliest input element with it |
| `StableSort.WithKeyNone` | togather-backend/server.js:452 | no element with a key means no element in that class |
| `StableSort.HeadIsFirstMinimal` | togather-backend/server.js:452 | the first element after sorting is the earliest input element with the least key |
| `StableSort.HeadIsLeast` | togather-backend/server.js:449-452 | the first element of a sorted sequence has a key no greater than that of any element |
| `StableSort.SortedFromInput` | togather-backend/server.js:317 | every element of the sorted sequence stands at some position of the input |
| `StableSort.WithKeyPrefix` | togather-backend/server.js:197 | a prefix of a sequence keeps a prefix of each key class |
| `StableSort.InsertPast` | togather-backend/server.js:317 | one shift step of the in-place insertion matches the functional insertion |
| `StableSort.InsertStop` | togather-backend/server.js:317 | insertion stops at the first element whose key is not greater |
| `StableSort.InsertInPlace` | togather-backend/server.js:317 | shifting element `i` into the sorted prefix of the array yields the functional insertion and leaves the rest unchanged |
| `StableSort.SortInPlace` | togather-backend/server.js:317 | sorting the array in place yields exactly `SortedByKey` of its old contents |
| `Metrics.OrInfinity` | togather-backend/server.js:139-140 | a missing or zero value becomes `Infinity`; any other value is kept and is positive |
| `Metrics.FromResponse` | togather-backend/server.js:136-146 | a failed call gives infinite duration and distance; otherwise each is finite exactly when the answer carries a non-zero value, and then it is that value |
| `Metrics.Finites` | togather-backend/server.js:278 | keeping only the finite times never adds an element |
| `Metrics.FinitesAppend` | togather-backend/server.js:278 | filtering out `Infinity` commutes with concatenation |
| `Metrics.FinitesEmpty` | togather-backend/server.js:278-281 | there is no valid time exactly when every time is infinite |
| `Metrics.InfiniteDurationIgnored` | togather-backend/server.js:278-295 | an infinite travel time changes none of the metrics |
| `Metrics.AllInfiniteIffInfiniteScore` | togather-backend/server.js:421-430 | the fairness score is infinite exactly when every time is, and then so are the average and the maximum |
| `Metrics.Max` | togather-backend/server.js:284 | `Math.max` bounds every time and is one of them |
| `Metrics.Average` | togather-backend/server.js:278-281 | the average is infinite exactly when every time is; otherwise it times the number of finite times is their sum |
| `Metrics.Fairness` | togather-backend/server.js:295 | with a non-negative maximum and deviation, the score is at least the average |
| `Metrics.ComputeMetrics` | togather-backend/server.js:278-295 | the average is `Average` of the times; the maximum is `Math.max` of the finite times; the deviation is the square root of the mean squared deviation from the average (`sqrt(0)` when no time is finite); the maximum and the score are infinite exactly when the average is; a finite score is the fairness combination of the average, maximum and deviation |
| `Metrics.SumAtMostCountTimes` | togather-backend/server.js:280 | values all at most a bound sum to at most their number times the bound |
| `Metrics.SumAtMostCountTimesMax` | togather-backend/server.js:280 | the sum of the valid times is at most their number times the maximum |
| `Metrics.DivAtMost` | togather-backend/server.js:280 | dividing that bound by the count gives the maximum |
| `Metrics.AverageAtMostMax` | togather-backend/server.js:279-285 | with one valid time or more, average and maximum are finite and the average is at most the maximum |
| `Metrics.FinitesNonNegative` | togather-backend/server.js:278 | the valid times of non-negative durations are non-negative |
| `Metrics.FairnessAtLeastAverage` | togather-backend/server.js:288-295 | with non-negative durations and square roots, a finite average gives a finite fairness score at least as large |
| `Metrics.DeviationNonNegative` | togather-backend/server.js:288-291 | with a square root non-negative on non-negative input, the standard deviation is non-negative |
| `Metrics.FairnessMonotone` | togather-backend/server.js:295 | a point worse on all three metrics has a strictly higher score |
| `Metrics.LookupDurationsNonNegative` | togather-backend/server.js:139-145 | every duration read from a lookup is non-negative or infinite |
| `Epicenter.Geocoded` | togather-backend/server.js:39-48 | geocoding never adds a participant |
| `Epicenter.GeocodedAppend` | togather-backend/server.js:39-48 | geocoding two lists in turn is geocoding their concatenation, in order |
| `Epicenter.GeocodedMembers` | togather-backend/server.js:39-47 | a geocoded entry is exactly a participant whose address geocoded, with its coordinates, mode and address |
| `Epicenter.GeocodedNone` | togather-backend/server.js:39-50 | when no address geocodes, nothing survives (`null` follows) |
| `Epicenter.OneSurvivor` | togather-backend/server.js:39-51 | when exactly one address geocodes, the epicenter is that participant itself |
| `Epicenter.DistanceSums` | togather-backend/server.js:54-76 | there is one distance sum per geocoded point |
| `Epicenter.PartialDistanceSumNonNegative` | togather-backend/server.js:57-75 | each distance sum is non-negative |
| `Epicenter.TransportFactor` | togather-backend/server.js:97-104 | the factor is 0.7 exactly for driving, 0.85 exactly for transit, 1.1 exactly for bicycling, 1.3 exactly for walking, and 1.0 exactly for any other mode |
| `Epicenter.Centralities` | togather-backend/server.js:82-86 | there is one centrality weight per point |
| `Epicenter.CentralityWithin` | togather-backend/server.js:85 | each centrality weight lies between 0.4 and 1.0 |
| `Epicenter.FinalWeights` | togather-backend/server.js:106 | there is one final weight per point |
| `Epicenter.WeightsPositive` | togather-backend/server.js:85-106 | every final weight lies between 0.28 and 1.3, so all are positive |
| `Epicenter.EpicenterWithin` | togather-backend/server.js:88-116 | with two points or more, the epicenter is a weighted one and lies within the participants' bounding box |
| `Epicenter.WeightedCenter` | togather-backend/server.js:88-116 | the weighted centre lies inside every interval that holds all the latitudes, and inside every interval that holds all the longitudes |
| `Epicenter.EpicenterOf` | togather-backend/server.js:35-117 | no geocoded participant gives nothing, exactly one gives that participant, and two or more give a weighted centre that keeps the geocoded participants and lies inside every interval holding their latitudes (and longitudes) |
| `Epicenter.TwoPointEqualWeights` | togather-backend/server.js:53-106 | two participants with the same mode get equal weights |
| `Epicenter.TwoPointMidpoint` | togather-backend/server.js:53-116 | two participants with the same mode meet at their midpoint |
| `Epicenter.MidpointArithmetic` | togather-backend/server.js:113-114 | equal weights make the weighted mean of two values their midpoint |
| `Epicenter.ComputeWeightedEpicenter` | togather-backend/server.js:35-117 | the method's result is the function `EpicenterOf` of the geocoded participants: nothing, the single one, or the weighted centre |
| `Epicenter.GeocodeAll` | togather-backend/server.js:36-48 | the geocoding loop builds `Geocoded` |
| `Epicenter.PairwiseDistanceSums` | togather-backend/server.js:54-76 | the nested loop builds each point's sum of distances to the others |
| `Epicenter.ApplyWeights` | togather-backend/server.js:78-116 | the weighting loop and the division give `WeightedCenter` |
| `Epicenter.WeightedSums` | togather-backend/server.js:89-110 | the loop's three running sums are the weighted latitude, the weighted longitude and the weight total |
| `GridSearch.Grid` | togather-backend/server.js:396-406 | the grid has 25 points |
| `GridSearch.GridCandidates` | togather-backend/server.js:396-406 | the nested loop yields the grid, latitude offset outer, longitude offset inner |
| `GridSearch.GridPoint` | togather-backend/server.js:397-404 | each grid point is offset from the epicenter by one of the five deltas on each axis, so lies within 0.008° of it |
| `GridSearch.GridDistinct` | togather-backend/server.js:397-406 | the 25 grid points are pairwise distinct |
| `GridSearch.TravelResults` | togather-backend/server.js:413-418 | there is one travel result per participant, in order: the provider's answer for that participant's address and mode to the point |
| `GridSearch.Durations` | togather-backend/server.js:369 | there is one duration per travel result, in order |
| `GridSearch.Candidates` | togather-backend/server.js:409-446 | there is one candidate per grid point, in grid order: the evaluation of that point |
| `GridSearch.Evaluate` | togather-backend/server.js:409-446 | a candidate keeps its point and has one travel result per participant, the provider's answer for that participant's address and mode; its metrics are `ComputeMetrics` of those durations, so it scores `Infinity` exactly when every duration is infinite |
| `GridSearch.Ranking` | togather-backend/server.js:449 | the ranking holds the 25 candidates, as a permutation, sorted by fairness score |
| `GridSearch.RankedFromGrid` | togather-backend/server.js:396-452 | every ranked candidate stands on a grid point |
| `GridSearch.PerformGridSearch` | togather-backend/server.js:394-455 | the candidates come back sorted by fairness, 25 of them; the best is the first, has a score no greater than any other, and is a grid point |
| `GridSearch.BestIsEarliestMinimal` | togather-backend/server.js:449-452 | the best candidate is the earliest grid point, in grid order, with the least score |
| `GridSearch.SortedAllEqualKeys` | togather-backend/server.js:449 | sorting a sequence whose keys are all equal leaves it unchanged |
| `GridSearch.WithKeyAll` | togather-backend/server.js:449 | when all keys are equal, the elements with that key are the whole sequence |
| `GridSearch.FailedLookupsScoreInfinity` | togather-backend/server.js:421-430 | a point no trip can be looked up for scores `Infinity` |
| `GridSearch.CandidatesScoreInfinity` | togather-backend/server.js:421-430 | when every lookup fails, all 25 candidates score `Infinity` |
| `GridSearch.FirstGridPoint` | togather-backend/server.js:397-404 | the first grid point is the south-west corner, 0.008° below the epicenter on both axes |
| `GridSearch.AllLookupsFail` | togather-backend/server.js:421-452 | when every lookup fails, every candidate scores `Infinity` and the best is the first grid point (south-west corner) |
| `Venues.Truthy` | togather-backend/server.js:159-160 | an option is sent exactly when present and non-empty, and then unchanged |
| `Venues.Params` | togather-backend/server.js:151-161 | the query is centred on the point; it ranks by distance exactly when asked to; it carries a radius (default 1000) exactly when that radius is non-zero and ranking is not by distance; keyword and type are sent exactly when non-empty; open-now is sent exactly when asked for |
| `Venues.FilterRated` | togather-backend/server.js:170-173 | the rating filter never adds a place, nor repeats one more often than the answer does |
| `Venues.FilterRatedMembers` | togather-backend/server.js:172 | exactly the places with a rating at least the minimum pass the filter |
| `Venues.Kept` | togather-backend/server.js:170-173 | the kept places are exactly the answer's places rated at least the minimum when it is positive, and all of them otherwise, none more often than in the answer |
| `Venues.EffectiveRating` | togather-backend/server.js:191-192 | a missing or zero rating counts as 3.0; any other rating is kept |
| `Venues.VenueScoreTradeOff` | togather-backend/server.js:188-194 | one place scores at least as high as another exactly when it is at most 100 m farther per rating point it has over the other; at equal distance the better rated, and at equal rating the nearer, scores higher |
| `Venues.SortedPrefixByScore` | togather-backend/server.js:176-197 | a prefix of the sorted places is ordered by score, descending |
| `Venues.PrefixMembers` | togather-backend/server.js:197 | a prefix of a permutation holds only places of the original |
| `Venues.TopScored` | togather-backend/server.js:176-197 | the first places of the descending sort score at least as high as any kept place left out, and are drawn from the kept places |
| `Venues.SearchVenuesStable` | togather-backend/server.js:176-197 | among places of equal score, those returned are the first ones of that score in the answer, in the answer's order |
| `Venues.SearchVenues` | togather-backend/server.js:150-204 | a failed or empty answer gives no venue; otherwise the result has min(kept, maxResults) places (default 5), drawn from the kept places, all rated at least the minimum when it is positive, in descending `(rating or 3.0)·100 − distance` order, and no kept place left out scores higher than a returned one |
| `Endpoint.Keyword` | togather-backend/server.js:249 | the venue type is used when non-empty, otherwise "restaurant,cafe,bar" |
| `Endpoint.VenueOptions` | togather-backend/server.js:248-253 | the venue query is a 600 m search for the keyword, ranked by prominence, with no type and no open-now filter; it keeps places rated 3.8 or more, at most 10 |
| `Endpoint.RatingOf` | togather-backend/server.js:303 | a missing or zero rating is reported as not rated; any other rating is kept |
| `Endpoint.AddressOf` | togather-backend/server.js:300 | the vicinity is used when non-empty, otherwise the formatted address |
| `Endpoint.Scored` | togather-backend/server.js:259-314 | there is one scored result per venue |
| `Endpoint.Alternatives` | togather-backend/server.js:375-382 | the alternatives are the second to fourth venues in fairness order (as many as exist), projected field by field |
| `Endpoint.BestVenue` | togather-backend/server.js:364-383 | the answer is the first ranked venue: its name, address, place id, location, rating, rating count, travel times and average; the alternatives are the next min(3, n−1) venues in order (`slice(1, 4)`) |
| `Endpoint.FallbackAt` | togather-backend/server.js:320-361 | the fallback is named "Meeting Point", located at the point, addressed by reverse geocoding or else "Meeting Point"; it has each participant's travel time to the point, in order, and their finite mean |
| `Endpoint.RankVenues` | togather-backend/server.js:259-317 | scoring the venues into an array and sorting it in place gives the venues ordered by fairness, stably |
| `Endpoint.ComputeLocation` | togather-backend/server.js:222-391 | the handler answers exactly as the function `Respond` does |
| `Endpoint.Respond` | togather-backend/server.js:222-236 | the answer is 400 "At least two locations are required." exactly when fewer than two participants are given, and 500 "Unable to compute epicenter from the given addresses." exactly when at least two are given and none geocodes |
| `Endpoint.ServerErrorIff` | togather-backend/server.js:233-236 | the answer is 500 exactly when at least two participants are given and none of their addresses geocodes |
| `Endpoint.RankedAreScored` | togather-backend/server.js:259-317 | every ranked venue is a found venue, scored |
| `Endpoint.TravelTimesAligned` | togather-backend/server.js:339-369 | the reported travel times are one per participant, in request order, each the provider's duration from that participant, with that participant's mode, to the reported location |
| `Endpoint.ScoreTimesAligned` | togather-backend/server.js:259-275 | a scored venue sits at the place's location, and its travel times are the provider's durations from each participant, in order |
| `Endpoint.AverageIsMean` | togather-backend/server.js:278-281 | the reported average time is the mean of the finite reported travel times (`Infinity` if none) |
| `Endpoint.FallbackIff` | togather-backend/server.js:320-361 | the answer is the fallback exactly when no venue was found; it is then named "Meeting Point", located at the best grid point, and addressed by reverse geocoding, or "Meeting Point" when that fails |
| `Endpoint.FairestVenueFirst` | togather-backend/server.js:316-317 | the chosen venue has the least fairness score of all found venues, and the ranking is in non-decreasing score order |
| `Endpoint.VenuesWellRated` | togather-backend/server.js:248-253 | the chosen venue and every alternative are rated at least 3.8, and there are at most three alternatives |
| `App.NewEntry` | src/App.jsx:120 | a new row has the given id, an empty address, walking, no position, and the colour for its index modulo 8 |
| `App.InitialLocations` | src/App.jsx:62-65 | the list starts well formed with two rows, ids 1 and 2, each with an empty address, walking, no position, and the first and second colours |
| `App.Added` | src/App.jsx:118-122 | below eight rows, one fresh row for the new id is appended after the unchanged rows; at eight, nothing changes |
| `App.Without` | src/App.jsx:126 | removing by id never lengthens the list |
| `App.WithoutMembers` | src/App.jsx:126 | the filtered list holds exactly the rows with another id |
| `App.WithoutDistinct` | src/App.jsx:126 | filtering keeps ids distinct, and drops exactly one row when the id is present |
| `App.Removed` | src/App.jsx:124-127 | above two rows, exactly the rows with another id remain; at two, nothing changes |
| `App.RemoveKeepsWellFormed` | src/App.jsx:124-129 | removing from more than two rows leaves two to eight rows with distinct ids |
| `App.AddRemoveWithinBounds` | src/App.jsx:118-129 | add and remove keep two to eight distinct rows; an add below eight appends one row and keeps the others; a remove above two drops one row when the id is present |
| `App.RemovedGone` | src/App.jsx:124-127 | after a removal above two rows, no row has that id and every other row remains |
| `App.IndexOf` | src/App.jsx:135 | `indexOf` is -1 exactly when the mode is absent, and otherwise the first position holding it |
| `App.NextMode` | src/App.jsx:134-136 | the next mode is one of the four; an unknown mode becomes walking; a known mode always changes |
| `App.KnownModeAdvances` | src/App.jsx:134-136 | a known mode advances to the next one in declaration order, cyclically |
| `App.ModeCycle` | src/App.jsx:131-140 | walking → bicycling → transit → driving → walking; an unknown mode becomes walking |
| `App.ModeCycleFour` | src/App.jsx:131-140 | four toggles restore a known mode; an unknown mode ends on driving |
| `App.ToggleFourTimes` | src/App.jsx:131-140 | toggling a row four times restores the whole list |
| `App.UpdateRow` | src/App.jsx:95-104 | the update changes only the rows with that id, and changes each of them by the given field update |
| `App.Toggled` | src/App.jsx:131-140 | the rows with that id advance their mode; every other row is unchanged |
| `App.Edited` | src/App.jsx:109-114 | the rows with that id take the typed address and lose their position, keeping id, mode and colour; every other row is unchanged |
| `App.Picked` | src/App.jsx:90-107 | the rows with that id take the place's address and position, keeping id, mode and colour; every other row is unchanged |
| `App.EditInvalidates` | src/App.jsx:109-114 | typing into a row clears its position, so that row no longer counts as valid, until a suggestion is picked; picking one makes it valid when its address is not blank; other rows stay unchanged |
| `App.TrimStartAllWhitespace` | src/App.jsx:143 | trimming the start gives the empty string exactly when the string is all white space, and otherwise leaves no leading white space |
| `App.TrimEndKeepsFirst` | src/App.jsx:143 | trimming the end cannot empty a string that starts with a non-space |
| `App.TrimEmptyIff` | src/App.jsx:143 | `trim()` is empty exactly when the address is all white space |
| `App.ValidEntries` | src/App.jsx:143 | validation never adds a row, and every row it keeps is valid |
| `App.ValidEntriesMembers` | src/App.jsx:143 | exactly the rows with a non-blank address and a position are valid |
| `App.ToLower` | src/App.jsx:155 | lowercasing keeps the length |
| `App.RequestBody` | src/App.jsx:153-156 | the body carries one participant per valid row, in row order, each with a non-blank address and its mode lowercased, and the venue type |
| `App.Submission` | src/App.jsx:142-156 | a request is sent exactly when two or more rows are valid, and it is the body of those rows |
| `App.SubmissionAccepted` | src/App.jsx:143-156 | a request is sent exactly when two or more rows are valid; it carries those rows' addresses in order with lowercased modes, and the server then never answers it with 400 |
| `App.ModesKnownToServer` | src/App.jsx:155 | the lowercased mode names get the server's factors 1.3, 1.1, 0.85 and 0.7, never the 1.0 default |
| `App.Positions` | src/App.jsx:178 | the picked positions never outnumber the rows |
| `App.PositionsMembers` | src/App.jsx:178 | the picked positions are exactly the rows' positions, and there are none exactly when no row has one |
| `App.Latitudes` | src/App.jsx:180 | there is one latitude per position |
| `App.Longitudes` | src/App.jsx:181 | there is one longitude per position |
| `App.ZoomOutIffNothingToShow` | src/App.jsx:176-187 | the zoom is 11 exactly when there is no result and no picked position, and the map is then centred on Paris |
| `App.SumWithin` | src/App.jsx:180-181 | a sum of n values within bounds lies within n times the bounds |
| `App.MeanWithin` | src/App.jsx:180-181 | the mean of values within bounds lies within them |
| `App.MeanWithinAll` | src/App.jsx:180-181 | the mean lies inside every interval holding all the values |
| `App.CenterWithinPositions` | src/App.jsx:176-185 | without a result, the map centre lies within the bounding box of the picked positions |
| `App.MapCenter` | src/App.jsx:176-185 | the centre is the first result when there is one, Paris when there is no result and no picked position, and otherwise inside every interval holding the picked latitudes (and longitudes) |
| `App.MapZoom` | src/App.jsx:187 | the zoom is 11 or 12, and 11 exactly when there is no result and no row has a position |
| `App.AppState.constructor` | src/App.jsx:62-74 | the initial state: the two initial rows, no autocomplete, no result, not calculating, empty venue type, no error |
| `App.AppState.OnAutocompleteLoad` | src/App.jsx:86-88 | the widget is recorded under the row's id |
| `App.AppState.OnPlaceChanged` | src/App.jsx:90-107 | a picked place with a geometry sets that row's address and position; anything else changes nothing; the list stays well formed |
| `App.AppState.HandleAddressChange` | src/App.jsx:109-114 | typing sets that row's address and clears its position; the list stays well formed |
| `App.AppState.HandleAddAddress` | src/App.jsx:118-122 | below eight rows, a fresh row is appended; the list stays well formed |
| `App.AppState.HandleRemoveAddress` | src/App.jsx:124-129 | above two rows, the row and its widget are removed; otherwise nothing changes; the list stays well formed |
| `App.AppState.HandleToggleTravelMode` | src/App.jsx:131-140 | that row's mode advances in the cycle; the list stays well formed |
| `App.AppState.HandleFindMeetingPoint` | src/App.jsx:142-156 | with fewer than two valid rows, it sets the error banner and sends nothing; otherwise it clears the error and results, sets the calculating flag, and sends the valid rows with lowercased modes |
| `App.AppState.ReceiveResult` | src/App.jsx:157-159 | the answer becomes the only result shown, and calculating stops |
| `App.AppState.ReceiveFailure` | src/App.jsx:163-167 | a non-empty error text from the server is shown; a missing or empty one gives "Failed to find meeting point. Please try again."; calculating stops |

## Left out

- HTTP, Express, CORS, JSON parsing and logging are not modelled. The handler takes the parsed body and returns a `Response` value.
- A request without a `locations` field is not modelled. The source then throws, and the outer `catch` answers 500 (server.js:387-390). The model's request always carries a list.
- The outer `catch` in general is not modelled. No other step of the model can throw: every provider failure is already a value (`None`, `Failed`, `PlacesFailed`).
- The Google services are parameters: geocoding, distance matrix, nearby search and reverse geocoding. They are deterministic functions of their inputs. Their HTTP requests, the API key, and the `fields`, `departure_time` and `traffic_model` parameters are not modelled.
- `calculateDistance` and the inline haversine formula are the parameters `distM` and `distKm`, and `Math.sqrt` is the parameter `sqrt`. Trigonometry is not modelled. Only non-negativity (and, for two-point lemmas, symmetry) is assumed of them.
- Numbers are exact reals, not IEEE doubles, so rounding is not modelled.
- NaN is not modelled. Sorting treats `Infinity − Infinity` as equal, as JavaScript's sort does with a NaN comparison.
- `Epicenter.ComputeWeightedEpicenter` requires that when two or more addresses geocode, their total pairwise distance is positive. If every geocoded point coincides (for example, the same address twice), the source divides by zero and the epicenter is NaN. That case is not modelled.
- `Promise.all` is modelled as a sequential map. The lookups are independent, so order of completion does not matter.
- JSON serialisation is not modelled. In particular, `Infinity` becomes `null` in the answer.
- The 500 "Unable to find suitable meeting points" (server.js:242-244) is not a branch of the model. The grid always has 25 candidates, so a best candidate always exists (`GridSearch.PerformGridSearch` proves `|allCandidates| == 25`).
- When every travel lookup fails, the search still returns the first grid point, and the handler goes on from it (`GridSearch.AllLookupsFail`).
- The fallback address is the reverse-geocoded one, or "Meeting Point" when that lookup fails (`Endpoint.FallbackIff`).
- The grid candidate's standard deviation is left `undefined` when no time is finite (server.js:422-430). The model puts `sqrt(0)` there, and nothing reads it.
- `App.ToLower` maps only ASCII letters. The modes it is applied to are ASCII names.
- `Date.now()` is the parameter `newId` of `App.AppState.HandleAddAddress`, which requires it to differ from every existing id. That is what a clock later than every earlier id gives.
- In `App.AppState.HandleFindMeetingPoint`, the HTTP post is left out. The method returns the body it would post, and `ReceiveResult` / `ReceiveFailure` model the two continuations.
- `App.AppState.ReceiveResult` does not model the switch to the map view on narrow screens (App.jsx:160-162). The view mode and the window width belong to the rendering.
- React rendering is not modelled: the markers and the selected marker, the mobile menu, the view toggle, and the components `AddressForm`, `AddressInputs`, `MapContainer` and `MapDisplay`. It carries no logic beyond what is modelled here.
- The `useJsApiLoader` loading state is not modelled for the same reason.
