/**
 * The front end's state: the list of participants the user edits (at least
 * two, at most eight, each with its own id, colour, travel mode, address and
 * map position once picked from the suggestions), the autocomplete widgets by
 * participant id, the results shown, the error banner and the "calculating"
 * flag. Each handler is a method that replaces the list with one built by a
 * pure function, as the handlers do through `setLocations`; the lemmas state
 * what those functions keep and change. The map centre and zoom are pure
 * functions of the state.
 */
module App {
  import opened Wrappers
  import opened Geo
  import Epicenter
  import Endpoint

  const Colors: seq<string> := ["#EF4444", "#10B981", "#3B82F6", "#F59E0B", "#8B5CF6", "#D946EF", "#06B6D4", "#84CC16"]
  /** The keys of `TravelModes`, in declaration order. */
  const Modes: seq<string> := ["WALKING", "BICYCLING", "TRANSIT", "DRIVING"]
  const ParisCenter: LatLng := LatLng(48.8566, 2.3522)
  const MinEntries: nat := 2
  const MaxEntries: nat := 8
  const TooFewValid: string := "Please select at least two valid addresses from the suggestions."
  const RequestFailed: string := "Failed to find meeting point. Please try again."

  /** One participant row; `position` is set only by picking a suggestion. */
  datatype Entry = Entry(id: int, address: string, transport: string, color: string, position: Option<LatLng>)

  /** What an autocomplete widget reports for the selected suggestion. */
  datatype PlaceResult = PlaceResult(formattedAddress: string, geometry: Option<LatLng>)

  /** An autocomplete widget; `place` is what its `getPlace()` returns. */
  datatype Autocomplete = Autocomplete(place: Option<PlaceResult>)

  // ------------------------------------------------------------ entries

  /** A fresh row: empty address, walking, no position, the next colour. */
  function NewEntry(id: int, index: nat): (e: Entry)
    ensures e.id == id && e.address == "" && e.transport == "WALKING" && e.position.None?
    ensures e.color == Colors[index % 8]
  {
    Entry(id, "", "WALKING", Colors[index % |Colors|], None)
  }

  /** Two blank walking rows, ids 1 and 2, in the first two colours. */
  function InitialLocations(): (ls: seq<Entry>)
    ensures |ls| == 2 && ls[0].id == 1 && ls[1].id == 2 && WellFormed(ls)
    ensures forall k :: 0 <= k < |ls| ==>
      ls[k].address == "" && ls[k].transport == "WALKING" && ls[k].position.None? && ls[k].color == Colors[k]
  {
    [NewEntry(1, 0), NewEntry(2, 1)]
  }

  predicate HasId(ls: seq<Entry>, id: int)
  {
    exists k :: 0 <= k < |ls| && ls[k].id == id
  }

  ghost predicate DistinctIds(ls: seq<Entry>)
  {
    forall i, j :: 0 <= i < j < |ls| ==> ls[i].id != ls[j].id
  }

  /** Between two and eight rows, no two with the same id. */
  ghost predicate WellFormed(ls: seq<Entry>)
  {
    MinEntries <= |ls| <= MaxEntries && DistinctIds(ls)
  }

  /** `handleAddAddress`: append a fresh row unless there are eight already. */
  function Added(ls: seq<Entry>, newId: int): (r: seq<Entry>)
    ensures |ls| < MaxEntries ==> |r| == |ls| + 1 && r[..|ls|] == ls && r[|ls|] == NewEntry(newId, |ls|)
    ensures |ls| >= MaxEntries ==> r == ls
  {
    if |ls| < MaxEntries then ls + [NewEntry(newId, |ls|)] else ls
  }

  /** `locations.filter(loc => loc.id !== id)`. */
  function Without(ls: seq<Entry>, id: int): (r: seq<Entry>)
    ensures |r| <= |ls|
  {
    if |ls| == 0 then []
    else
      var last := ls[|ls| - 1];
      Without(ls[..|ls| - 1], id) + (if last.id != id then [last] else [])
  }

  /** `handleRemoveAddress`: drop the row with that id unless only two are left. */
  function Removed(ls: seq<Entry>, id: int): (r: seq<Entry>)
    ensures |ls| > MinEntries ==> forall e :: e in r <==> e in ls && e.id != id
    ensures |ls| <= MinEntries ==> r == ls
  {
    if |ls| > MinEntries then
      WithoutMembers(ls, id);
      Without(ls, id)
    else ls
  }

  /** `modes.indexOf(m)`: the first position of `m`, or -1. */
  function IndexOf(modes: seq<string>, m: string): (r: int)
    ensures -1 <= r < |modes|
    ensures r == -1 <==> m !in modes
    ensures 0 <= r ==> modes[r] == m && forall j :: 0 <= j < r ==> modes[j] != m
  {
    if |modes| == 0 then -1
    else if modes[0] == m then 0
    else
      var r := IndexOf(modes[1..], m);
      if r == -1 then -1 else r + 1
  }

  /**
   * The mode after `m` in the cycle; an unknown mode has index -1 and so
   * becomes the first. A known mode always changes.
   */
  function NextMode(m: string): (r: string)
    ensures r in Modes
    ensures m !in Modes ==> r == Modes[0]
    ensures m in Modes ==> r != m
  {
    ModesDistinct();
    Modes[(IndexOf(Modes, m) + 1) % |Modes|]
  }

  /** Apply `f` to the rows with that id; every other row is kept as it is. */
  function UpdateRow(ls: seq<Entry>, id: int, f: Entry -> Entry): (r: seq<Entry>)
    ensures |r| == |ls|
    ensures forall k :: 0 <= k < |ls| ==> r[k] == if ls[k].id == id then f(ls[k]) else ls[k]
  {
    seq(|ls|, k requires 0 <= k < |ls| => if ls[k].id == id then f(ls[k]) else ls[k])
  }

  /** `handleToggleTravelMode`: the rows with that id advance their mode; nothing else changes. */
  function Toggled(ls: seq<Entry>, id: int): (r: seq<Entry>)
    ensures |r| == |ls|
    ensures forall k :: 0 <= k < |ls| && ls[k].id == id ==> r[k] == ls[k].(transport := NextMode(ls[k].transport))
    ensures forall k :: 0 <= k < |ls| && ls[k].id != id ==> r[k] == ls[k]
  {
    UpdateRow(ls, id, (e: Entry) => e.(transport := NextMode(e.transport)))
  }

  /** `handleAddressChange`: the typed text replaces the address and the position is forgotten. */
  function Edited(ls: seq<Entry>, id: int, value: string): (r: seq<Entry>)
    ensures |r| == |ls|
    ensures forall k :: 0 <= k < |ls| && ls[k].id == id ==>
      r[k].address == value && r[k].position.None? && r[k].id == id &&
      r[k].transport == ls[k].transport && r[k].color == ls[k].color
    ensures forall k :: 0 <= k < |ls| && ls[k].id != id ==> r[k] == ls[k]
  {
    UpdateRow(ls, id, (e: Entry) => e.(address := value, position := None))
  }

  /** `onPlaceChanged` with a place that has a geometry: the row takes its address and position. */
  function Picked(ls: seq<Entry>, id: int, place: PlaceResult): (r: seq<Entry>)
    requires place.geometry.Some?
    ensures |r| == |ls|
    ensures forall k :: 0 <= k < |ls| && ls[k].id == id ==>
      r[k].address == place.formattedAddress && r[k].position == place.geometry && r[k].id == id &&
      r[k].transport == ls[k].transport && r[k].color == ls[k].color
    ensures forall k :: 0 <= k < |ls| && ls[k].id != id ==> r[k] == ls[k]
  {
    UpdateRow(ls, id, (e: Entry) => e.(address := place.formattedAddress, position := place.geometry))
  }

  // ------------------------------------------------------------ submission

  /** The characters `String.prototype.trim` removes: white space and line terminators. */
  predicate IsWhitespace(c: char)
  {
    c == ' ' || c == '\t' || c == '\n' || c == '\r' || c == '\U{000B}' || c == '\U{000C}'
    || c == '\U{00A0}' || c == '\U{1680}' || ('\U{2000}' <= c <= '\U{200A}')
    || c == '\U{2028}' || c == '\U{2029}' || c == '\U{202F}' || c == '\U{205F}'
    || c == '\U{3000}' || c == '\U{FEFF}'
  }

  function TrimStart(s: string): string
  {
    if |s| > 0 && IsWhitespace(s[0]) then TrimStart(s[1..]) else s
  }

  function TrimEnd(s: string): string
  {
    if |s| > 0 && IsWhitespace(s[|s| - 1]) then TrimEnd(s[..|s| - 1]) else s
  }

  function Trim(s: string): string
  {
    TrimEnd(TrimStart(s))
  }

  /** A row the user may submit: a non-blank address picked from the suggestions. */
  predicate IsValid(e: Entry)
  {
    Trim(e.address) != "" && e.position.Some?
  }

  /** `locations.filter(...)` with `IsValid`: every row kept is valid. */
  function ValidEntries(ls: seq<Entry>): (r: seq<Entry>)
    ensures |r| <= |ls|
    ensures forall k :: 0 <= k < |r| ==> IsValid(r[k])
  {
    if |ls| == 0 then []
    else
      var last := ls[|ls| - 1];
      ValidEntries(ls[..|ls| - 1]) + (if IsValid(last) then [last] else [])
  }

  /** `toLowerCase` on the ASCII letters the mode names use. */
  function ToLower(s: string): (r: string)
    ensures |r| == |s|
  {
    seq(|s|, k requires 0 <= k < |s| => if 'A' <= s[k] <= 'Z' then (s[k] as int + 32) as char else s[k])
  }

  /**
   * The body posted to `/compute-location`: one participant per valid row, in
   * row order, each with a non-blank address and its mode lowercased.
   */
  function RequestBody(ls: seq<Entry>, venueType: string): (req: Endpoint.Request)
    ensures |req.locations| == |ValidEntries(ls)| && req.venueType == Some(venueType)
    ensures forall k :: 0 <= k < |req.locations| ==>
      req.locations[k].address == ValidEntries(ls)[k].address && Trim(req.locations[k].address) != "" &&
      req.locations[k].transport == ToLower(ValidEntries(ls)[k].transport)
  {
    var valid := ValidEntries(ls);
    Endpoint.Request(
      seq(|valid|, k requires 0 <= k < |valid| => Epicenter.Location(valid[k].address, ToLower(valid[k].transport))),
      Some(venueType))
  }

  /** The request a click on "find" sends: one exactly when at least two rows are valid. */
  function Submission(ls: seq<Entry>, venueType: string): (r: Option<Endpoint.Request>)
    ensures r.Some? <==> |ValidEntries(ls)| >= 2
    ensures r.Some? ==> r.value == RequestBody(ls, venueType) && |r.value.locations| >= 2
  {
    if |ValidEntries(ls)| < 2 then None else Some(RequestBody(ls, venueType))
  }

  // ------------------------------------------------------------ the map

  /** The positions of the rows that have one, in row order. */
  function Positions(ls: seq<Entry>): (ps: seq<LatLng>)
    ensures |ps| <= |ls|
  {
    if |ls| == 0 then []
    else
      var last := ls[|ls| - 1];
      Positions(ls[..|ls| - 1]) + (if last.position.Some? then [last.position.value] else [])
  }

  function Latitudes(ps: seq<LatLng>): (r: seq<real>)
    ensures |r| == |ps|
  {
    seq(|ps|, k requires 0 <= k < |ps| => ps[k].lat)
  }

  function Longitudes(ps: seq<LatLng>): (r: seq<real>)
    ensures |r| == |ps|
  {
    seq(|ps|, k requires 0 <= k < |ps| => ps[k].lng)
  }

  /**
   * `getMapCenter`: the first result, else the mean of the picked positions
   * (inside every box holding them all), else Paris.
   */
  function MapCenter(bestLocations: seq<Endpoint.BestLocation>, ls: seq<Entry>): (c: LatLng)
    ensures |bestLocations| > 0 ==> c == bestLocations[0].location
    ensures |bestLocations| == 0 && |Positions(ls)| == 0 ==> c == ParisCenter
    ensures |bestLocations| == 0 ==>
      forall lo, hi :: |Positions(ls)| > 0 && AllWithin(Latitudes(Positions(ls)), lo, hi) ==> lo <= c.lat <= hi
    ensures |bestLocations| == 0 ==>
      forall lo, hi :: |Positions(ls)| > 0 && AllWithin(Longitudes(Positions(ls)), lo, hi) ==> lo <= c.lng <= hi
  {
    if |bestLocations| > 0 then bestLocations[0].location
    else
      var ps := Positions(ls);
      if |ps| > 0 then
        MeanWithinAll(Latitudes(ps));
        MeanWithinAll(Longitudes(ps));
        LatLng(Sum(Latitudes(ps)) / |ps| as real, Sum(Longitudes(ps)) / |ps| as real)
      else ParisCenter
  }

  /** `getMapZoom`: 12 when there is something to show, 11 otherwise. */
  function MapZoom(bestLocations: seq<Endpoint.BestLocation>, ls: seq<Entry>): (z: nat)
    ensures z == 11 || z == 12
    ensures z == 11 <==> |bestLocations| == 0 && forall k :: 0 <= k < |ls| ==> ls[k].position.None?
  {
    if |bestLocations| > 0 || exists k :: 0 <= k < |ls| && ls[k].position.Some? then 12 else 11
  }

  // ------------------------------------------------------------ the state

  class AppState {
    var locations: seq<Entry>
    var autocompleteRefs: map<int, Autocomplete>
    var bestLocations: seq<Endpoint.BestLocation>
    var isCalculating: bool
    var venueType: string
    var error: Option<string>

    ghost predicate Valid()
      reads this
    {
      WellFormed(locations)
    }

    constructor()
      ensures Valid()
      ensures locations == InitialLocations()
      ensures autocompleteRefs == map[] && bestLocations == [] && !isCalculating
      ensures venueType == "" && error.None?
    {
      locations := InitialLocations();
      autocompleteRefs := map[];
      bestLocations := [];
      isCalculating := false;
      venueType := "";
      error := None;
    }

    method OnAutocompleteLoad(autocomplete: Autocomplete, id: int)
      modifies this`autocompleteRefs
      ensures autocompleteRefs == old(autocompleteRefs)[id := autocomplete]
    {
      autocompleteRefs := autocompleteRefs[id := autocomplete];
    }

    method OnPlaceChanged(id: int)
      requires Valid()
      modifies this`locations
      ensures Valid()
      ensures id in autocompleteRefs && autocompleteRefs[id].place.Some? && autocompleteRefs[id].place.value.geometry.Some? ==>
        locations == Picked(old(locations), id, autocompleteRefs[id].place.value)
      ensures !(id in autocompleteRefs && autocompleteRefs[id].place.Some? && autocompleteRefs[id].place.value.geometry.Some?) ==>
        locations == old(locations)
    {
      if id in autocompleteRefs {
        var place := autocompleteRefs[id].place;
        if place.Some? && place.value.geometry.Some? {
          locations := Picked(locations, id, place.value);
          SameIds(old(locations), locations);
        }
      }
    }

    method HandleAddressChange(id: int, value: string)
      requires Valid()
      modifies this`locations
      ensures Valid()
      ensures locations == Edited(old(locations), id, value)
    {
      locations := Edited(locations, id, value);
      SameIds(old(locations), locations);
    }

    /** `newId` stands for `Date.now()`, later than every id handed out before. */
    method HandleAddAddress(newId: int)
      requires Valid() && !HasId(locations, newId)
      modifies this`locations
      ensures Valid()
      ensures locations == Added(old(locations), newId)
    {
      if |locations| < MaxEntries {
        locations := locations + [NewEntry(newId, |locations|)];
      }
    }

    method HandleRemoveAddress(id: int)
      requires Valid()
      modifies this`locations, this`autocompleteRefs
      ensures Valid()
      ensures locations == Removed(old(locations), id)
      ensures |old(locations)| > MinEntries ==> autocompleteRefs == old(autocompleteRefs) - {id}
      ensures |old(locations)| <= MinEntries ==> autocompleteRefs == old(autocompleteRefs)
    {
      if |locations| > MinEntries {
        RemoveKeepsWellFormed(locations, id);
        locations := Without(locations, id);
        autocompleteRefs := autocompleteRefs - {id};
      }
    }

    method HandleToggleTravelMode(id: int)
      requires Valid()
      modifies this`locations
      ensures Valid()
      ensures locations == Toggled(old(locations), id)
    {
      locations := Toggled(locations, id);
      SameIds(old(locations), locations);
    }

    /**
     * Validate and start a search: returns the body to post, or sets the
     * error banner and sends nothing.
     */
    method HandleFindMeetingPoint() returns (body: Option<Endpoint.Request>)
      modifies this`error, this`isCalculating, this`bestLocations
      ensures body == Submission(locations, venueType)
      ensures body.None? ==> error == Some(TooFewValid)
      ensures body.None? ==> isCalculating == old(isCalculating) && bestLocations == old(bestLocations)
      ensures body.Some? ==> error.None? && isCalculating && bestLocations == []
    {
      var validAddresses := ValidEntries(locations);
      if |validAddresses| < 2 {
        error := Some(TooFewValid);
        return None;
      }
      isCalculating := true;
      error := None;
      bestLocations := [];
      body := Some(RequestBody(locations, venueType));
    }

    /** The server answered with a best location. */
    method ReceiveResult(result: Endpoint.BestLocation)
      modifies this`bestLocations, this`isCalculating
      ensures bestLocations == [result] && !isCalculating
    {
      bestLocations := [result];
      isCalculating := false;
    }

    /** The request failed; `serverError` is the error text of the server's answer, if any. */
    method ReceiveFailure(serverError: Option<string>)
      modifies this`error, this`isCalculating
      ensures serverError.Some? && serverError.value != "" ==> error == serverError
      ensures serverError.None? || serverError.value == "" ==> error == Some(RequestFailed)
      ensures !isCalculating
    {
      if serverError.Some? && serverError.value != "" {
        error := serverError;
      } else {
        error := Some(RequestFailed);
      }
      isCalculating := false;
    }
  }

  // ---------------------------------------------------------------- lemmas

  /** Row-wise updates keep the ids, so they keep the list well formed. */
  lemma {:induction false} SameIds(ls: seq<Entry>, r: seq<Entry>)
    requires |r| == |ls| && forall k :: 0 <= k < |ls| ==> r[k].id == ls[k].id
    ensures WellFormed(ls) ==> WellFormed(r)
  {
  }

  /** Removing keeps exactly the rows with another id, in order of appearance. */
  lemma {:induction false} WithoutMembers(ls: seq<Entry>, id: int)
    ensures forall e :: e in Without(ls, id) <==> e in ls && e.id != id
  {
    if |ls| > 0 {
      var n := |ls| - 1;
      WithoutMembers(ls[..n], id);
      assert ls == ls[..n] + [ls[n]];
    }
  }

  /** With distinct ids, removing an id present drops one row, and an absent id drops none. */
  lemma {:induction false} WithoutDistinct(ls: seq<Entry>, id: int)
    requires DistinctIds(ls)
    ensures DistinctIds(Without(ls, id))
    ensures |Without(ls, id)| == if HasId(ls, id) then |ls| - 1 else |ls|
  {
    if |ls| > 0 {
      var n := |ls| - 1;
      var last := ls[n];
      var prefix := ls[..n];
      WithoutDistinct(prefix, id);
      WithoutMembers(prefix, id);
      var r := Without(prefix, id);
      forall i | 0 <= i < |r| ensures r[i].id != last.id {
        assert r[i] in prefix;
        var j :| 0 <= j < n && prefix[j] == r[i];
        assert ls[j] == r[i];
      }
      if HasId(ls, id) {
        var k :| 0 <= k < |ls| && ls[k].id == id;
        if k == n {
          assert !HasId(prefix, id);
        } else {
          assert prefix[k].id == id;
        }
      } else {
        assert !HasId(prefix, id);
      }
    }
  }

  /** Removing from a well-formed list of more than two rows keeps it well formed. */
  lemma {:induction false} RemoveKeepsWellFormed(ls: seq<Entry>, id: int)
    requires WellFormed(ls) && |ls| > MinEntries
    ensures WellFormed(Without(ls, id))
  {
    WithoutDistinct(ls, id);
  }

  /**
   * Adding and removing never leave the 2..8 range; adding grows the list by
   * one row below the cap and leaves the existing rows unchanged.
   */
  lemma {:induction false} AddRemoveWithinBounds(ls: seq<Entry>, newId: int, id: int)
    requires WellFormed(ls)
    ensures !HasId(ls, newId) ==> WellFormed(Added(ls, newId))
    ensures |ls| < MaxEntries ==> |Added(ls, newId)| == |ls| + 1 && Added(ls, newId)[..|ls|] == ls
    ensures WellFormed(Removed(ls, id))
    ensures |ls| > MinEntries && HasId(ls, id) ==> |Removed(ls, id)| == |ls| - 1
  {
    if |ls| > MinEntries {
      WithoutDistinct(ls, id);
    }
  }

  /** Removing an id then re-checking finds it gone, and nothing else is lost. */
  lemma {:induction false} RemovedGone(ls: seq<Entry>, id: int)
    requires |ls| > MinEntries
    ensures !HasId(Removed(ls, id), id)
    ensures forall e :: e in ls && e.id != id ==> e in Removed(ls, id)
  {
    WithoutMembers(ls, id);
    var r := Removed(ls, id);
    forall k | 0 <= k < |r| ensures r[k].id != id {
      assert r[k] in r;
    }
  }

  /** The four mode names differ from one another. */
  lemma {:induction false} ModesDistinct()
    ensures forall i, j :: 0 <= i < j < |Modes| ==> Modes[i] != Modes[j]
  {
    assert Modes[0][0] == 'W' && Modes[1][0] == 'B' && Modes[2][0] == 'T' && Modes[3][0] == 'D';
  }

  /** Known modes advance to the next one in `Modes`, cyclically. */
  lemma {:induction false} KnownModeAdvances(k: nat)
    requires k < |Modes|
    ensures NextMode(Modes[k]) == Modes[(k + 1) % |Modes|]
  {
    ModesDistinct();
    var r := IndexOf(Modes, Modes[k]);
    assert r == k;
  }

  /** The toggle cycles walking, bicycling, transit, driving; anything else becomes walking. */
  lemma {:induction false} ModeCycle(m: string)
    ensures m == "WALKING" ==> NextMode(m) == "BICYCLING"
    ensures m == "BICYCLING" ==> NextMode(m) == "TRANSIT"
    ensures m == "TRANSIT" ==> NextMode(m) == "DRIVING"
    ensures m == "DRIVING" ==> NextMode(m) == "WALKING"
    ensures m !in Modes ==> NextMode(m) == "WALKING"
  {
    if m in Modes {
      var k :| 0 <= k < |Modes| && Modes[k] == m;
      KnownModeAdvances(k);
    }
  }

  /** Four toggles restore a known mode; an unknown one ends on driving. */
  lemma {:induction false} ModeCycleFour(m: string)
    ensures NextMode(NextMode(NextMode(NextMode(m)))) == if m in Modes then m else "DRIVING"
  {
    var m1 := NextMode(m);
    var m2 := NextMode(m1);
    var m3 := NextMode(m2);
    ModeCycle(m);
    ModeCycle(m1);
    ModeCycle(m2);
    ModeCycle(m3);
  }

  /** Toggling a row four times brings it back to its mode, when that mode is known. */
  lemma {:induction false} ToggleFourTimes(ls: seq<Entry>, id: int)
    requires forall k :: 0 <= k < |ls| ==> ls[k].transport in Modes
    ensures Toggled(Toggled(Toggled(Toggled(ls, id), id), id), id) == ls
  {
    var r := Toggled(Toggled(Toggled(Toggled(ls, id), id), id), id);
    forall k | 0 <= k < |ls| ensures r[k] == ls[k] {
      ModeCycleFour(ls[k].transport);
    }
  }

  /** After a manual edit the row is no longer valid for submission until a suggestion is picked. */
  lemma {:induction false} EditInvalidates(ls: seq<Entry>, id: int, value: string, place: PlaceResult)
    requires place.geometry.Some?
    ensures forall k :: 0 <= k < |ls| && ls[k].id == id ==> !IsValid(Edited(ls, id, value)[k])
    ensures forall k :: 0 <= k < |ls| && ls[k].id == id ==>
      (IsValid(Picked(Edited(ls, id, value), id, place)[k]) <==> Trim(place.formattedAddress) != "")
    ensures forall k :: 0 <= k < |ls| && ls[k].id != id ==> Edited(ls, id, value)[k] == ls[k]
  {
  }

  lemma {:induction false} TrimStartAllWhitespace(s: string)
    ensures TrimStart(s) == "" <==> forall i :: 0 <= i < |s| ==> IsWhitespace(s[i])
    ensures TrimStart(s) != "" ==> !IsWhitespace(TrimStart(s)[0])
    decreases |s|
  {
    if |s| > 0 && IsWhitespace(s[0]) {
      TrimStartAllWhitespace(s[1..]);
      assert forall i :: 1 <= i < |s| ==> s[i] == s[1..][i - 1];
    }
  }

  lemma {:induction false} TrimEndKeepsFirst(s: string)
    requires |s| > 0 && !IsWhitespace(s[0])
    ensures TrimEnd(s) != ""
    decreases |s|
  {
    if IsWhitespace(s[|s| - 1]) {
      TrimEndKeepsFirst(s[..|s| - 1]);
    }
  }

  /** `a.address.trim() !== ""` holds exactly when the address has a non-white-space character. */
  lemma {:induction false} TrimEmptyIff(s: string)
    ensures Trim(s) == "" <==> forall i :: 0 <= i < |s| ==> IsWhitespace(s[i])
  {
    TrimStartAllWhitespace(s);
    if TrimStart(s) != "" {
      TrimEndKeepsFirst(TrimStart(s));
    }
  }

  /** The submitted rows are exactly the valid ones, in row order. */
  lemma {:induction false} ValidEntriesMembers(ls: seq<Entry>)
    ensures forall e :: e in ValidEntries(ls) <==> e in ls && IsValid(e)
  {
    if |ls| > 0 {
      var n := |ls| - 1;
      ValidEntriesMembers(ls[..n]);
      assert ls == ls[..n] + [ls[n]];
    }
  }

  /**
   * A request is sent exactly when two rows are valid; it lists the valid rows
   * with their modes lowercased, so the server never answers it with 400.
   */
  lemma {:induction false} SubmissionAccepted(ls: seq<Entry>, venueType: string, p: Endpoint.Providers)
    ensures Submission(ls, venueType).Some? <==> |ValidEntries(ls)| >= 2
    ensures Submission(ls, venueType).Some? ==>
      var req := Submission(ls, venueType).value;
      |req.locations| == |ValidEntries(ls)| &&
      (forall k :: 0 <= k < |req.locations| ==>
        req.locations[k].address == ValidEntries(ls)[k].address &&
        req.locations[k].transport == ToLower(ValidEntries(ls)[k].transport)) &&
      (Endpoint.Assumptions(req, p) ==> !Endpoint.Respond(req, p).BadRequest?)
  {
  }

  /** Every mode the toggle offers reaches the server as a mode it weighs. */
  lemma {:induction false} ModesKnownToServer()
    ensures Epicenter.TransportFactor(ToLower(Modes[0])) == 1.3
    ensures Epicenter.TransportFactor(ToLower(Modes[1])) == 1.1
    ensures Epicenter.TransportFactor(ToLower(Modes[2])) == 0.85
    ensures Epicenter.TransportFactor(ToLower(Modes[3])) == 0.7
  {
    assert ToLower(Modes[0]) == "walking";
    assert ToLower(Modes[1]) == "bicycling";
    assert ToLower(Modes[2]) == "transit";
    assert ToLower(Modes[3]) == "driving";
  }

  /** A position appears among the map's points exactly when some row carries it. */
  lemma {:induction false} PositionsMembers(ls: seq<Entry>)
    ensures forall p :: p in Positions(ls) <==> exists k :: 0 <= k < |ls| && ls[k].position == Some(p)
    ensures |Positions(ls)| == 0 <==> forall k :: 0 <= k < |ls| ==> ls[k].position.None?
  {
    if |ls| > 0 {
      var n := |ls| - 1;
      PositionsMembers(ls[..n]);
      assert forall k :: 0 <= k < n ==> ls[..n][k] == ls[k];
      if ls[n].position.Some? {
        assert Positions(ls)[|Positions(ls)| - 1] == ls[n].position.value;
      }
    }
  }

  /** Zoomed out (11) exactly when there is no result and no picked position; the map then shows Paris. */
  lemma {:induction false} ZoomOutIffNothingToShow(bestLocations: seq<Endpoint.BestLocation>, ls: seq<Entry>)
    ensures MapZoom(bestLocations, ls) == 11 <==> |bestLocations| == 0 && |Positions(ls)| == 0
    ensures MapZoom(bestLocations, ls) == 11 ==> MapCenter(bestLocations, ls) == ParisCenter
  {
    PositionsMembers(ls);
  }

  lemma {:induction false} SumWithin(xs: seq<real>, lo: real, hi: real)
    requires AllWithin(xs, lo, hi)
    ensures |xs| as real * lo <= Sum(xs) <= |xs| as real * hi
  {
    if |xs| > 0 {
      var n := |xs| - 1;
      SumWithin(xs[..n], lo, hi);
      assert xs[n] == xs[n];
    }
  }

  /** The mean of values inside `[lo, hi]` is inside `[lo, hi]`. */
  lemma {:induction false} MeanWithin(xs: seq<real>, lo: real, hi: real)
    requires |xs| > 0 && AllWithin(xs, lo, hi)
    ensures lo <= Sum(xs) / |xs| as real <= hi
  {
    SumWithin(xs, lo, hi);
    DivBounds(Sum(xs), |xs| as real, lo, hi);
  }

  lemma {:induction false} MeanWithinAll(xs: seq<real>)
    ensures forall lo, hi :: |xs| > 0 && AllWithin(xs, lo, hi) ==> lo <= Sum(xs) / |xs| as real <= hi
  {
    forall lo, hi | |xs| > 0 && AllWithin(xs, lo, hi) ensures lo <= Sum(xs) / |xs| as real <= hi {
      MeanWithin(xs, lo, hi);
    }
  }

  /** Without a result, the map centre lies inside any box that holds every picked position. */
  lemma {:induction false} CenterWithinPositions(ls: seq<Entry>, latLo: real, latHi: real, lngLo: real, lngHi: real)
    requires exists k :: 0 <= k < |ls| && ls[k].position.Some?
    requires forall k :: 0 <= k < |ls| && ls[k].position.Some? ==>
      latLo <= ls[k].position.value.lat <= latHi && lngLo <= ls[k].position.value.lng <= lngHi
    ensures latLo <= MapCenter([], ls).lat <= latHi
    ensures lngLo <= MapCenter([], ls).lng <= lngHi
  {
    PositionsMembers(ls);
    var ps := Positions(ls);
    forall i | 0 <= i < |ps| ensures latLo <= ps[i].lat <= latHi && lngLo <= ps[i].lng <= lngHi {
      assert ps[i] in ps;
    }
    assert AllWithin(Latitudes(ps), latLo, latHi);
    assert AllWithin(Longitudes(ps), lngLo, lngHi);
    MeanWithin(Latitudes(ps), latLo, latHi);
    MeanWithin(Longitudes(ps), lngLo, lngHi);
  }
}
