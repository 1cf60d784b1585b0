/** The gym finder (src/components/GymsMap.jsx): marker placement on the map
    placeholder, the belt colour of a coach, the search dispatch with its
    nearby-to-all fallback, and the directions link. The backend answers are
    parameters. */
module GymsMap {
  import opened Wrappers
  import opened JsText

  /** The fields of a gym that the logic reads. */
  datatype Gym = Gym(id: string, name: string, latitude: real, longitude: real)

  // ---------------------------------------------------------------------
  // Map markers
  // ---------------------------------------------------------------------

  /** At most this many gyms get a marker. */
  const MaxMarkers := 10

  /** A marker at `left`% and `top`% of the map placeholder. */
  datatype Marker = Marker(gym: Gym, left: nat, top: nat)

  /** Marker `idx` sits in column `idx % 5` and row `idx / 5`
      (`Math.floor` of a non-negative quotient). */
  function MarkerLeft(idx: nat): nat
  {
    10 + (idx % 5) * 18
  }

  function MarkerTop(idx: nat): nat
  {
    20 + (idx / 5) * 30
  }

  /** The markers of `gyms.slice(0, 10)`, in list order. */
  function Markers(gyms: seq<Gym>): (ms: seq<Marker>)
    ensures |ms| == if |gyms| < MaxMarkers then |gyms| else MaxMarkers
    ensures forall i :: 0 <= i < |ms| ==> ms[i] == Marker(gyms[i], MarkerLeft(i), MarkerTop(i))
  {
    var shown := if |gyms| < MaxMarkers then gyms else gyms[..MaxMarkers];
    seq(|shown|, i requires 0 <= i < |shown| => Marker(shown[i], MarkerLeft(i), MarkerTop(i)))
  }

  /** The ten marker places form a grid of five columns 18 points apart
      (10 to 82) and two rows (20 and 50). */
  lemma MarkerGrid(idx: nat)
    requires idx < MaxMarkers
    ensures MarkerLeft(idx) in {10, 28, 46, 64, 82}
    ensures MarkerTop(idx) in {20, 50}
    ensures MarkerTop(idx) == 20 <==> idx < 5
  {
  }

  /** No two of the ten markers share a place. */
  lemma MarkersDistinct(i: nat, j: nat)
    requires i < j < MaxMarkers
    ensures (MarkerLeft(i), MarkerTop(i)) != (MarkerLeft(j), MarkerTop(j))
  {
    if i / 5 == j / 5 {
      assert i % 5 != j % 5;
    }
  }

  /** The gyms after the tenth have no marker: the markers of a list are
      those of its first ten gyms, whatever follows. */
  lemma LaterGymsUnmarked(gyms: seq<Gym>, more: seq<Gym>)
    requires |gyms| >= MaxMarkers
    ensures Markers(gyms + more) == Markers(gyms[..MaxMarkers])
  {
    var a, b := Markers(gyms + more), Markers(gyms[..MaxMarkers]);
    assert |a| == |b|;
    forall i | 0 <= i < |a| ensures a[i] == b[i] {
      assert (gyms + more)[i] == gyms[..MaxMarkers][i];
    }
  }

  // ---------------------------------------------------------------------
  // Belt colours
  // ---------------------------------------------------------------------

  const DefaultBeltColor := "#718096"

  /** `getBeltColor(belt)`: the colour of a belt named case-insensitively, a
      grey for a missing or unknown one. */
  function BeltColor(belt: Option<string>): (c: string)
    ensures belt.None? ==> c == DefaultBeltColor
    ensures belt.Some? ==> (c == "#f7fafc" <==> ToLower(belt.value) == "white")
    ensures belt.Some? ==> (c == "#3182ce" <==> ToLower(belt.value) == "blue")
    ensures belt.Some? ==> (c == "#805ad5" <==> ToLower(belt.value) == "purple")
    ensures belt.Some? ==> (c == "#c05621" <==> ToLower(belt.value) == "brown")
    ensures belt.Some? ==> (c == "#1a202c" <==> ToLower(belt.value) == "black")
    ensures c == DefaultBeltColor <==>
      belt.None? || ToLower(belt.value) !in {"white", "blue", "purple", "brown", "black"}
  {
    match belt
    case None => DefaultBeltColor
    case Some(b) =>
      var key := ToLower(b);
      if key == "white" then "#f7fafc"
      else if key == "blue" then "#3182ce"
      else if key == "purple" then "#805ad5"
      else if key == "brown" then "#c05621"
      else if key == "black" then "#1a202c"
      else DefaultBeltColor
  }

  /** The lookup ignores case: a belt and its lower-case spelling get the
      same colour. */
  lemma BeltColorIgnoresCase(b: string)
    ensures BeltColor(Some(b)) == BeltColor(Some(ToLower(b)))
  {
    ToLowerIdempotent(b);
  }

  /** Upper-case names are found, and so is a name spelt with the Kelvin
      sign, which lower-cases to `k`. */
  lemma BeltColorExamples()
    ensures BeltColor(Some("BLUE")) == "#3182ce"
    ensures BeltColor(Some("Blac\U{212A}")) == "#1a202c"
    ensures BeltColor(Some("red")) == DefaultBeltColor
  {
    assert ToLower("BLUE") == "blue";
    assert ToLower("Blac\U{212A}") == "black";
    assert ToLower("red") == "red";
  }

  // ---------------------------------------------------------------------
  // Search dispatch
  // ---------------------------------------------------------------------

  datatype Location = Location(lat: real, lng: real)

  /** A request the page makes: the full list, the nearby search of the
      gym service, or the text search, fetched directly by URL. */
  datatype GymRequest =
    | ListAll
    | Nearby(lat: real, lng: real, radius: int)
    | TextSearch(url: string)

  /** The text-search URL: the query is encoded by `encode`
      (`encodeURIComponent`) as typed, untrimmed. */
  function SearchUrl(apiBase: string, query: string, encode: string -> string): string
  {
    apiBase + "/api/gyms/search?q=" + encode(query)
  }

  /** The first request `handleSearch` makes. */
  function SearchDispatch(query: string, location: Option<Location>, radius: int,
                          apiBase: string, encode: string -> string): (r: GymRequest)
    ensures Trim(query) == "" && location.Some? ==> r == Nearby(location.value.lat, location.value.lng, radius)
    ensures Trim(query) == "" && location.None? ==> r == ListAll
    ensures Trim(query) != "" ==> r == TextSearch(SearchUrl(apiBase, query, encode))
  {
    if Trim(query) == "" then
      (match location
       case Some(loc) => Nearby(loc.lat, loc.lng, radius)
       case None => ListAll)
    else TextSearch(SearchUrl(apiBase, query, encode))
  }

  /** A query of nothing but white space is not searched for: the text
      search is made exactly for a query with a non-blank character. */
  lemma BlankQueryNotSearched(query: string, location: Option<Location>, radius: int,
                              apiBase: string, encode: string -> string)
    ensures SearchDispatch(query, location, radius, apiBase, encode).TextSearch? <==>
      exists j :: 0 <= j < |query| && !IsJsWhitespace(query[j])
  {
    TrimEmptyIffBlank(query);
  }

  /** A `fetch` answer: parsed data from an ok response, a response that was
      not ok, or a thrown error with its message. */
  datatype Response<T> = Ok(data: T) | NotOk | Threw(message: string)

  /** The message `handleSearch` records for a failed search. */
  function SearchError(r: Response<seq<Gym>>): string
    requires !r.Ok?
  {
    if r.NotOk? then "Search failed" else r.message
  }

  // ---------------------------------------------------------------------
  // Directions
  // ---------------------------------------------------------------------

  const MapsSearchPrefix := "https://www.google.com/maps/search/?api=1&query="

  /** `openInMaps(gym)`: the maps search for the gym's coordinates, where
      `numText` is JavaScript's conversion of a number to text. */
  function MapsUrl(gym: Gym, numText: real -> string): string
  {
    MapsSearchPrefix + numText(gym.latitude) + "," + numText(gym.longitude)
  }

  /** The directions URL is the search prefix followed by
      `<latitude>,<longitude>`: when neither number's text has a comma, the
      query splits back into the two. */
  lemma MapsUrlQuery(gym: Gym, numText: real -> string)
    requires ',' !in numText(gym.latitude) && ',' !in numText(gym.longitude)
    ensures MapsUrl(gym, numText)[..|MapsSearchPrefix|] == MapsSearchPrefix
    ensures Split(MapsUrl(gym, numText)[|MapsSearchPrefix|..], ',') == [numText(gym.latitude), numText(gym.longitude)]
  {
    var lat, lng := numText(gym.latitude), numText(gym.longitude);
    assert MapsUrl(gym, numText)[|MapsSearchPrefix|..] == lat + [','] + lng;
    SplitAround(lat, lng, ',');
    SplitNoSeparator(lat, ',');
    SplitNoSeparator(lng, ',');
  }

  // ---------------------------------------------------------------------
  // The page state
  // ---------------------------------------------------------------------

  /** The distances the radius select offers, in kilometres. */
  const RadiusOptions: seq<int> := [10, 25, 50, 100, 250]

  /** The component's state that the loaders change. */
  class GymsPage {
    var gyms: seq<Gym>
    var loading: bool
    var error: Option<string>
    var searchQuery: string
    var userLocation: Option<Location>
    var searchRadius: int

    /** `useState([])`, `useState(true)`, `useState(null)`, `useState('')`,
        no location yet, radius 50. */
    /** The radius is one the select offers. */
    predicate Valid()
      reads this
    {
      searchRadius in RadiusOptions
    }

    constructor ()
      ensures gyms == [] && loading && error == None && searchQuery == ""
      ensures userLocation == None && searchRadius == 50
      ensures Valid()
    {
      gyms := [];
      loading := true;
      error := None;
      searchQuery := "";
      userLocation := None;
      searchRadius := 50;
    }

    /** The mount effect, given the browser's position fix (`None` when
        geolocation is missing or refused): a fix becomes the user's
        location, whose own effect then runs `FetchNearbyGyms`; without one
        the full list is loaded. */
    method Locate(fix: Option<Location>, all: Outcome<seq<Gym>>) returns (requests: seq<GymRequest>)
      modifies this
      ensures fix.Some? ==> userLocation == fix && requests == []
      ensures fix.Some? ==> gyms == old(gyms) && loading == old(loading) && error == old(error)
      ensures fix.None? ==> userLocation == old(userLocation) && requests == [ListAll] && !loading
      ensures fix.None? && all.Success? ==> gyms == all.data && error == old(error)
      ensures fix.None? && all.Failure? ==> gyms == old(gyms) && error == Some(all.message)
      ensures searchQuery == old(searchQuery) && searchRadius == old(searchRadius)
      ensures old(Valid()) ==> Valid()
    {
      if fix.Some? {
        userLocation := fix;
        return [];
      }
      requests := FetchAllGyms(all);
    }

    /** Typing into the search box changes only the query. */
    method EditQuery(query: string)
      modifies this
      ensures searchQuery == query
      ensures gyms == old(gyms) && loading == old(loading) && error == old(error)
      ensures userLocation == old(userLocation) && searchRadius == old(searchRadius)
      ensures old(Valid()) ==> Valid()
    {
      searchQuery := query;
    }

    /** Picking a distance from the radius select, which is shown only once
        the location is known and offers only `RadiusOptions`. The change of
        radius reruns `FetchNearbyGyms`. */
    method PickRadius(radius: int)
      requires userLocation.Some? && radius in RadiusOptions
      modifies this
      ensures searchRadius == radius && Valid()
      ensures gyms == old(gyms) && loading == old(loading) && error == old(error)
      ensures userLocation == old(userLocation) && searchQuery == old(searchQuery)
    {
      searchRadius := radius;
    }

    /** `fetchAllGyms` with the list service's answer. */
    method FetchAllGyms(all: Outcome<seq<Gym>>) returns (requests: seq<GymRequest>)
      modifies this
      ensures requests == [ListAll] && !loading
      ensures all.Success? ==> gyms == all.data && error == old(error)
      ensures all.Failure? ==> gyms == old(gyms) && error == Some(all.message)
      ensures searchQuery == old(searchQuery) && userLocation == old(userLocation) && searchRadius == old(searchRadius)
    {
      loading := true;
      requests := [ListAll];
      match all {
        case Success(data) => gyms := data;
        case Failure(message) => error := Some(message);
      }
      loading := false;
    }

    /** `fetchNearbyGyms`: nothing without a location; otherwise the nearby
        search, and when that fails the full list instead. A failed nearby
        search records no error of its own. */
    method FetchNearbyGyms(nearby: Outcome<seq<Gym>>, all: Outcome<seq<Gym>>) returns (requests: seq<GymRequest>)
      modifies this
      ensures userLocation.None? ==> requests == [] && gyms == old(gyms) && loading == old(loading) && error == old(error)
      ensures userLocation.Some? ==>
        (!loading && |requests| >= 1 && requests[0] == Nearby(userLocation.value.lat, userLocation.value.lng, searchRadius))
      ensures userLocation.Some? && nearby.Success? ==> requests == requests[..1] && gyms == nearby.data && error == old(error)
      ensures userLocation.Some? && nearby.Failure? ==> requests == requests[..1] + [ListAll]
      ensures userLocation.Some? && nearby.Failure? && all.Success? ==> gyms == all.data && error == old(error)
      ensures userLocation.Some? && nearby.Failure? && all.Failure? ==> gyms == old(gyms) && error == Some(all.message)
      ensures searchQuery == old(searchQuery) && userLocation == old(userLocation) && searchRadius == old(searchRadius)
    {
      if userLocation.None? {
        return [];
      }
      loading := true;
      requests := [Nearby(userLocation.value.lat, userLocation.value.lng, searchRadius)];
      match nearby {
        case Success(data) =>
          gyms := data;
        case Failure(_) =>
          var more := FetchAllGyms(all);
          requests := requests + more;
      }
      loading := false;
    }

    /** `handleSearch`: a blank query reloads (nearby when the location is
        known, else everything); any other query is sent to the text search,
        whose answer replaces the list or records an error. */
    method HandleSearch(apiBase: string, encode: string -> string,
                        nearby: Outcome<seq<Gym>>, all: Outcome<seq<Gym>>, search: Response<seq<Gym>>)
      returns (requests: seq<GymRequest>)
      modifies this
      ensures |requests| >= 1
      ensures requests[0] == old(SearchDispatch(searchQuery, userLocation, searchRadius, apiBase, encode))
      ensures requests[0].TextSearch? ==> requests == requests[..1] && !loading
      ensures requests[0].TextSearch? && search.Ok? ==> gyms == search.data && error == old(error)
      ensures requests[0].TextSearch? && !search.Ok? ==> gyms == old(gyms) && error == Some(SearchError(search))
      ensures requests[0].Nearby? && nearby.Success? ==>
        (requests == requests[..1] && !loading && gyms == nearby.data && error == old(error))
      ensures requests[0].Nearby? && nearby.Failure? ==> requests == requests[..1] + [ListAll] && !loading
      ensures requests[0].ListAll? ==> requests == [ListAll] && !loading
      ensures (requests[0].ListAll? || (requests[0].Nearby? && nearby.Failure?)) && all.Success? ==>
        (gyms == all.data && error == old(error))
      ensures (requests[0].ListAll? || (requests[0].Nearby? && nearby.Failure?)) && all.Failure? ==>
        (gyms == old(gyms) && error == Some(all.message))
      ensures searchQuery == old(searchQuery) && userLocation == old(userLocation) && searchRadius == old(searchRadius)
    {
      if Trim(searchQuery) == "" {
        if userLocation.Some? {
          requests := FetchNearbyGyms(nearby, all);
        } else {
          requests := FetchAllGyms(all);
        }
        return;
      }
      loading := true;
      requests := [TextSearch(SearchUrl(apiBase, searchQuery, encode))];
      match search {
        case Ok(data) => gyms := data;
        case NotOk => error := Some("Search failed");
        case Threw(message) => error := Some(message);
      }
      loading := false;
    }
  }
}
