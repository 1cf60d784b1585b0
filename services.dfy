/** The request URLs and headers of the backend clients
    (src/services/BackendServices.jsx). Only the construction of the strings
    is modelled; `fetch` and the answers are not. */
module BackendServices {
  import opened Wrappers
  import opened JsText

  /** `import.meta.env.VITE_API_URL || 'http://localhost:8000'`. */
  function ApiBase(env: Option<string>): (base: string)
    ensures Truthy(env) ==> base == env.value
    ensures !Truthy(env) ==> base == "http://localhost:8000"
  {
    if Truthy(env) then env.value else "http://localhost:8000"
  }

  /** A filter the source tests with `if (value)`: a string that is present
      and not empty. */
  predicate Truthy(v: Option<string>)
  {
    v.Some? && v.value != ""
  }

  /** A defaulted numeric argument: `None` is an omitted argument. */
  function OrDefault(v: Option<nat>, d: nat): nat
  {
    if v.Some? then v.value else d
  }

  // ---------------------------------------------------------------------
  // Query strings
  // ---------------------------------------------------------------------

  /** A query parameter, name and value. */
  type Param = (string, string)

  function Field(p: Param): string
  {
    p.0 + "=" + p.1
  }

  function Fields(ps: seq<Param>): (fs: seq<string>)
    ensures |fs| == |ps| && forall i :: 0 <= i < |ps| ==> fs[i] == Field(ps[i])
  {
    seq(|ps|, i requires 0 <= i < |ps| => Field(ps[i]))
  }

  /** `name=value` fields joined by `&`; values go in verbatim. */
  function QueryString(ps: seq<Param>): string
  {
    Join(Fields(ps), '&')
  }

  /** A parameter present when the filter is truthy. */
  function IfTruthy(name: string, v: Option<string>): seq<Param>
  {
    if Truthy(v) then [(name, v.value)] else []
  }

  /** A parameter present when the flag is not null; `false` is sent. */
  function IfNotNull(name: string, b: Option<bool>): seq<Param>
  {
    if b.Some? then [(name, BoolToString(b.value))] else []
  }

  /** The parameters of `listTournaments`. */
  function TournamentParams(status: Option<string>, country: Option<string>, isGi: Option<bool>): seq<Param>
  {
    [("limit", "50")] + IfTruthy("status", status) + IfTruthy("country", country) + IfNotNull("is_gi", isGi)
  }

  /** `skip` and `limit` with their defaults 0 and 50. */
  function PageParams(skip: Option<nat>, limit: Option<nat>): seq<Param>
  {
    [("skip", NatToString(OrDefault(skip, 0))), ("limit", NatToString(OrDefault(limit, 50)))]
  }

  /** The parameters of `listGyms`. */
  function GymParams(city: Option<string>, country: Option<string>, hasGi: Option<bool>,
                     skip: Option<nat>, limit: Option<nat>): seq<Param>
  {
    PageParams(skip, limit) + IfTruthy("city", city) + IfTruthy("country", country) + IfNotNull("has_gi", hasGi)
  }

  /** The parameters of `listSeminars`. */
  function SeminarParams(status: Option<string>, country: Option<string>, isGi: Option<bool>,
                         skip: Option<nat>, limit: Option<nat>): seq<Param>
  {
    PageParams(skip, limit) + IfTruthy("status", status) + IfTruthy("country", country) + IfNotNull("is_gi", isGi)
  }

  /** The parameters of `getEvents`. */
  function EventParams(eventType: Option<string>, fromDate: Option<string>, toDate: Option<string>): seq<Param>
  {
    IfTruthy("event_type", eventType) + IfTruthy("from_date", fromDate) + IfTruthy("to_date", toDate)
  }

  /** Appending a parameter appends `&name=value`. */
  lemma {:induction false} QueryStringSnoc(ps: seq<Param>, p: Param)
    requires |ps| >= 1
    ensures QueryString(ps + [p]) == QueryString(ps) + "&" + Field(p)
  {
    JoinSnoc(Fields(ps), Field(p), '&');
    assert Fields(ps + [p]) == Fields(ps) + [Field(p)];
  }

  lemma {:induction false} JoinSnoc(parts: seq<string>, last: string, sep: char)
    requires |parts| >= 1
    ensures Join(parts + [last], sep) == Join(parts, sep) + [sep] + last
  {
    if |parts| == 1 {
      assert parts + [last] == [parts[0], last];
    } else {
      assert (parts + [last])[1..] == parts[1..] + [last];
      JoinSnoc(parts[1..], last, sep);
    }
  }

  /** Concatenation of parameter lists concatenates their fields. */
  lemma FieldsAppend(a: seq<Param>, b: seq<Param>)
    ensures Fields(a + b) == Fields(a) + Fields(b)
  {
  }

  /** One `url += \`&name=${value}\`` step of a URL builder appends one
      parameter to the query. */
  lemma Extend(prefix: string, ps: seq<Param>, url: string, piece: string, name: string, value: string)
    requires |ps| >= 1 && url == prefix + QueryString(ps) && piece == "&" + name + "="
    ensures url + (piece + value) == prefix + QueryString(ps + [(name, value)])
  {
    QueryStringSnoc(ps, (name, value));
    assert piece + value == "&" + Field((name, value));
  }

  /** The step `if (value) url += \`&name=${value}\``. */
  lemma TruthyStep(prefix: string, ps: seq<Param>, url: string, piece: string, name: string, v: Option<string>)
    requires |ps| >= 1 && url == prefix + QueryString(ps) && piece == "&" + name + "="
    ensures (if Truthy(v) then url + (piece + v.value) else url) == prefix + QueryString(ps + IfTruthy(name, v))
  {
    if Truthy(v) {
      Extend(prefix, ps, url, piece, name, v.value);
    } else {
      assert ps + IfTruthy(name, v) == ps;
    }
  }

  /** The step `if (flag !== null) url += \`&name=${flag}\``. */
  lemma FlagStep(prefix: string, ps: seq<Param>, url: string, piece: string, name: string, b: Option<bool>)
    requires |ps| >= 1 && url == prefix + QueryString(ps) && piece == "&" + name + "="
    ensures (if b.Some? then url + (piece + BoolToString(b.value)) else url) == prefix + QueryString(ps + IfNotNull(name, b))
  {
    if b.Some? {
      Extend(prefix, ps, url, piece, name, BoolToString(b.value));
    } else {
      assert ps + IfNotNull(name, b) == ps;
    }
  }

  // ---------------------------------------------------------------------
  // The URL builders, as the source writes them
  // ---------------------------------------------------------------------

  /** `listTournaments(status, country, isGi)`. */
  method ListTournamentsUrl(apiBase: string, status: Option<string>, country: Option<string>, isGi: Option<bool>)
    returns (url: string)
    ensures url == apiBase + "/api/tournaments?" + QueryString(TournamentParams(status, country, isGi))
  {
    var prefix := apiBase + "/api/tournaments?";
    ghost var ps0: seq<Param> := [("limit", "50")];
    assert QueryString(ps0) == "limit=50";
    url := prefix + "limit=50";
    TruthyStep(prefix, ps0, url, "&status=", "status", status);
    if Truthy(status) { url := url + ("&status=" + status.value); }
    ghost var ps1 := ps0 + IfTruthy("status", status);
    TruthyStep(prefix, ps1, url, "&country=", "country", country);
    if Truthy(country) { url := url + ("&country=" + country.value); }
    ghost var ps2 := ps1 + IfTruthy("country", country);
    FlagStep(prefix, ps2, url, "&is_gi=", "is_gi", isGi);
    if isGi.Some? { url := url + ("&is_gi=" + BoolToString(isGi.value)); }
    assert ps2 + IfNotNull("is_gi", isGi) == TournamentParams(status, country, isGi);
  }

  /** The common query of `listGyms` and `listSeminars`: `skip` and `limit`
      then three optional filters. */
  method PagedUrl(path: string, skip: Option<nat>, limit: Option<nat>,
                  name1: string, v1: Option<string>, name2: string, v2: Option<string>,
                  flag: string, b: Option<bool>)
    returns (url: string)
    ensures url == path + "?" + QueryString(PageParams(skip, limit) + IfTruthy(name1, v1) + IfTruthy(name2, v2) + IfNotNull(flag, b))
  {
    var prefix := path + "?";
    var skipText, limitText := NatToString(OrDefault(skip, 0)), NatToString(OrDefault(limit, 50));
    ghost var ps0: seq<Param> := [("skip", skipText)];
    assert QueryString(ps0) == "skip=" + skipText;
    url := prefix + ("skip=" + skipText);
    Extend(prefix, ps0, url, "&limit=", "limit", limitText);
    url := url + ("&limit=" + limitText);
    ghost var ps1 := ps0 + [("limit", limitText)];
    assert ps1 == PageParams(skip, limit);
    TruthyStep(prefix, ps1, url, "&" + name1 + "=", name1, v1);
    if Truthy(v1) { url := url + ("&" + name1 + "=" + v1.value); }
    ghost var ps2 := ps1 + IfTruthy(name1, v1);
    TruthyStep(prefix, ps2, url, "&" + name2 + "=", name2, v2);
    if Truthy(v2) { url := url + ("&" + name2 + "=" + v2.value); }
    ghost var ps3 := ps2 + IfTruthy(name2, v2);
    FlagStep(prefix, ps3, url, "&" + flag + "=", flag, b);
    if b.Some? { url := url + ("&" + flag + "=" + BoolToString(b.value)); }
  }

  /** `listGyms(city, country, hasGi, skip, limit)`. */
  method ListGymsUrl(apiBase: string, city: Option<string>, country: Option<string>, hasGi: Option<bool>,
                     skip: Option<nat>, limit: Option<nat>)
    returns (url: string)
    ensures url == apiBase + "/api/gyms?" + QueryString(GymParams(city, country, hasGi, skip, limit))
  {
    url := PagedUrl(apiBase + "/api/gyms", skip, limit, "city", city, "country", country, "has_gi", hasGi);
  }

  /** `listSeminars(status, country, isGi, skip, limit)`. */
  method ListSeminarsUrl(apiBase: string, status: Option<string>, country: Option<string>, isGi: Option<bool>,
                         skip: Option<nat>, limit: Option<nat>)
    returns (url: string)
    ensures url == apiBase + "/api/seminars?" + QueryString(SeminarParams(status, country, isGi, skip, limit))
  {
    url := PagedUrl(apiBase + "/api/seminars", skip, limit, "status", status, "country", country, "is_gi", isGi);
  }

  /** The step `if (value) params.push(\`name=${value}\`)`. */
  lemma PushStep(params: seq<string>, ps: seq<Param>, piece: string, name: string, v: Option<string>)
    requires params == Fields(ps) && piece == name + "="
    ensures (if Truthy(v) then params + [piece + v.value] else params) == Fields(ps + IfTruthy(name, v))
  {
    FieldsAppend(ps, IfTruthy(name, v));
    if Truthy(v) {
      assert Fields([(name, v.value)]) == [Field((name, v.value))];
    }
  }

  /** The pushes of `getEvents` into `params`. */
  method EventFields(eventType: Option<string>, fromDate: Option<string>, toDate: Option<string>)
    returns (params: seq<string>)
    ensures params == Fields(EventParams(eventType, fromDate, toDate))
  {
    var a, b, c := IfTruthy("event_type", eventType), IfTruthy("from_date", fromDate), IfTruthy("to_date", toDate);
    params := [];
    PushStep(params, [], "event_type=", "event_type", eventType);
    if Truthy(eventType) { params := params + ["event_type=" + eventType.value]; }
    PushStep(params, a, "from_date=", "from_date", fromDate);
    if Truthy(fromDate) { params := params + ["from_date=" + fromDate.value]; }
    PushStep(params, a + b, "to_date=", "to_date", toDate);
    if Truthy(toDate) { params := params + ["to_date=" + toDate.value]; }
    assert [] + a == a;
  }

  /** The `getEvents` URL: `?` and the joined parameters only when there is
      at least one. */
  function EventsUrl(apiBase: string, eventType: Option<string>, fromDate: Option<string>, toDate: Option<string>): string
  {
    var ps := EventParams(eventType, fromDate, toDate);
    apiBase + "/api/calendar" + (if ps == [] then "" else "?" + QueryString(ps))
  }

  /** `getEvents(eventType, fromDate, toDate)`. */
  method GetEventsUrl(apiBase: string, eventType: Option<string>, fromDate: Option<string>, toDate: Option<string>)
    returns (url: string)
    ensures url == EventsUrl(apiBase, eventType, fromDate, toDate)
  {
    url := apiBase + "/api/calendar";
    var params := EventFields(eventType, fromDate, toDate);
    if |params| > 0 {
      url := url + "?" + Join(params, '&');
    }
  }

  /** `getEvents` puts a `?` after the path exactly when a filter is
      truthy; without filters the URL is the bare path. */
  lemma EventsQuestionMark(apiBase: string, eventType: Option<string>, fromDate: Option<string>, toDate: Option<string>)
    ensures var url := EventsUrl(apiBase, eventType, fromDate, toDate);
      |url| >= |apiBase| && url[..|apiBase|] == apiBase &&
      ('?' in url[|apiBase|..] <==> Truthy(eventType) || Truthy(fromDate) || Truthy(toDate))
    ensures !Truthy(eventType) && !Truthy(fromDate) && !Truthy(toDate) ==>
      EventsUrl(apiBase, eventType, fromDate, toDate) == apiBase + "/api/calendar"
  {
    var url := EventsUrl(apiBase, eventType, fromDate, toDate);
    var ps := EventParams(eventType, fromDate, toDate);
    var path := "/api/calendar";
    assert '?' !in path;
    if ps == [] {
      assert url[|apiBase|..] == path;
    } else {
      assert url[|apiBase|..] == path + "?" + QueryString(ps);
      assert url[|apiBase|..][|path|] == '?';
    }
  }

  /** `searchNearby(latitude, longitude, radiusKm)`, where `numText` is
      JavaScript's conversion of a number to text; the radius defaults to
      50. */
  function NearbyUrl(apiBase: string, latitude: real, longitude: real, radiusKm: Option<nat>, numText: real -> string): string
  {
    apiBase + "/api/gyms/nearby?lat=" + numText(latitude) + "&lng=" + numText(longitude)
      + "&radius=" + NatToString(OrDefault(radiusKm, 50))
  }

  /** The nearby query carries `lat`, `lng` and `radius`, in that order. */
  lemma NearbyQuery(apiBase: string, latitude: real, longitude: real, radiusKm: Option<nat>, numText: real -> string)
    ensures NearbyUrl(apiBase, latitude, longitude, radiusKm, numText) == apiBase + "/api/gyms/nearby?" +
      QueryString([("lat", numText(latitude)), ("lng", numText(longitude)), ("radius", NatToString(OrDefault(radiusKm, 50)))])
  {
    var lat, lng, r := numText(latitude), numText(longitude), NatToString(OrDefault(radiusKm, 50));
    QueryString3(("lat", lat), ("lng", lng), ("radius", r));
    NearbyText(apiBase, lat, lng, r);
  }

  /** Three parameters give three fields joined by `&`. */
  lemma QueryString3(a: Param, b: Param, c: Param)
    ensures QueryString([a, b, c]) == Field(a) + "&" + Field(b) + "&" + Field(c)
  {
    var fs := [Field(a), Field(b), Field(c)];
    assert Fields([a, b, c]) == fs;
    assert fs[1..][1..] == [Field(c)];
    assert Join(fs[1..], '&') == Field(b) + "&" + Field(c);
    assert Join(fs, '&') == Field(a) + "&" + (Field(b) + "&" + Field(c));
  }

  lemma NearbyText(base: string, lat: string, lng: string, r: string)
    ensures base + "/api/gyms/nearby?lat=" + lat + "&lng=" + lng + "&radius=" + r ==
      base + "/api/gyms/nearby?" + (("lat" + "=" + lat) + "&" + ("lng" + "=" + lng) + "&" + ("radius" + "=" + r))
  {
    assert "/api/gyms/nearby?lat=" == "/api/gyms/nearby?" + "lat" + "=";
    assert "&lng=" == "&" + "lng" + "=";
    assert "&radius=" == "&" + "radius" + "=";
  }

  /** `getUpcoming(limit)` of the tournament or seminar client; the limit
      defaults to 20. */
  function UpcomingUrl(apiBase: string, resource: string, limit: Option<nat>): string
  {
    apiBase + "/api/" + resource + "/upcoming?limit=" + NatToString(OrDefault(limit, 20))
  }

  /** An omitted limit is 20. */
  lemma UpcomingDefault(apiBase: string, resource: string)
    ensures UpcomingUrl(apiBase, resource, None) == apiBase + "/api/" + resource + "/upcoming?limit=20"
  {
    assert NatToString(20) == "20";
  }

  /** An omitted radius is 50. */
  lemma NearbyDefault(apiBase: string, latitude: real, longitude: real, numText: real -> string)
    ensures NearbyUrl(apiBase, latitude, longitude, None, numText) ==
      apiBase + "/api/gyms/nearby?lat=" + numText(latitude) + "&lng=" + numText(longitude) + "&radius=50"
  {
    assert NatToString(50) == "50";
  }

  // ---------------------------------------------------------------------
  // Reading a query back
  // ---------------------------------------------------------------------

  /** A name or value that cannot be mistaken for query syntax. */
  predicate Plain(s: string)
  {
    '&' !in s && '=' !in s
  }

  /** The fields of a query and the pieces of each field, split at `&` and
      then at `=`. */
  function ParseQuery(q: string): (fields: seq<seq<string>>)
    ensures |fields| == |Split(q, '&')|
  {
    var items := Split(q, '&');
    seq(|items|, i requires 0 <= i < |items| => Split(items[i], '='))
  }

  /** A field of plain name and value splits back into the two. */
  lemma FieldSplits(p: Param)
    requires Plain(p.0) && Plain(p.1)
    ensures '&' !in Field(p)
    ensures Split(Field(p), '=') == [p.0, p.1]
  {
    assert Field(p) == p.0 + ['='] + p.1;
    SplitAround(p.0, p.1, '=');
    SplitNoSeparator(p.0, '=');
    SplitNoSeparator(p.1, '=');
  }

  /** A query built of plain names and values reads back as exactly its
      parameters, in order. */
  lemma QueryRoundTrip(ps: seq<Param>)
    requires |ps| >= 1
    requires forall i :: 0 <= i < |ps| ==> Plain(ps[i].0) && Plain(ps[i].1)
    ensures |ParseQuery(QueryString(ps))| == |ps|
    ensures forall i :: 0 <= i < |ps| ==> ParseQuery(QueryString(ps))[i] == [ps[i].0, ps[i].1]
  {
    var fs := Fields(ps);
    forall k | 0 <= k < |fs| ensures '&' !in fs[k] {
      FieldSplits(ps[k]);
    }
    SplitJoin(fs, '&');
    forall i | 0 <= i < |ps| ensures ParseQuery(QueryString(ps))[i] == [ps[i].0, ps[i].1] {
      FieldSplits(ps[i]);
    }
  }

  /** Filter values are not encoded: a status holding `&limit=1` adds a
      second `limit` to the tournament query. */
  lemma VerbatimValueInjects()
    ensures QueryString(TournamentParams(Some("open&limit=1"), None, None)) ==
      QueryString([("limit", "50"), ("status", "open"), ("limit", "1")])
  {
    assert TournamentParams(Some("open&limit=1"), None, None) == [("limit", "50"), ("status", "open&limit=1")];
    QueryString2(("limit", "50"), ("status", "open&limit=1"));
    QueryString3(("limit", "50"), ("status", "open"), ("limit", "1"));
    assert Field(("status", "open&limit=1")) == Field(("status", "open")) + "&" + Field(("limit", "1"));
  }

  /** Read back, that query has three fields, the last a second `limit`. */
  lemma InjectedQueryParses()
    ensures ParseQuery(QueryString(TournamentParams(Some("open&limit=1"), None, None))) ==
      [["limit", "50"], ["status", "open"], ["limit", "1"]]
  {
    var ps: seq<Param> := [("limit", "50"), ("status", "open"), ("limit", "1")];
    VerbatimValueInjects();
    QueryRoundTrip(ps);
    var f := ParseQuery(QueryString(ps));
    assert f[0] == ["limit", "50"] && f[1] == ["status", "open"] && f[2] == ["limit", "1"];
  }

  /** Two parameters give two fields joined by `&`. */
  lemma QueryString2(a: Param, b: Param)
    ensures QueryString([a, b]) == Field(a) + "&" + Field(b)
  {
    var fs := [Field(a), Field(b)];
    assert Fields([a, b]) == fs;
    assert fs[1..] == [Field(b)];
    assert Join(fs[1..], '&') == Field(b);
  }

  // ---------------------------------------------------------------------
  // Headers
  // ---------------------------------------------------------------------

  /** The clients and the request kinds whose headers differ. */
  datatype Client =
    | Profile          // UserProfileService, JSON requests
    | ProfileAvatar    // UserProfileService.uploadAvatar
    | Tournaments      // TournamentService, reads
    | TournamentSignup // TournamentService.registerForTournament
    | Calendar         // CalendarService
    | Gyms             // GymService
    | Coach            // CoachService
    | Seminars         // SeminarService

  /** `Bearer ${token}`: a missing token is written as `null`. */
  function Bearer(token: Option<string>): string
  {
    "Bearer " + (if token.Some? then token.value else "null")
  }

  /** The headers a client sends. */
  function HeadersFor(c: Client, token: Option<string>): (hs: seq<Param>)
    ensures c == Seminars <==> hs == []
    ensures c != Seminars ==> hs[0] == ("Authorization", Bearer(token))
    ensures ("Content-Type", "application/json") in hs <==> c in {Profile, TournamentSignup, Calendar, Coach}
    ensures forall h :: h in hs ==> h.0 in {"Authorization", "Content-Type"}
  {
    match c
    case Seminars => []
    case ProfileAvatar | Tournaments | Gyms => [("Authorization", Bearer(token))]
    case Profile | TournamentSignup | Calendar | Coach =>
      [("Authorization", Bearer(token)), ("Content-Type", "application/json")]
  }

  /** An avatar upload sends the token alone, without a JSON content type. */
  lemma AvatarHeaders(token: Option<string>)
    ensures HeadersFor(ProfileAvatar, token) == [("Authorization", Bearer(token))]
  {
  }

  /** Without a signed-in user the header is still sent, as `Bearer null`. */
  lemma MissingTokenSent()
    ensures HeadersFor(Gyms, None) == [("Authorization", "Bearer null")]
  {
    assert "Bearer " + "null" == "Bearer null";
    assert Bearer(None) == "Bearer null";
  }
}
