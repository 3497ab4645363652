/**
 * The home screen's route search and quote (app/home.jsx): one state record
 * holding the destination text, the user's position, the route polyline, the
 * route distance and the quoted price, plus the selected vehicle type.
 *
 * Every handler is one atomic step. The geocoding (Nominatim) and routing
 * (OSRM) providers are not called: their answers are parameters, and a step
 * reports the query it would have sent so that contracts can say which query
 * the answer belongs to. Coordinates are integers (for example microdegrees);
 * their floating-point parsing is not modelled.
 */
module Home {
  import opened Wrappers
  import Text
  import Fare

  /** A `[lat, lon]` position as the screen stores it. */
  datatype LatLon = LatLon(lat: int, lon: int)

  /** One GeoJSON position of an OSRM route geometry: `[lon, lat]`. */
  datatype Position = Position(lon: int, lat: int)

  /**
   * One entry of `route.routes`: its geometry and its distance in whole metres,
   * the floor of OSRM's `distance`. Nothing shown is lost by the floor, because
   * rounding `(x + 5) / 10` down gives the same hundredth for `x` and its floor.
   */
  datatype OsrmRoute = OsrmRoute(coordinates: seq<Position>, distanceMeters: nat)

  /** What the geocoder answered: a network/parse failure, or its (possibly empty) hit list. */
  datatype GeoReply = GeoUnreachable | GeoHits(hits: seq<LatLon>)

  /** What the router answered: a network/parse failure, or a body whose `routes` may be absent. */
  datatype RouteReply = RouteUnreachable | RouteBody(routes: Option<seq<OsrmRoute>>)

  /** What the position request answered (web only). */
  datatype LocationReply = PermissionDenied | LocationFailed | Located(position: LatLon)

  /** The OSRM request `driving/{originLon},{originLat};{destLon},{destLat}`. */
  datatype RouteQuery = RouteQuery(originLon: int, originLat: int, destLon: int, destLat: int)

  /**
   * `routeData`. `routeDistance` is `None` while it still holds the initial
   * number 0 (falsy); after a search it holds the `toFixed(2)` text, which is
   * never empty and therefore truthy even when it reads "0.00".
   */
  datatype RouteData = RouteData(
    input: string,
    userLocation: Option<LatLon>,
    routeCoords: seq<LatLon>,
    routeDistance: Option<nat>,
    routePrice: nat)

  /** The whole screen: `routeData` and the separate `vehicleType`. */
  datatype Screen = Screen(data: RouteData, vehicleType: string)

  /** The result of one search: the new state, the alert shown, and the requests sent. */
  datatype SearchStep = SearchStep(
    data: RouteData,
    alert: Option<string>,
    geocodeQuery: Option<string>,
    routeQuery: Option<RouteQuery>)

  const InitialData := RouteData("", None, [], None, 0)
  const InitialScreen := Screen(InitialData, "Bike")

  /** `[lon, lat]` to `[lat, lon]` for one position. */
  function ToLatLon(p: Position): LatLon {
    LatLon(p.lat, p.lon)
  }

  /** The map's inverse, `[lat, lon]` back to `[lon, lat]`. */
  function ToPosition(c: LatLon): Position {
    Position(c.lon, c.lat)
  }

  /** `coordinates.map(c => [c[1], c[0]])`: every position swapped, same length and order. */
  function SwapAll(ps: seq<Position>): (r: seq<LatLon>)
    ensures |r| == |ps|
    ensures forall i :: 0 <= i < |ps| ==> r[i].lat == ps[i].lat && r[i].lon == ps[i].lon
  {
    if ps == [] then [] else [ToLatLon(ps[0])] + SwapAll(ps[1..])
  }

  function UnswapAll(cs: seq<LatLon>): (r: seq<Position>)
    ensures |r| == |cs|
    ensures forall i :: 0 <= i < |cs| ==> r[i] == ToPosition(cs[i])
  {
    if cs == [] then [] else [ToPosition(cs[0])] + UnswapAll(cs[1..])
  }

  /** Swapping loses nothing: swapping back gives the OSRM geometry again. */
  lemma SwapRoundTrip(ps: seq<Position>)
    ensures UnswapAll(SwapAll(ps)) == ps
  {
    var r := UnswapAll(SwapAll(ps));
    assert forall i :: 0 <= i < |ps| ==> r[i] == ps[i];
  }

  /** The swap distributes over concatenation, so a route's legs can be swapped separately. */
  lemma SwapAppend(a: seq<Position>, b: seq<Position>)
    ensures SwapAll(a + b) == SwapAll(a) + SwapAll(b)
  {
    var l := SwapAll(a + b);
    var r := SwapAll(a) + SwapAll(b);
    forall i | 0 <= i < |l|
      ensures l[i] == r[i]
    {
      if i < |a| {
        assert (a + b)[i] == a[i];
      } else {
        assert (a + b)[i] == b[i - |a|];
      }
    }
  }

  /** Typing in the search box changes only `input`. */
  function SetInput(d: RouteData, text: string): (r: RouteData)
    ensures r.input == text
    ensures r.userLocation == d.userLocation && r.routeCoords == d.routeCoords
    ensures r.routeDistance == d.routeDistance && r.routePrice == d.routePrice
  {
    d.(input := text)
  }

  /** The web location effect: a granted position is stored; a denial or an error changes nothing. */
  function ApplyLocation(d: RouteData, reply: LocationReply): (r: RouteData)
    ensures reply.Located? ==> r.userLocation == Some(reply.position)
    ensures !reply.Located? ==> r == d
    ensures r.input == d.input && r.routeCoords == d.routeCoords
    ensures r.routeDistance == d.routeDistance && r.routePrice == d.routePrice
  {
    match reply
    case Located(p) => d.(userLocation := Some(p))
    case _ => d
  }

  /**
   * The price effect: when `routeDistance` is still falsy nothing happens;
   * otherwise `routePrice` becomes the distance times the rate of the
   * selected vehicle and nothing else changes.
   */
  function PriceEffect(d: RouteData, vehicleType: string): (r: RouteData)
    ensures d.routeDistance.None? ==> r == d
    ensures d.routeDistance.Some? ==> r.routePrice == Fare.Price(d.routeDistance.value, vehicleType)
    ensures r.input == d.input && r.userLocation == d.userLocation
    ensures r.routeCoords == d.routeCoords && r.routeDistance == d.routeDistance
  {
    match d.routeDistance
    case None => d
    case Some(h) => d.(routePrice := Fare.Price(h, vehicleType))
  }

  /** The search goes through: non-blank input, a known position, a first hit, and a non-empty route list. */
  predicate SearchSucceeds(d: RouteData, geo: GeoReply, route: RouteReply) {
    && Text.Trim(Text.JsWhitespace, d.input) != []
    && d.userLocation.Some?
    && geo.GeoHits? && |geo.hits| > 0
    && route.RouteBody? && route.routes.Some? && route.routes.value != []
  }

  /**
   * `handleSearchDestination`, given what the geocoder and the router would
   * answer. Checks run in the source's order: blank input, missing location,
   * geocoder failure or no hit, router failure or no route; each failure shows
   * its alert and leaves the state as it was. A success stores the first
   * route's swapped geometry and its distance, and nothing else.
   */
  function Search(d: RouteData, geo: GeoReply, route: RouteReply): (r: SearchStep)
    // The input check comes first and sends nothing.
    ensures Text.Trim(Text.JsWhitespace, d.input) == []
      ==> r == SearchStep(d, Some("Enter destination"), None, None)
    // Then the location check, again before any request.
    ensures Text.Trim(Text.JsWhitespace, d.input) != [] && d.userLocation.None?
      ==> r == SearchStep(d, Some("Location unavailable"), None, None)
    // Otherwise the geocoder is asked for the untrimmed input.
    ensures Text.Trim(Text.JsWhitespace, d.input) != [] && d.userLocation.Some?
      ==> r.geocodeQuery == Some(d.input)
    // The router is asked exactly when a first hit exists, from the user's position to that hit, longitude first.
    ensures r.routeQuery.Some? <==>
      (Text.Trim(Text.JsWhitespace, d.input) != [] && d.userLocation.Some? && geo.GeoHits? && |geo.hits| > 0)
    ensures r.routeQuery.Some? ==>
      r.routeQuery.value == RouteQuery(d.userLocation.value.lon, d.userLocation.value.lat,
                                       geo.hits[0].lon, geo.hits[0].lat)
    ensures r.geocodeQuery.Some? && geo.GeoHits? && geo.hits == []
      ==> r.data == d && r.alert == Some("Not found")
    ensures r.routeQuery.Some? && route.RouteBody? && (route.routes.None? || route.routes.value == [])
      ==> r.data == d && r.alert == Some("Route not found")
    ensures r.geocodeQuery.Some? && (geo.GeoUnreachable? || (r.routeQuery.Some? && route.RouteUnreachable?))
      ==> r.data == d && r.alert == Some("Error fetching route")
    // Every alert leaves the state as it was; the step is silent exactly when everything went through.
    ensures r.alert.Some? ==> r.data == d
    ensures r.alert.None? <==> SearchSucceeds(d, geo, route)
    ensures r.alert.None? ==>
      && r.routeQuery.Some? && route.RouteBody? && route.routes.Some? && route.routes.value != []
      && r.data.routeCoords == SwapAll(route.routes.value[0].coordinates)
      && r.data.routeDistance == Some(Fare.KmHundredths(route.routes.value[0].distanceMeters))
      && r.data.input == d.input && r.data.userLocation == d.userLocation
      && r.data.routePrice == d.routePrice
  {
    if Text.Trim(Text.JsWhitespace, d.input) == [] then
      SearchStep(d, Some("Enter destination"), None, None)
    else if d.userLocation.None? then
      SearchStep(d, Some("Location unavailable"), None, None)
    else
      var asked := Some(d.input);
      match geo
      case GeoUnreachable => SearchStep(d, Some("Error fetching route"), asked, None)
      case GeoHits(hits) =>
        if hits == [] then SearchStep(d, Some("Not found"), asked, None)
        else
          var loc := d.userLocation.value;
          var q := Some(RouteQuery(loc.lon, loc.lat, hits[0].lon, hits[0].lat));
          match route
          case RouteUnreachable => SearchStep(d, Some("Error fetching route"), asked, q)
          case RouteBody(routes) =>
            if routes.None? || routes.value == [] then SearchStep(d, Some("Route not found"), asked, q)
            else
              var first := routes.value[0];
              var next := d.(routeCoords := SwapAll(first.coordinates),
                             routeDistance := Some(Fare.KmHundredths(first.distanceMeters)));
              SearchStep(next, None, asked, q)
  }

  /** The price on screen agrees with the shown distance and the selected vehicle; it is 0 before any route. */
  predicate QuoteConsistent(s: Screen) {
    match s.data.routeDistance
    case None => s.data.routePrice == 0
    case Some(h) => s.data.routePrice == Fare.Price(h, s.vehicleType)
  }

  /** On a consistent screen the price effect changes nothing, so running it when its inputs did not change is harmless. */
  lemma PriceEffectSettled(s: Screen)
    requires QuoteConsistent(s)
    ensures PriceEffect(s.data, s.vehicleType) == s.data
  {
  }

  /** One user-visible event on the home screen. */
  datatype Event =
    | Type(text: string)
    | Locate(reply: LocationReply)
    | ChooseVehicle(vehicleType: string)
    | SubmitSearch(geo: GeoReply, route: RouteReply)

  /** The screen after one event, with the price effect run after it. */
  function Step(s: Screen, e: Event): (r: Screen)
    ensures QuoteConsistent(s) ==> QuoteConsistent(r)
    ensures r.data.routeDistance.Some? ==> QuoteConsistent(r)
    ensures e.ChooseVehicle? ==> r.vehicleType == e.vehicleType && r.data.routeCoords == s.data.routeCoords
    ensures !e.ChooseVehicle? ==> r.vehicleType == s.vehicleType
    ensures e.SubmitSearch? && SearchSucceeds(s.data, e.geo, e.route) ==>
      var first := e.route.routes.value[0];
      && r.data.routeDistance == Some(Fare.KmHundredths(first.distanceMeters))
      && r.data.routePrice == Fare.Price(Fare.KmHundredths(first.distanceMeters), s.vehicleType)
      && r.data.input == s.data.input && r.data.userLocation == s.data.userLocation
  {
    match e
    case Type(text) => Screen(PriceEffect(SetInput(s.data, text), s.vehicleType), s.vehicleType)
    case Locate(reply) => Screen(PriceEffect(ApplyLocation(s.data, reply), s.vehicleType), s.vehicleType)
    case ChooseVehicle(v) => Screen(PriceEffect(s.data, v), v)
    case SubmitSearch(geo, route) => Screen(PriceEffect(Search(s.data, geo, route).data, s.vehicleType), s.vehicleType)
  }

  /** The screen after a sequence of events, in order. */
  function Run(s: Screen, events: seq<Event>): Screen
    decreases |events|
  {
    if events == [] then s else Run(Step(s, events[0]), events[1..])
  }

  lemma InitialQuoteConsistent()
    ensures QuoteConsistent(InitialScreen)
  {
  }

  /** Whatever the user does, the price shown always equals the distance shown times the selected vehicle's rate. */
  lemma {:induction false} RunKeepsQuoteConsistent(s: Screen, events: seq<Event>)
    requires QuoteConsistent(s)
    ensures QuoteConsistent(Run(s, events))
    decreases |events|
  {
    if events != [] {
      RunKeepsQuoteConsistent(Step(s, events[0]), events[1..]);
    }
  }
}
