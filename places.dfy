/**
 * The values exchanged with the places provider: coordinates, the raw result
 * dictionaries of a nearby search, the request and the response, and the
 * status handling shared by `fetch_nearby_places` (maps_debug_display_pins.py)
 * and `fetch_nearby_restaurants` (maps_app.py, reviews_app.py).
 */
module Places {

  datatype Option<T> = None | Some(value: T) {
    /** Python's `d.get(key, default)`: the value when present, else the default. */
    function GetOr(default: T): T {
      match this
      case Some(v) => v
      case None => default
    }
  }

  /** A `[lat, lng]` pair in degrees. */
  datatype Coord = Coord(lat: real, lng: real)

  /**
   * One entry of the provider's `results` array. A field is `None` when its
   * key is absent. `location` is `geometry.location`; an absent geometry or
   * location reads as the empty dictionary, as `.get(..., {})` makes it.
   */
  datatype RawPlace = RawPlace(
    name: Option<string>,
    placeId: Option<string>,
    rating: Option<real>,
    userRatingsTotal: Option<int>,
    location: map<string, real>)

  /** The query string of a nearby search: location, radius in metres, place type. */
  datatype Request = Request(location: Coord, radius: int, placeType: string)

  /** An HTTP reply: its status code and, when the body has one, its `results` array. */
  datatype Response = Response(status: int, results: Option<seq<RawPlace>>)

  const StatusOk := 200
  const DefaultRadius := 2500
  const DefaultPlaceType := "restaurant"

  /** What a nearby-search helper returns for one reply. */
  function ResultsOf(resp: Response): (r: seq<RawPlace>)
    ensures resp.status == StatusOk && resp.results.Some? ==> r == resp.results.value
    ensures resp.status != StatusOk ==> r == []
    ensures resp.results.None? ==> r == []
  {
    if resp.status == StatusOk then resp.results.GetOr([]) else []
  }

  /**
   * One nearby search against the provider; `radius` and `placeType` default
   * as in the Python signature.
   */
  function FetchNearby(provider: Request -> Response, location: Coord,
                       radius: int := DefaultRadius,
                       placeType: string := DefaultPlaceType): (r: seq<RawPlace>)
    ensures var resp := provider(Request(location, radius, placeType));
      && (resp.status == StatusOk && resp.results.Some? ==> r == resp.results.value)
      && (resp.status != StatusOk || resp.results.None? ==> r == [])
  {
    ResultsOf(provider(Request(location, radius, placeType)))
  }
}
