/**
 * The values the scripts keep in `st.session_state` across reruns: the last
 * searched query, the marker location and the map zoom, and the steps of the
 * three scripts that update them.
 */
module Session {
  import opened Places

  const Paris := Coord(48.8566, 2.3522)
  const DefaultZoom := 12
  const CloseZoom := 15

  /** What the geolocation widget returns when it returns a dictionary. */
  datatype GeoFix = GeoFix(latitude: Option<real>, longitude: Option<real>)

  /** A candidate of the find-place-from-text endpoint (fields geometry and name). */
  datatype Candidate = Candidate(name: string, location: Coord)

  /** A reply of the find-place-from-text endpoint. */
  datatype FindResponse = FindResponse(status: int, candidates: Option<seq<Candidate>>)

  /** `fetch_place_details`: the first candidate of a successful reply, if any. */
  function FetchPlaceDetails(resp: FindResponse): (r: Option<Candidate>)
    ensures r.Some? <==> resp.status == StatusOk && resp.candidates.Some? && resp.candidates.value != []
    ensures r.Some? ==> r.value == resp.candidates.value[0]
  {
    if resp.status == StatusOk then
      var candidates := resp.candidates.GetOr([]);
      if candidates != [] then Some(candidates[0]) else None
    else None
  }

  /** The widget's reply counts only when it has both coordinates. */
  function FixLocation(fix: Option<GeoFix>): (r: Option<Coord>)
    ensures r.Some? <==> fix.Some? && fix.value.latitude.Some? && fix.value.longitude.Some?
    ensures r.Some? ==> r.value == Coord(fix.value.latitude.value, fix.value.longitude.value)
  {
    match fix
    case Some(GeoFix(Some(lat), Some(lng))) => Some(Coord(lat, lng))
    case _ => None
  }

  /** A lookup happens only for a non-empty query that differs from the last one. */
  predicate ShouldLookUp(query: string, previousQuery: string) {
    query != "" && query != previousQuery
  }

  /**
   * `manual_radius if manual_radius != search_radius else search_radius`:
   * both branches agree, so the custom-radius input always wins.
   */
  function EffectiveRadius(sliderRadius: int, manualRadius: int): (r: int)
    ensures r == manualRadius
  {
    if manualRadius != sliderRadius then manualRadius else sliderRadius
  }

  /** The session keys; `None` stands for a key not yet in the session. */
  datatype View = View(previousQuery: Option<string>, marker: Option<Coord>, zoom: Option<int>)

  /** Marker and zoom are always written together. */
  predicate Coherent(v: View) {
    v.marker.Some? <==> v.zoom.Some?
  }

  /** `if "previous_query" not in st.session_state`: start from the empty query. */
  function InitQuery(v: View): (r: View)
    ensures v.previousQuery.None? ==> r.previousQuery == Some("")
    ensures v.previousQuery.Some? ==> r == v
    ensures r.marker == v.marker && r.zoom == v.zoom
  {
    if v.previousQuery.None? then v.(previousQuery := Some("")) else v
  }

  /** `if "marker_location" not in st.session_state`: Paris at zoom 12. */
  function InitMarker(v: View): (r: View)
    requires Coherent(v)
    ensures Coherent(r) && r.marker.Some?
    ensures v.marker.Some? ==> r == v
    ensures v.marker.None? ==> r.marker == Some(Paris) && r.zoom == Some(DefaultZoom)
    ensures r.previousQuery == v.previousQuery
  {
    if v.marker.None? then v.(marker := Some(Paris), zoom := Some(DefaultZoom)) else v
  }

  /** A geolocation fix with both coordinates moves the marker there at zoom 15. */
  function Geolocate(v: View, fix: Option<GeoFix>): (r: View)
    requires Coherent(v)
    ensures Coherent(r)
    ensures FixLocation(fix).Some? ==> r.marker == FixLocation(fix) && r.zoom == Some(CloseZoom)
    ensures FixLocation(fix).None? ==> r == v
    ensures r.previousQuery == v.previousQuery
  {
    match FixLocation(fix)
    case Some(c) => v.(marker := Some(c), zoom := Some(CloseZoom))
    case None => v
  }

  /** A map click moves the marker to the clicked point at the map's zoom. */
  function Click(v: View, clicked: Option<Coord>, mapZoom: int): (r: View)
    requires Coherent(v)
    ensures Coherent(r)
    ensures clicked.Some? ==> r.marker == clicked && r.zoom == Some(mapZoom)
    ensures clicked.None? ==> r == v
    ensures r.previousQuery == v.previousQuery
  {
    if clicked.Some? then v.(marker := clicked, zoom := Some(mapZoom)) else v
  }

  /**
   * The query handling of the debug app: a changed, non-empty query is looked
   * up and remembered whatever the outcome; marker and zoom move only when
   * the lookup finds a candidate.
   */
  function SearchQuery(v: View, query: string, reply: FindResponse): (r: View)
    requires Coherent(v) && v.previousQuery.Some?
    ensures Coherent(r)
    ensures r.previousQuery == if ShouldLookUp(query, v.previousQuery.value) then Some(query) else v.previousQuery
    ensures ShouldLookUp(query, v.previousQuery.value) && FetchPlaceDetails(reply).Some? ==>
      r.marker == Some(FetchPlaceDetails(reply).value.location) && r.zoom == Some(CloseZoom)
    ensures !(ShouldLookUp(query, v.previousQuery.value) && FetchPlaceDetails(reply).Some?) ==>
      r.marker == v.marker && r.zoom == v.zoom
  {
    if ShouldLookUp(query, v.previousQuery.value) then
      match FetchPlaceDetails(reply)
      case Some(details) => View(Some(query), Some(details.location), Some(CloseZoom))
      case None => v.(previousQuery := Some(query))
    else v
  }

  /**
   * maps_app.py and reviews_app.py apply a fix before the default, the debug
   * app after it; the resulting marker and zoom are the same.
   */
  lemma DefaultAndFixCommute(v: View, fix: Option<GeoFix>)
    requires Coherent(v)
    ensures InitMarker(Geolocate(v, fix)) == Geolocate(InitMarker(v), fix)
  {
    match FixLocation(fix)
    case Some(c) =>
    case None =>
  }

  /** In a new session the first non-empty query is always looked up. */
  lemma FirstQueryIsLookedUp(v: View, query: string)
    requires v.previousQuery.None?
    ensures ShouldLookUp(query, InitQuery(v).previousQuery.value) <==> query != ""
  {
  }

  /** Repeating the same query does not look it up again. */
  lemma QueryIsLookedUpOnce(v: View, query: string, reply: FindResponse, reply': FindResponse)
    requires Coherent(v) && v.previousQuery.Some?
    ensures var w := SearchQuery(v, query, reply);
      SearchQuery(w, query, reply') == w
  {
  }

  /** The session of one browser tab. */
  class SessionState {
    var previousQuery: Option<string>
    var marker: Option<Coord>
    var zoom: Option<int>

    function Snapshot(): View
      reads this
    {
      View(previousQuery, marker, zoom)
    }

    ghost predicate Valid()
      reads this
    {
      Coherent(Snapshot())
    }

    /** A new session holds no keys. */
    constructor ()
      ensures Valid()
      ensures Snapshot() == View(None, None, None)
    {
      previousQuery, marker, zoom := None, None, None;
    }

    method Set(v: View)
      modifies this
      ensures Snapshot() == v
    {
      previousQuery, marker, zoom := v.previousQuery, v.marker, v.zoom;
    }

    /** One run of maps_debug_display_pins.py up to the search button. */
    method DebugRerun(query: string, finder: string -> FindResponse, fix: Option<GeoFix>)
      requires Valid()
      modifies this
      ensures Valid() && marker.Some? && previousQuery.Some?
      ensures Snapshot() ==
        var v := InitMarker(InitQuery(old(Snapshot())));
        Geolocate(SearchQuery(v, query, finder(query)), fix)
    {
      var v := InitQuery(Snapshot());
      v := InitMarker(v);
      if ShouldLookUp(query, v.previousQuery.value) {
        v := SearchQuery(v, query, finder(query));
      }
      v := Geolocate(v, fix);
      Set(v);
    }

    /** One run of maps_app.py or reviews_app.py before the map is drawn. */
    method AppRerun(fix: Option<GeoFix>)
      requires Valid()
      modifies this
      ensures Valid() && marker.Some?
      ensures Snapshot() == InitMarker(Geolocate(old(Snapshot()), fix))
    {
      var v := Geolocate(Snapshot(), fix);
      v := InitMarker(v);
      Set(v);
    }

    /** A click on the rendered map, in any of the three scripts. */
    method ClickMap(clicked: Option<Coord>, mapZoom: int)
      requires Valid()
      modifies this
      ensures Valid()
      ensures Snapshot() == Click(old(Snapshot()), clicked, mapZoom)
    {
      Set(Click(Snapshot(), clicked, mapZoom));
    }
  }
}
