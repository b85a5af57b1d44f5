/**
 * The search button of maps_app.py: one nearby search with the chosen radius
 * and place type, every result projected, ranked by review count.
 */
module MapsApp {
  import opened Places
  import opened Listings
  import opened Ranking
  import opened Session

  function RankedPlaces(provider: Request -> Response, marker: Coord, sliderRadius: int, manualRadius: int,
                        placeType: string): (r: seq<Listing>)
    ensures var places := ProjectAll(ResultsOf(provider(Request(marker, manualRadius, placeType))));
      && multiset(r) == multiset(places)
      && NonIncreasing(r)
      && (forall count :: WithCount(r, count) == WithCount(places, count))
  {
    var results := FetchNearby(provider, marker, radius := EffectiveRadius(sliderRadius, manualRadius),
                               placeType := placeType);
    Rank(ProjectAll(results))
  }
}
