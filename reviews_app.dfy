/**
 * The search button of reviews_app.py: one nearby search relying on the
 * helper's defaults, every result projected, ranked by review count.
 */
module ReviewsApp {
  import opened Places
  import opened Listings
  import opened Ranking

  function RankedRestaurants(provider: Request -> Response, marker: Coord): (r: seq<Listing>)
    ensures var places := ProjectAll(ResultsOf(provider(Request(marker, 2500, "restaurant"))));
      && multiset(r) == multiset(places)
      && NonIncreasing(r)
      && (forall count :: WithCount(r, count) == WithCount(places, count))
  {
    Rank(ProjectAll(FetchNearby(provider, marker)))
  }
}
