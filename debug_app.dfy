/**
 * The search button of maps_debug_display_pins.py: collect the raw results,
 * build the deduplicated records, rank them and link each one.
 */
module DebugApp {
  import opened Places
  import opened Dedup
  import opened Aggregation
  import opened Listings
  import opened Ranking
  import opened Links

  /**
   * Lines 155-224: the raw results, the records without duplicates, ranked;
   * each ranked record has a deep link.
   */
  method SearchAndRank(provider: Request -> Response, marker: Coord, radius: int, placeType: string,
                       gridSearchEnabled: bool, latOffset: real, lngOffset: real)
    returns (sortedPlaces: seq<Listing>)
    ensures var places := FirstByKey(LocatedListings(
        SearchResults(provider, marker, radius, placeType, gridSearchEnabled, latOffset, lngOffset)), Whole);
      && multiset(sortedPlaces) == multiset(places)
      && NonIncreasing(sortedPlaces)
      && (forall count :: WithCount(sortedPlaces, count) == WithCount(places, count))
    ensures forall i :: 0 <= i < |sortedPlaces| ==> MapsLink(sortedPlaces[i]).Some?
  {
    var allResults := CollectResults(provider, marker, radius, placeType, gridSearchEnabled, latOffset, lngOffset);
    var places := BuildListings(allResults);
    sortedPlaces := Rank(places);
    forall i | 0 <= i < |sortedPlaces| ensures MapsLink(sortedPlaces[i]).Some? {
      assert sortedPlaces[i] in multiset(places);
      DebugRecordsHaveLinks(sortedPlaces[i], allResults);
    }
  }

  /** Every record built by the listing step has a name, so its link exists. */
  lemma DebugRecordsHaveLinks(place: Listing, allResults: seq<RawPlace>)
    requires place in FirstByKey(LocatedListings(allResults), Whole)
    ensures place.name.Some? && MapsLink(place).Some?
  {
    var located := LocatedListings(allResults);
    FirstByKeyKeepsFirsts(located, Whole);
    var j :| 0 <= j < |located| && located[j] == place && FirstAt(located, Whole, j);
    assert place in located;
    var p :| p in allResults && HasLocation(p) && place == ProjectDebug(p);
  }
}
