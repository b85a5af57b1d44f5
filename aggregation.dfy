/**
 * Collecting the raw results of one search (maps_debug_display_pins.py,
 * lines 159-182): in grid mode one nearby search per grid point, keeping only
 * the first result of every `place_id`; otherwise the single search's list as
 * it comes.
 */
module Aggregation {
  import opened Places
  import opened Dedup
  import opened Grid

  /** `result.get('place_id')`: the dedup key, where an absent id is the key `None`. */
  function PlaceIdKey(p: RawPlace): Option<string> {
    p.placeId
  }

  /** The results of the searches at `points`, one after the other in point order. */
  function Gathered(provider: Request -> Response, points: seq<Coord>, radius: int, placeType: string): seq<RawPlace>
    decreases |points|
  {
    if points == [] then []
    else
      Gathered(provider, points[..|points| - 1], radius, placeType)
      + FetchNearby(provider, points[|points| - 1], radius, placeType)
  }

  lemma {:induction false} GatheredAppend(provider: Request -> Response, ps: seq<Coord>, qs: seq<Coord>,
                                          radius: int, placeType: string)
    ensures Gathered(provider, ps + qs, radius, placeType)
         == Gathered(provider, ps, radius, placeType) + Gathered(provider, qs, radius, placeType)
    decreases |qs|
  {
    if qs == [] {
      assert ps + qs == ps;
    } else {
      var init := qs[..|qs| - 1];
      assert (ps + qs)[..|ps + qs| - 1] == ps + init;
      assert (ps + qs)[|ps + qs| - 1] == qs[|qs| - 1];
      GatheredAppend(provider, ps, init, radius, placeType);
    }
  }

  /**
   * A point whose search fails contributes nothing: the results are those of
   * the other points, in the same order, and the loop goes on after it.
   */
  lemma FailedPointContributesNothing(provider: Request -> Response, points: seq<Coord>, k: int,
                                      radius: int, placeType: string)
    requires 0 <= k < |points|
    requires provider(Request(points[k], radius, placeType)).status != StatusOk
    ensures Gathered(provider, points, radius, placeType)
         == Gathered(provider, points[..k] + points[k + 1..], radius, placeType)
  {
    assert points == points[..k] + [points[k]] + points[k + 1..];
    GatheredAppend(provider, points[..k] + [points[k]], points[k + 1..], radius, placeType);
    GatheredAppend(provider, points[..k], [points[k]], radius, placeType);
    GatheredAppend(provider, points[..k], points[k + 1..], radius, placeType);
    assert [points[k]][..0] == [];
  }

  /**
   * The inner loop over one point's results: a result whose id is not yet in
   * `seenPlaceIds` has its id recorded and is appended.
   */
  method AddUnseen(allResults: seq<RawPlace>, seenPlaceIds: set<Option<string>>, results: seq<RawPlace>,
                   ghost before: seq<RawPlace>)
    returns (allResults': seq<RawPlace>, seenPlaceIds': set<Option<string>>)
    requires allResults == FirstByKey(before, PlaceIdKey)
    requires seenPlaceIds == KeysOf(before, PlaceIdKey)
    ensures allResults' == FirstByKey(before + results, PlaceIdKey)
    ensures seenPlaceIds' == KeysOf(before + results, PlaceIdKey)
  {
    allResults', seenPlaceIds' := allResults, seenPlaceIds;
    ghost var visited := before;
    var n := 0;
    while n < |results|
      invariant 0 <= n <= |results|
      invariant visited == before + results[..n]
      invariant allResults' == FirstByKey(visited, PlaceIdKey)
      invariant seenPlaceIds' == KeysOf(visited, PlaceIdKey)
    {
      var result := results[n];
      FirstByKeySnoc(visited, result, PlaceIdKey);
      if result.placeId !in seenPlaceIds' {
        seenPlaceIds' := seenPlaceIds' + {result.placeId};
        allResults' := allResults' + [result];
      }
      visited := visited + [result];
      n := n + 1;
      assert results[..n] == results[..n - 1] + [result];
    }
    assert results[..n] == results;
  }

  /**
   * The grid loop: one nearby search per grid point, in order, each followed
   * by the inner loop over its results.
   */
  method AggregateGrid(provider: Request -> Response, gridPoints: seq<Coord>, radius: int, placeType: string)
    returns (allResults: seq<RawPlace>, seenPlaceIds: set<Option<string>>)
    ensures allResults == FirstByKey(Gathered(provider, gridPoints, radius, placeType), PlaceIdKey)
    ensures seenPlaceIds == KeysOf(allResults, PlaceIdKey)
    ensures seenPlaceIds == KeysOf(Gathered(provider, gridPoints, radius, placeType), PlaceIdKey)
    ensures DistinctKeys(allResults, PlaceIdKey)
  {
    allResults, seenPlaceIds := [], {};
    for idx := 0 to |gridPoints|
      invariant allResults == FirstByKey(Gathered(provider, gridPoints[..idx], radius, placeType), PlaceIdKey)
      invariant seenPlaceIds == KeysOf(Gathered(provider, gridPoints[..idx], radius, placeType), PlaceIdKey)
    {
      ghost var before := Gathered(provider, gridPoints[..idx], radius, placeType);
      var results := FetchNearby(provider, gridPoints[idx], radius, placeType);
      assert gridPoints[..idx + 1][..idx] == gridPoints[..idx];
      assert Gathered(provider, gridPoints[..idx + 1], radius, placeType) == before + results;
      allResults, seenPlaceIds := AddUnseen(allResults, seenPlaceIds, results, before);
    }
    assert gridPoints[..|gridPoints|] == gridPoints;
    ghost var found := Gathered(provider, gridPoints, radius, placeType);
    FirstByKeyKeys(found, PlaceIdKey);
    FirstByKeyDistinct(found, PlaceIdKey);
  }

  /**
   * First discovery wins: a raw result is kept exactly when it is the first,
   * in point order and then result order, to carry its `place_id`.
   */
  lemma GridKeepsFirstDiscoveries(provider: Request -> Response, gridPoints: seq<Coord>,
                                  radius: int, placeType: string)
    ensures var found := Gathered(provider, gridPoints, radius, placeType);
      forall x :: x in FirstByKey(found, PlaceIdKey) <==>
        exists j :: 0 <= j < |found| && found[j] == x && FirstAt(found, PlaceIdKey, j)
  {
    FirstByKeyKeepsFirsts(Gathered(provider, gridPoints, radius, placeType), PlaceIdKey);
  }

  /**
   * The raw results of one search: grid mode aggregates the nine grid points
   * around the marker; otherwise the marker's single search is taken whole,
   * without id dedup.
   */
  function SearchResults(provider: Request -> Response, marker: Coord, radius: int, placeType: string,
                         gridSearchEnabled: bool, latOffset: real, lngOffset: real): seq<RawPlace>
  {
    if gridSearchEnabled then
      FirstByKey(Gathered(provider, GridPoints(marker, latOffset, lngOffset), radius, placeType), PlaceIdKey)
    else
      FetchNearby(provider, marker, radius, placeType)
  }

  /** Lines 159-182: the search, in grid mode through the grid loop. */
  method CollectResults(provider: Request -> Response, marker: Coord, radius: int, placeType: string,
                        gridSearchEnabled: bool, latOffset: real, lngOffset: real)
    returns (allResults: seq<RawPlace>)
    ensures allResults == SearchResults(provider, marker, radius, placeType, gridSearchEnabled, latOffset, lngOffset)
    ensures gridSearchEnabled ==> DistinctKeys(allResults, PlaceIdKey)
    ensures !gridSearchEnabled ==> allResults == ResultsOf(provider(Request(marker, radius, placeType)))
  {
    if gridSearchEnabled {
      var gridPoints := CalculateGridPoints(marker, latOffset, lngOffset);
      var seenPlaceIds;
      allResults, seenPlaceIds := AggregateGrid(provider, gridPoints, radius, placeType);
    } else {
      allResults := FetchNearby(provider, marker, radius, placeType);
    }
  }
}
