/**
 * Turning raw results into the `{name, user_ratings_total, rating, place_id}`
 * records that are ranked and shown.
 */
module Listings {
  import opened Places
  import opened Dedup

  /** A rating as shown: the provider's number, or the text 'N/A'. */
  datatype Rating = Stars(value: real) | NotAvailable

  /**
   * One record of the result list. `name` and `placeId` are `None` where the
   * apps copy an absent key with `place.get(key)`.
   */
  datatype Listing = Listing(name: Option<string>, userRatingsTotal: int, rating: Rating, placeId: Option<string>)

  const UnknownPlace := "Unknown Place"

  function RatingOf(p: RawPlace): Rating {
    match p.rating
    case Some(v) => Stars(v)
    case None => NotAvailable
  }

  /** The record of maps_app.py and reviews_app.py: reviews default to 0, rating to 'N/A'. */
  function ProjectApp(p: RawPlace): Listing {
    Listing(p.name, p.userRatingsTotal.GetOr(0), RatingOf(p), p.placeId)
  }

  /** The list comprehension over `results`: one record per result, in order. */
  function ProjectAll(results: seq<RawPlace>): (places: seq<Listing>)
    ensures |places| == |results|
    ensures forall i :: 0 <= i < |results| ==>
      && places[i].name == results[i].name
      && places[i].placeId == results[i].placeId
      && places[i].userRatingsTotal == (if results[i].userRatingsTotal.Some? then results[i].userRatingsTotal.value else 0)
      && places[i].rating == (if results[i].rating.Some? then Stars(results[i].rating.value) else NotAvailable)
    decreases |results|
  {
    if results == [] then []
    else ProjectAll(results[..|results| - 1]) + [ProjectApp(results[|results| - 1])]
  }

  /**
   * The record of maps_debug_display_pins.py: every field has a default, so
   * name and id are always present.
   */
  function ProjectDebug(p: RawPlace): (r: Listing)
    ensures p.name.Some? ==> r.name == p.name
    ensures p.name.None? ==> r.name == Some(UnknownPlace)
    ensures p.userRatingsTotal.Some? ==> r.userRatingsTotal == p.userRatingsTotal.value
    ensures p.userRatingsTotal.None? ==> r.userRatingsTotal == 0
    ensures p.rating.Some? ==> r.rating == Stars(p.rating.value)
    ensures p.rating.None? ==> r.rating == NotAvailable
    ensures p.placeId.Some? ==> r.placeId == p.placeId
    ensures p.placeId.None? ==> r.placeId == Some("")
  {
    Listing(Some(p.name.GetOr(UnknownPlace)), p.userRatingsTotal.GetOr(0), RatingOf(p),
            Some(p.placeId.GetOr("")))
  }

  /** `if place_location:`: the location dictionary is present and non-empty. */
  predicate HasLocation(p: RawPlace) {
    p.location != map[]
  }

  /** The records of the results that have a location, in order, before dedup. */
  function LocatedListings(results: seq<RawPlace>): (places: seq<Listing>)
    ensures |places| <= |results|
    ensures forall l :: l in places <==> exists p :: p in results && HasLocation(p) && l == ProjectDebug(p)
    decreases |results|
  {
    if results == [] then []
    else
      var init, last := results[..|results| - 1], results[|results| - 1];
      assert results == init + [last];
      LocatedListings(init) + (if HasLocation(last) then [ProjectDebug(last)] else [])
  }

  /**
   * The listing step keeps the order of the results: every result, wherever
   * it stands, contributes its own record in its own place, or nothing when
   * it has no location.
   */
  lemma LocatedListingsInOrder(before: seq<RawPlace>, p: RawPlace, after: seq<RawPlace>)
    ensures LocatedListings(before + [p] + after)
         == LocatedListings(before) + (if HasLocation(p) then [ProjectDebug(p)] else []) + LocatedListings(after)
  {
    LocatedListingsAppend(before + [p], after);
    LocatedListingsAppend(before, [p]);
    assert [p][..0] == [];
  }

  lemma {:induction false} LocatedListingsAppend(xs: seq<RawPlace>, ys: seq<RawPlace>)
    ensures LocatedListings(xs + ys) == LocatedListings(xs) + LocatedListings(ys)
    decreases |ys|
  {
    if ys == [] {
      assert xs + ys == xs;
    } else {
      var init := ys[..|ys| - 1];
      assert (xs + ys)[..|xs + ys| - 1] == xs + init;
      assert (xs + ys)[|xs + ys| - 1] == ys[|ys| - 1];
      LocatedListingsAppend(xs, init);
    }
  }

  /** Structural equality of the dictionaries is the dedup key. */
  function Whole(l: Listing): Listing {
    l
  }

  /**
   * The listing loop: results without a location are skipped, and a record
   * is appended only when no equal record is already in `places`.
   */
  method BuildListings(allResults: seq<RawPlace>) returns (places: seq<Listing>)
    ensures places == FirstByKey(LocatedListings(allResults), Whole)
    ensures forall i, j :: 0 <= i < j < |places| ==> places[i] != places[j]
    ensures forall p :: p in allResults && HasLocation(p) ==> ProjectDebug(p) in places
    ensures forall l :: l in places ==> exists p :: p in allResults && HasLocation(p) && l == ProjectDebug(p)
  {
    places := [];
    for n := 0 to |allResults|
      invariant places == FirstByKey(LocatedListings(allResults[..n]), Whole)
    {
      var place := allResults[n];
      ghost var seen := LocatedListings(allResults[..n]);
      assert allResults[..n + 1][..n] == allResults[..n];
      assert allResults[..n + 1][n] == place;
      if place.location != map[] {
        var placeInfo := ProjectDebug(place);
        assert LocatedListings(allResults[..n + 1]) == seen + [placeInfo];
        assert (seen + [placeInfo])[..|seen|] == seen;
        KeysOfWhole(places);
        FirstByKeyKeys(LocatedListings(allResults[..n]), Whole);
        KeysOfWhole(LocatedListings(allResults[..n]));
        if placeInfo !in places {
          places := places + [placeInfo];
        }
      } else {
        assert LocatedListings(allResults[..n + 1]) == seen;
      }
    }
    assert allResults[..|allResults|] == allResults;
    ghost var located := LocatedListings(allResults);
    FirstByKeyDistinct(located, Whole);
    FirstByKeyKeys(located, Whole);
    KeysOfWhole(places);
    KeysOfWhole(located);
  }

  /** With the identity as key, the keys are the elements. */
  lemma {:induction false} KeysOfWhole(xs: seq<Listing>)
    ensures forall l :: l in KeysOf(xs, Whole) <==> l in xs
  {
    forall l
      ensures l in KeysOf(xs, Whole) <==> l in xs
    {
      KeysOfMember(xs, Whole, l);
    }
  }
}
