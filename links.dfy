/**
 * The "View on Google Maps" deep link built for every ranked record
 * (maps_debug_display_pins.py 221-224, maps_app.py 141-144,
 * reviews_app.py 95-98).
 */
module Links {
  import opened Places
  import opened Listings

  const SearchPrefix := "https://www.google.com/maps/search/?api=1&query="
  const PlaceIdParam := "&query_place_id="

  /** `s.replace(target, replacement)` for single characters. */
  function ReplaceChar(s: string, target: char, replacement: char): (r: string)
    ensures |r| == |s|
    ensures forall i :: 0 <= i < |s| ==> r[i] == (if s[i] == target then replacement else s[i])
    decreases |s|
  {
    if s == [] then []
    else ReplaceChar(s[..|s| - 1], target, replacement) + [if s[|s| - 1] == target then replacement else s[|s| - 1]]
  }

  /** `name.replace(' ', '+')`. */
  function ReplaceSpaces(s: string): string {
    ReplaceChar(s, ' ', '+')
  }

  /**
   * The reading of a query value in which '+' stands for a space. The scripts
   * never decode a link; this only serves to state that the encoding of a
   * name loses nothing.
   */
  function RestoreSpaces(s: string): string {
    ReplaceChar(s, '+', ' ')
  }

  /**
   * A property of the encoding, not of anything the scripts do: a name
   * without '+' is recovered from its query value.
   */
  lemma RestoreAfterReplace(s: string)
    requires '+' !in s
    ensures RestoreSpaces(ReplaceSpaces(s)) == s
    ensures ' ' !in ReplaceSpaces(s)
  {
    var r := ReplaceSpaces(s);
    forall i | 0 <= i < |s| ensures RestoreSpaces(r)[i] == s[i] {
      assert s[i] != '+';
    }
  }

  /** An f-string renders a missing value (`None`) as the text "None". */
  function Shown(v: Option<string>): (r: string)
    ensures v.Some? ==> r == v.value
    ensures v.None? ==> r == "None"
  {
    v.GetOr("None")
  }

  /**
   * The link of one record. `None` when the record has no name: the script
   * then calls `replace` on `None` and raises.
   */
  function MapsLink(place: Listing): (r: Option<string>)
    ensures r.Some? <==> place.name.Some?
    ensures place.name.Some? ==>
      r.value == SearchPrefix + ReplaceSpaces(place.name.value) + PlaceIdParam + Shown(place.placeId)
  {
    match place.name
    case None => None
    case Some(name) => Some(SearchPrefix + ReplaceSpaces(name) + PlaceIdParam + Shown(place.placeId))
  }

  /**
   * The text of a link, character by character: the prefix, the name with
   * every space turned into '+' and every other character kept, then
   * `&query_place_id=` and the id. The last clause is a property of the
   * encoding only: a name without '+' can be read back.
   */
  lemma LinkText(place: Listing)
    requires place.name.Some?
    ensures var name, link := place.name.value, MapsLink(place).value;
      var n := |SearchPrefix| + |name|;
      && |link| == n + |PlaceIdParam| + |Shown(place.placeId)|
      && link[..|SearchPrefix|] == SearchPrefix
      && (forall i :: 0 <= i < |name| ==> link[|SearchPrefix| + i] == (if name[i] == ' ' then '+' else name[i]))
      && link[n..n + |PlaceIdParam|] == PlaceIdParam
      && link[n + |PlaceIdParam|..] == Shown(place.placeId)
      && ('+' !in name ==> RestoreSpaces(link[|SearchPrefix|..n]) == name)
  {
  }

  /**
   * A record of the debug app always has a link; an unnamed place is linked
   * as "Unknown+Place", an id-less one with the empty id.
   */
  lemma ProjectedRecordHasLink(p: RawPlace)
    ensures MapsLink(ProjectDebug(p)).Some?
    ensures p.name.None? && p.placeId.None? ==>
      MapsLink(ProjectDebug(p)).value == SearchPrefix + "Unknown+Place" + PlaceIdParam
  {
  }

  /**
   * The display loop of maps_app.py and reviews_app.py: the ranked records
   * are shown in order with their links, and the first unnamed record makes
   * `replace` raise, which ends the loop and the script run. `links` are the
   * links shown; `raised` says whether the loop stopped early.
   */
  method DisplayLinks(sortedPlaces: seq<Listing>) returns (links: seq<string>, raised: bool)
    ensures |links| <= |sortedPlaces|
    ensures forall k :: 0 <= k < |links| ==>
      sortedPlaces[k].name.Some? && links[k] == MapsLink(sortedPlaces[k]).value
    ensures raised <==> |links| < |sortedPlaces|
    ensures raised ==> sortedPlaces[|links|].name.None?
  {
    links, raised := [], false;
    while |links| < |sortedPlaces|
      invariant |links| <= |sortedPlaces|
      invariant forall k :: 0 <= k < |links| ==>
        sortedPlaces[k].name.Some? && links[k] == MapsLink(sortedPlaces[k]).value
      decreases |sortedPlaces| - |links|
    {
      var place := sortedPlaces[|links|];
      match MapsLink(place)
      case None =>
        raised := true;
        break;
      case Some(link) =>
        links := links + [link];
    }
  }
}
