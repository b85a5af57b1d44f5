# Most-reviewed places finder — a Dafny model

The repository is a set of Streamlit scripts. Each of the three app scripts
(maps_app.py, reviews_app.py, maps_debug_display_pins.py) asks the Google Places
nearby-search endpoint for places around a map marker and lists them, most
reviewed first, with a Google Maps link. The core logic sits in top-level
script code. This model lifts that code into functions, methods and a class:

- **Grid planner** (`Grid`): `calculate_grid_points` builds a 3×3 lattice of
  sample points around the marker, in row-major order.
- **Aggregation** (`Aggregation`, `Dedup`): in grid mode the debug script
  searches at each grid point. It keeps a result only when its `place_id` is
  not yet in `seen_place_ids`, so the first discovery wins. A missing id is
  the ordinary key `None`. Without grid mode the single search's list is kept
  unchanged.
- **Nearby search** (`Places`): a reply with status 200 gives its `results`
  array, or `[]` when the array is absent. Any other status gives `[]`.
- **Listing step** (`Listings`): each result becomes a
  `{name, user_ratings_total, rating, place_id}` record with defaults. The
  debug script also drops results without a location and skips a record equal
  to one it already has.
- **Ranking** (`Ranking`): Python's `sorted(..., reverse=True)` on the review
  count. The sort is stable, so tied records keep their input order.
- **Deep links** (`Links`): the fixed prefix, then the name with spaces
  replaced by `+`, then `&query_place_id=` and the id.
- **Session state** (`Session`): the query last searched, the marker and the
  zoom. The module models the default Paris marker, geolocation fixes, map
  clicks and the find-place lookup.
- **The three scripts** (`DebugApp`, `MapsApp`, `ReviewsApp`): each script's
  search button, from the request it sends to the ranked list.

The provider is a function from a request (location, radius, place type) to a
reply (status, optional results). The find-place lookup is a function from the
query text to a reply. The grid offsets are real parameters.

The scripts have no pagination or continuation tokens, no multi-category scan
and no category tags, no error for a degenerate grid at the poles and no top-N
view. A failed search returns `[]` and the grid loop goes on.

## Model

| member | source | states |
|---|---|---|
| `Places.ResultsOf` | maps_app.py:109-114 | A 200 reply gives its `results` unchanged, or `[]` when the array is absent; any other status gives `[]` (the same helper is at reviews_app.py:63-68 and maps_debug_display_pins.py:96-101) |
| `Places.FetchNearby` | maps_debug_display_pins.py:91-101 | One nearby search sends the location, radius and type (defaults 2500 and 'restaurant') and gives the reply's results on status 200, or `[]` when the status is not 200 or the array is absent (same helper at maps_app.py:104-114 and reviews_app.py:58-68) |
| `Grid.GridPoints` | maps_debug_display_pins.py:111-118 | Exactly 9 points; the point at index 3(i+1)+(j+1) is the centre moved i latitude offsets and j longitude offsets, for i, j in -1..1 (row-major, latitude outer) |
| `Grid.CalculateGridPoints` | maps_debug_display_pins.py:104-118 | The nested loops append exactly the 9 lattice points of `GridPoints`, in that order |
| `Grid.GridCentre` | maps_debug_display_pins.py:112-117 | Index 4 (i = j = 0) is the centre itself |
| `Grid.GridMirror` | maps_debug_display_pins.py:112-117 | Points k and 8-k are symmetric about the centre in both coordinates |
| `Grid.GridRowsAndColumns` | maps_debug_display_pins.py:112-117 | Points of one row share their latitude; points of one column share their longitude |
| `Dedup.FirstByKeyKeys` | maps_debug_display_pins.py:174-178 | The ids kept are exactly the ids met: no id returned by any search is lost |
| `Dedup.FirstByKeyDistinct` | maps_debug_display_pins.py:174-178 | The kept results have pairwise distinct ids |
| `Dedup.FirstByKeyKeepsFirsts` | maps_debug_display_pins.py:167-178 | A result is kept if and only if it is the first one, in discovery order, to carry its id |
| `Dedup.FirstByKeyInOrder` | maps_debug_display_pins.py:167-178 | The kept results are the input read at strictly increasing positions, each the first occurrence of its id, and every first occurrence is among them: kept results stay in discovery order |
| `Dedup.FirstByKeyOfDistinct` | maps_debug_display_pins.py:174-178 | A list without repeated ids passes through unchanged |
| `Dedup.FirstByKeyIdempotent` | maps_debug_display_pins.py:174-178 | Deduplicating twice is the same as deduplicating once |
| `Dedup.FirstByKeyNoNewKeys` | maps_debug_display_pins.py:174-178 | Results whose ids were all seen already add nothing |
| `Dedup.RepeatedQueryAddsNothing` | maps_debug_display_pins.py:167-178 | Running the same search twice gives the same aggregate as running it once |
| `Aggregation.FailedPointContributesNothing` | maps_debug_display_pins.py:96-101 | A grid point whose search gets a non-200 status contributes nothing; the gathered results are those of the other points, in order |
| `Aggregation.AddUnseen` | maps_debug_display_pins.py:175-178 | The inner loop extends the dedup of the results so far by one point's results, and `seen_place_ids` becomes the ids of all of them |
| `Aggregation.AggregateGrid` | maps_debug_display_pins.py:159-180 | `all_results` is the first-by-id dedup of all points' results, in point then result order; its ids are distinct; `seen_place_ids` is exactly its id set and the id set of everything fetched |
| `Aggregation.GridKeepsFirstDiscoveries` | maps_debug_display_pins.py:167-178 | A corollary of `Dedup.FirstByKeyKeepsFirsts` for the grid loop, first discovery wins: a fetched result is in `all_results` exactly when no earlier result had its id |
| `Aggregation.CollectResults` | maps_debug_display_pins.py:159-182 | Grid mode gives distinct ids over the 9 grid points; non-grid mode gives the single search's list unchanged, without id dedup |
| `Listings.ProjectAll` | maps_app.py:125-133 | One record per result, same length and order; name and id are copied, reviews default to 0 and rating to 'N/A' (same comprehension at reviews_app.py:79-87) |
| `Listings.ProjectDebug` | maps_debug_display_pins.py:194-211 | The debug record copies each present field; an absent name becomes 'Unknown Place', absent reviews 0, an absent rating 'N/A' and an absent id '' |
| `Listings.LocatedListings` | maps_debug_display_pins.py:189-197 | A record is present if and only if it is the projection of a result with a non-empty location; the list is no longer than the results |
| `Listings.LocatedListingsAppend` | maps_debug_display_pins.py:189-190 | The records of two lists of results, one after the other, are the records of the first list followed by those of the second |
| `Listings.LocatedListingsInOrder` | maps_debug_display_pins.py:189-214 | Each result contributes its own record at its own place, or nothing when it has no location: order is preserved |
| `Listings.BuildListings` | maps_debug_display_pins.py:186-214 | `places` is the first occurrence of each located record, in order; no two are equal; every located result's record is in it and nothing else is |
| `Ranking.Rank` | maps_debug_display_pins.py:217 | The ranked list is a permutation of the records, non-increasing in review count, and records with equal counts keep their input order (same call at maps_app.py:134 and reviews_app.py:88) |
| `Ranking.InsertPermutes` | maps_debug_display_pins.py:217 | Placing one record adds exactly that record |
| `Ranking.InsertKeepsOrder` | maps_debug_display_pins.py:217 | Placing one record in a non-increasing list keeps it non-increasing |
| `Ranking.InsertIsStable` | maps_debug_display_pins.py:217 | Placing a record ahead of the records it ties with keeps tied records in input order |
| `Ranking.StableOrderIsUnique` | maps_debug_display_pins.py:217 | Two non-increasing lists with the same records of every count, in the same order, are equal: any stable descending sort, Python's included, gives `Rank` |
| `Links.ReplaceChar` | maps_app.py:142 | `name.replace(' ', '+')` keeps the length, puts the replacement for every occurrence of the replaced character and leaves every other character unchanged |
| `Links.RestoreAfterReplace` | maps_app.py:142 | A property of the encoding (the scripts never decode a link): for a name without '+', reading '+' back as a space gives the name, and no space remains |
| `Links.MapsLink` | maps_app.py:141-144 | A record has a link exactly when it has a name (without one the script calls `replace` on `None` and raises); the link is the prefix, the name with spaces replaced by '+', `&query_place_id=` and the id |
| `Links.LinkText` | maps_debug_display_pins.py:221-224 | For any named record, the link is the fixed prefix, then each character of the name with every space turned into '+' and every other character kept, then `&query_place_id=`, then the id (an absent id shows as "None"); a name without '+' reads back from the link |
| `Links.ProjectedRecordHasLink` | maps_debug_display_pins.py:194-197 | Every record of the debug script has a link; an unnamed, id-less place links as "Unknown+Place" with an empty id |
| `Links.DisplayLinks` | maps_app.py:136-146 | The ranked records are shown in order with their links until the first unnamed one, whose `replace` raises and ends the loop; no record after it is shown (same loop at reviews_app.py:90-100) |
| `Session.FetchPlaceDetails` | maps_debug_display_pins.py:29-39 | A candidate is returned exactly when the status is 200 and the candidate list is non-empty, and it is the first candidate |
| `Session.FixLocation` | maps_app.py:60 | A geolocation fix counts exactly when it has both coordinates, and then it gives them |
| `Session.EffectiveRadius` | maps_app.py:54 | The effective radius always equals the custom-radius input |
| `Session.InitQuery` | maps_debug_display_pins.py:22-23 | An absent `previous_query` becomes ""; a present one, and marker and zoom, stay unchanged |
| `Session.FirstQueryIsLookedUp` | maps_debug_display_pins.py:22-47 | In a new session, a query is looked up exactly when it is non-empty |
| `Session.InitMarker` | maps_app.py:64-67 | The Paris marker with zoom 12 is set only when no marker exists; an existing marker and zoom stay |
| `Session.Geolocate` | maps_app.py:59-62 | A fix with both coordinates sets the marker to them and the zoom to 15; otherwise nothing changes |
| `Session.Click` | reviews_app.py:48-52 | A click sets the marker to the clicked point and the zoom to the map's zoom; no click changes nothing |
| `Session.SearchQuery` | maps_debug_display_pins.py:46-57 | The lookup happens only for a non-empty query different from `previous_query`; `previous_query` then becomes the query whether or not a place is found; marker and zoom 15 change only when a candidate is found |
| `Session.DefaultAndFixCommute` | maps_app.py:59-67 | Applying the fix before the default (maps_app, reviews_app) or after it (debug script) gives the same marker and zoom |
| `Session.QueryIsLookedUpOnce` | maps_debug_display_pins.py:46-57 | Submitting the same query again does not look it up again and changes nothing |
| `Session.SessionState.constructor` | reviews_app.py:29-32 | A new session holds no query, no marker and no zoom |
| `Session.SessionState.DebugRerun` | maps_debug_display_pins.py:21-88 | One run of the debug script initialises the query and marker, handles the query, applies the fix; afterwards a marker and a query are always set |
| `Session.SessionState.AppRerun` | reviews_app.py:24-32 | One run of maps_app or reviews_app applies the fix, then the default; afterwards a marker is always set |
| `Session.SessionState.ClickMap` | maps_debug_display_pins.py:233-237 | A map click updates the session as `Click` says |
| `DebugApp.SearchAndRank` | maps_debug_display_pins.py:155-224 | The ranked list is a stable, non-increasing permutation of the deduplicated located records of the search, and every ranked record has a link |
| `DebugApp.DebugRecordsHaveLinks` | maps_debug_display_pins.py:194-197 | Every record kept by the listing step has a name, hence a link |
| `MapsApp.RankedPlaces` | maps_app.py:117-134 | The search uses the custom radius and the chosen type; the result is a stable, non-increasing permutation of the projected results |
| `ReviewsApp.RankedRestaurants` | reviews_app.py:71-88 | The search always uses radius 2500 and type 'restaurant', the helper's defaults; the result is a stable, non-increasing permutation of the projected results |

## Left out

- Streamlit widgets, titles, spinners, the progress bar, messages, `st.rerun` and the sidebar are presentation and are not modelled.
- The folium map, markers, circles and `st_folium` rendering are UI and are not modelled. A map click enters only as the clicked point and zoom.
- The HTTP calls, JSON decoding, the API key and `load_dotenv` are I/O. Replies are parameters: the provider and the find-place lookup are functions.
- Grid offsets: `radius * 0.00001 * 0.75` and the division by `cos(radians(lat))` are floating point. The offsets are real parameters, so no pole or overflow behaviour is modelled.
- The `"lat,lng"` strings of the requests are float formatting. A request carries the coordinate itself.
- A JSON key that is present with the value `null` is not told apart from an absent key. Python's `.get(key, default)` would return `None` there, not the default.
- A non-empty location dictionary that lacks `lat` or `lng` is treated like any other non-empty one, as the script does. The model keeps the dictionary only for the `if place_location:` emptiness test; the coordinates in it only feed a map marker and are never read.
- `rating` is modelled as a number when present. Other JSON types are not modelled.
- A find-place candidate is assumed to carry `geometry.location` and `name`, as the requested fields promise. A candidate without them would raise `KeyError`. An empty candidate dictionary would read as "not found".
- `Ranking.Rank`: Python's Timsort is modelled by a stable insertion sort. `Ranking.StableOrderIsUnique` proves that both must give the same list.
- `Aggregation.AddUnseen`: the inner loop of the grid search is a method of its own, called once per point. The nesting is otherwise unchanged.
- The headings, rating lines and markdown of the display loop are rendering and are not modelled. `Links.DisplayLinks` keeps the links shown and whether the loop stopped.
- `Links.MapsLink`: gives one record's link, or `None` for an unnamed record. In maps_app.py and reviews_app.py the first unnamed ranked record raises `AttributeError` and ends the display loop, so no later record is shown. `Links.DisplayLinks` models that early exit; `MapsApp.RankedPlaces` and `ReviewsApp.RankedRestaurants` stop at the ranked list and say nothing about links.
- The slider and number-input bounds (100 to 2000, minimum 100) are enforced by the widgets, so the radius is any integer here.
- test_location.py only displays the geolocation widget's output. It has no logic to model.
