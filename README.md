# Restaurants by province: the lookup and its result list

The `App` component in `src/MapView.jsx` draws the Spanish provinces on a map.
When a user clicks a province, it looks the province up in the Nominatim
geocoder. It then asks Overpass for restaurants within 10 km of the first match
and shows at most 50 of them as markers. Above the map it shows a status line,
and a notice when the list is full.

This Dafny project models the two parts of that component that contain logic:

- **The result normalisation** (`RestaurantResults`, lines 70-78). This is the
  `filter` / `map` / `slice(0, 50)` chain over the raw Overpass `elements`.
  An element is kept when it has a truthy `lat` and a truthy `lon`, or when it
  has a `center`. Each coordinate is taken from the element when truthy and
  otherwise from the centroid. `tags` defaults to `{}`. The first 50 entries
  are kept.
- **The lookup state machine** (`RestaurantLookup`, lines 24-26, 38-87 and
  129-138). The state cells `loading`, `selectedProvince` and `restaurants` are
  fields of the class `App`. `fetchRestaurants` first sets the loading flag and
  the name and clears the list (`StartLookup`). It then either replaces the
  list or leaves it empty, and always clears `loading` (`CompleteLookup`).
  The status line and the truncation notice are pure functions of that state.

`JsValues` holds the JavaScript notions these need. A property may be
absent (`Option`). A number is truthy when it is present and non-zero. A string
is truthy when it is present and non-empty.

Both network answers are parameters of the lookup (`Response<T> = Ok(data) |
Failed`). `Failed` covers a rejected request and also an answer whose shape
makes the code throw: the single `catch` treats the two alike. The lookup
returns the point it sent the Overpass query for, or `None`. This is how the
model shows that no Overpass query follows a geocoder with no match.

Two consequences of the code's JavaScript truthiness are worth stating:

- Each coordinate is chosen on its own by truthiness, not by element type.
  So a `0` counts as missing, and one entry can mix its own latitude with the
  centroid's longitude (`MixedCoordinates`, `ZeroLongitudeNodeDropped`).
- The truncation notice sits inside the block guarded by `selectedProvince`
  (line 129), so it also needs a non-empty province name
  (`ShowsTruncationNotice`, `NoticeAfterLookup`).

## Model

| member | source | states |
|---|---|---|
| `RestaurantResults.Kept` | src/MapView.jsx:71 | The filter test of line 71 holds iff each coordinate can be resolved: the latitude is truthy or there is a centroid, and likewise the longitude. |
| `RestaurantResults.NormaliseOne` | src/MapView.jsx:72-77 | Only a kept element is mapped, so the centroid is read only when it exists. The entry has the element's id. Each coordinate is the element's own when truthy, otherwise the centroid's. Its tags are the element's, or the empty map. |
| `RestaurantResults.CountKept` | src/MapView.jsx:71 | The number of elements passing the filter is at most the input length. It is zero iff no element passes the filter (truthy lat and lon, or a centroid). |
| `RestaurantResults.KeptIndex` | src/MapView.jsx:71 | The k-th surviving element sits inside the input and passes the filter. |
| `RestaurantResults.FilterKept` | src/MapView.jsx:71 | The filter's length equals the count of kept elements. An element is in the result iff it is in the input and has (truthy lat and truthy lon) or a centroid. |
| `RestaurantResults.NormaliseAll` | src/MapView.jsx:72-77 | The map step keeps the length. Entry k is resolved from input element k (id, coordinates, tags). |
| `RestaurantResults.Normalise` | src/MapView.jsx:70-78 | The shown list never has more than 50 entries. Its length is min(50, number of kept elements). It is empty iff no element passes the filter. |
| `RestaurantResults.CountKeptAll` | src/MapView.jsx:71 | When every element passes the filter, none is dropped. |
| `RestaurantResults.FilterKeptAt` | src/MapView.jsx:71 | The filter keeps order: its k-th entry is the input element at `KeptIndex(es, k)`. |
| `RestaurantResults.KeptIndexIncreasing` | src/MapView.jsx:71 | Later survivors come from later input positions. |
| `RestaurantResults.KeptIndexCount` | src/MapView.jsx:71 | The k-th survivor has exactly k kept elements before it in the input. |
| `RestaurantResults.KeptIndexCovers` | src/MapView.jsx:71 | Every kept element is a survivor, at the position given by the number of kept elements before it. |
| `RestaurantResults.NormaliseAt` | src/MapView.jsx:70-78 | Entry k of the shown list is resolved from the k-th kept input element: same id, its coordinates, its tags. |
| `RestaurantResults.NormaliseShowsEarlyElements` | src/MapView.jsx:70-78 | Each kept element with fewer than 50 kept elements before it is shown, at that position. |
| `RestaurantResults.NormalisePrefix` | src/MapView.jsx:70-78 | Order is preserved. Appending raw elements only extends the shown list: the old list is a prefix of the new one. |
| `RestaurantResults.NormaliseSaturates` | src/MapView.jsx:78 | Once 50 kept elements have arrived, later elements change nothing. |
| `RestaurantResults.ZeroLongitudeNodeDropped` | src/MapView.jsx:71 | A node whose longitude is exactly 0 and that has no centroid is dropped, because 0 is falsy. |
| `RestaurantResults.MixedCoordinates` | src/MapView.jsx:74-75 | An element with its own latitude, no longitude and a centroid gives its own latitude with the centroid's longitude. Its tags default to `{}`. |
| `RestaurantLookup.LookupResult` | src/MapView.jsx:49-81 | The list a lookup leaves has at most 50 entries. It is empty when the geocoder has no match or fails, and empty when Overpass fails. Otherwise its length is min(50, kept elements). |
| `RestaurantLookup.AfterLookup` | src/MapView.jsx:38-87 | After a lookup, `loading` is false, the selected province is the clicked name, and the list has at most 50 entries. |
| `RestaurantLookup.StatusAfterLookup` | src/MapView.jsx:84-85 | Once a lookup has ended, the heading never stays on "Buscando...". It shows the number of restaurants left for the clicked name, or is hidden when the name is empty. |
| `RestaurantLookup.ShowsTruncationNotice` | src/MapView.jsx:129-137 | The notice at line 134 sits inside the `selectedProvince` guard at line 129. It shows iff the heading reports exactly 50 restaurants for a selected non-empty name. |
| `RestaurantLookup.NoticeAfterLookup` | src/MapView.jsx:38-87 | After a lookup, the notice shows iff the name is non-empty, the geocoder matched, Overpass answered, and at least 50 elements pass the filter. |
| `RestaurantLookup.SeventyThreeElementsShowFifty` | src/MapView.jsx:70-80 | A geocoder match followed by 73 elements that all pass the filter leaves exactly 50 restaurants and shows the notice. |
| `RestaurantLookup.NoMatchLeavesEmpty` | src/MapView.jsx:49 | After a lookup whose geocoder has no match, the list is empty, loading is off and no notice shows, whatever the Overpass answer would have been. |
| `RestaurantLookup.NoMatchSendsNoQuery` | src/MapView.jsx:38-87 | Running the lookup method with a geocoder that has no match sends no Overpass query and leaves an empty list with loading off. |
| `RestaurantLookup.App.constructor` | src/MapView.jsx:24-26 | The initial state is not loading, no province, and no restaurants. |
| `RestaurantLookup.App.StartLookup` | src/MapView.jsx:39-41 | Starting a lookup sets loading on and the selected name, and clears the list. The heading reads "Buscando..." for a non-empty name, and no notice shows. |
| `RestaurantLookup.App.CompleteLookup` | src/MapView.jsx:43-86 | The list is replaced by the normalised answer only when the geocoder matched and Overpass answered. Otherwise it is left as it was. The selected name is unchanged. `loading` is false on every path. An Overpass query is sent iff the geocoder returned at least one match, and it is sent for the first match. |
| `RestaurantLookup.App.FetchRestaurants` | src/MapView.jsx:38-87 | The final state is `AfterLookup` of the name and the two answers. It depends only on those, not on the previous list (replace, not append). An Overpass query is sent iff the geocoder matched, for its first match. |
| `RestaurantLookup.ReclickReplaces` | src/MapView.jsx:38-41 | After a successful lookup, a second lookup whose Overpass request fails leaves an empty list. The first lookup's results do not remain. |

## Left out

- The GET requests (src/MapView.jsx:30, 45-47, 65-67) are network I/O. Their outcomes are the parameters `geocode` and `pois` of the lookup.
- Building the Nominatim URL and the Overpass query text (src/MapView.jsx:46, 53-63, 66) is left out. It is string templating and a call to `encodeURIComponent`. The model records only the point the query is sent for. The `out body 50` limit in the query is enforced by the server, so the model allows any number of raw elements.
- Which elements Overpass actually returns (for example member nodes emitted by `>; out skel qt;`) is up to the server. The model takes any sequence of elements.
- The province GeoJSON load (src/MapView.jsx:29-35) is left out. It is a one-shot fetch that only logs its failure.
- Leaflet icon setup, hover styles, tooltips, markers and popups (src/MapView.jsx:8-20, 90-120, 143-176) are UI and a foreign library. The click handler only calls `fetchRestaurants`, which is modelled.
- Overlapping clicks are left out. The code does not cancel an earlier request, so a stale answer may overwrite a newer lookup. That is concurrency. The model runs one lookup at a time to completion, and `StartLookup` and `CompleteLookup` mark where the component's two awaits fall.
- `console.error` logging in the `catch` branch is left out.
- Coordinates are integers: the code only tests and copies them. `NaN`, which JavaScript also treats as falsy, is not modelled. A centroid always has both coordinates.
- Element ids are integers and are always present.
