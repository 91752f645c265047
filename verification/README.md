# ThoughtSpot Leaflet plugin: a Dafny model

This project models the core of the ThoughtSpot Leaflet plugin. The plugin
turns a ThoughtSpot data model (columns and rows) into geographic items, then
draws them on a Leaflet map as plain markers, as marker clusters or as a heat
layer.

- **`transformGeoData`** (`geo_utils.dfy`, module `GeoUtils`). It picks the
  first latitude-like column and the first longitude-like column. The test
  is the case-insensitive regular expression or a lower-cased substring
  "lat", "lng" or "lon". Each row whose two cells `parseFloat` to numbers
  becomes an item with:
  - `lat` and `lng`;
  - every other column under its name;
  - a `value` taken from the first other measure column.

  This is a loop method proved against the specification function
  `Transform`. Its error paths are modelled too: `getData` throwing, and
  `getData` returning nothing, which is a `TypeError` at `forEach`.
- **Marker, cluster and heat renderers** (`marker_map.dfy`, `cluster_map.dfy`,
  `heat_map.dfy`).
  - Each renderer keeps the items whose `lat` and `lng` are truthy, in data
    order. `Positions.Positioned` characterises that filter, and
    `Positions.MapPositioned` is the shared filter-then-map.
  - The popup is built by a loop over the item's keys, proved equal to
    `PopupContent`.
  - The cluster group is made with `chunkedLoading` and a radius of 80.
  - The heat layer is `null` when no item qualifies. Otherwise it holds
    `[lat, lng, value || 1]` triples with radius 25, blur 15 and maxZoom 17.
- **The plugin class** (`plugin.dfy`, module `Plugin`).
  - `getTileLayerUrl` has an OpenStreetMap fallback.
  - `getDefaultConfig`.
  - `validateData`.
  - Renderer selection is `mapRenderers[mapType] || mapRenderers.markers`.
  - `render`, `cleanup` and `destroy` update the plugin's `map` field. Here
    that field is `LeafletPlugin.leafletMap`, and the map is a record of
    what was handed to Leaflet: centre, zoom, tile URL, overlay and fitted
    bounds.

JavaScript values are modelled by `JsValue.Value`:

- Truthiness is explicit, and `||` is `JsValue.Or`.
- `parseFloat`'s text parsing is a parameter `parseText`, where `None`
  stands for `NaN`.
- Number-to-text conversion in popups is a parameter `numberText`.

JavaScript objects are `JsObject.Record`: an association list with unique
keys, kept in insertion order (`Object.keys` order). Assigning a property
overwrites the value in place or appends a new key.

In two places the code does something a reader might not expect, and the
model follows the code:

- An item's `lat` and `lng` are not always the parsed coordinates. A copied
  column literally named "lat" or "lng" overwrites them
  (`GeoUtils.ItemCoordinates`).
- Only items whose coordinates are both non-zero are drawn. A point on the
  equator or on the prime meridian survives the transform, but it is
  skipped by every renderer and by the bounds (`Plugin.PlottedIffNonZero`).

## Model

| member | source | states |
|---|---|---|
| JsValue.Or | src/maps/heatMap.js:11 | `a \|\| b` is `a` when `a` is truthy and `b` otherwise, so it is truthy exactly when either operand is |
| JsValue.ParseFloat | src/utils/geoUtils.js:21-22 | a number parses to itself; only numbers and strings can parse to a number |
| JsObject.Keys | src/maps/markerMap.js:23 | `Object.keys` lists one key per entry, each at its entry's place in insertion order |
| JsObject.Set | src/utils/geoUtils.js:33 | a property assignment makes the key read back the new value and leaves every other key unchanged; an existing key keeps its place, and a new key is appended |
| JsObject.GetEntry | src/maps/markerMap.js:25 | a property lookup of a key present in the object finds that entry's value |
| GeoUtils.PatternsSubsumed | src/utils/geoUtils.js:6-11 | every name matching the anchored latitude or longitude regular expression also contains the corresponding substring, so the substring test decides the column choice alone |
| GeoUtils.NamesLatitudeIgnoringCase | src/utils/geoUtils.js:7 | the latitude test accepts exactly the names with three consecutive characters from {l, L}, {a, A} and {t, T} (`SpellsLatAt`) |
| GeoUtils.NamesLongitudeIgnoringCase | src/utils/geoUtils.js:10 | the longitude test accepts exactly the names with three consecutive characters spelling "lng" or "lon" in any mix of cases (`SpellsLngAt`) |
| GeoUtils.LatColumn | src/utils/geoUtils.js:6-8 | `columns.find` for latitude: the first column whose lower-cased name contains "lat", or none when no column does |
| GeoUtils.LngColumn | src/utils/geoUtils.js:9-11 | the first column whose lower-cased name contains "lng" or "lon", or none when no column does |
| GeoUtils.FindFirst | src/utils/geoUtils.js:38 | `Array.prototype.find`: the index of the first element satisfying the predicate, or none when no element does |
| GeoUtils.ValueColumn | src/utils/geoUtils.js:38 | the first measure column that is neither the latitude nor the longitude column, or none |
| GeoUtils.Transform | src/utils/geoUtils.js:13-16 | without a latitude or a longitude column the result is empty; never more items than rows |
| GeoUtils.TransformRows | src/utils/geoUtils.js:20-45 | one item at most per row |
| GeoUtils.ParsedRows | src/utils/geoUtils.js:24 | the indices of the rows whose two coordinates parse, in increasing order, all of them and only them |
| GeoUtils.TransformRowsFollowsParsedRows | src/utils/geoUtils.js:20-45 | the k-th item is built from the k-th row whose coordinates parse; there is one item per such row |
| GeoUtils.CopyRow | src/utils/geoUtils.js:31-35 | the loop over the columns builds exactly the item `CopyColumns` specifies |
| GeoUtils.TransformRow | src/utils/geoUtils.js:21-43 | one pass of `data.forEach` yields exactly the row's projection: nothing when a coordinate does not parse |
| GeoUtils.TransformGeoData | src/utils/geoUtils.js:1-48 | a throwing `getData` propagates its error; missing data makes the call to `data.forEach` throw a `TypeError` when both coordinate columns exist, and otherwise gives an empty result; rows give exactly `Transform` of the columns and rows |
| GeoUtils.CopyColumnsKeepsOthers | src/utils/geoUtils.js:31-35 | a key that no copied column is named after keeps its value |
| GeoUtils.CopyColumnsLastWins | src/utils/geoUtils.js:31-35 | a copied column's raw cell is found under its name when no later copied column has that name |
| GeoUtils.CopyColumnsKeys | src/utils/geoUtils.js:31-35 | copying keeps the existing keys in place and adds exactly the copied columns' names |
| GeoUtils.Coordinates | src/utils/geoUtils.js:25-28 | the literal `{ lat: lat, lng: lng }` has the keys "lat" then "lng", holding the two parsed coordinates |
| GeoUtils.ItemCoordinates | src/utils/geoUtils.js:25-28 | an item starts with keys "lat" then "lng"; each holds the parsed coordinate unless a copied column of that name overwrote it |
| GeoUtils.ItemAttribute | src/utils/geoUtils.js:31-35 | every other column's raw cell is stored under the column's name, unless a later column of the same name overwrites it or, for the name "value", the value column does |
| GeoUtils.ItemValue | src/utils/geoUtils.js:37-41 | `value` is the raw cell of the value column when there is one; otherwise there is no "value" key unless a column is named so |
| GeoUtils.ItemKeys | src/utils/geoUtils.js:25-41 | an item's keys are exactly "lat", "lng", the copied columns' names, and "value" when a value column exists |
| GeoUtils.PopulationIsLatitude | src/utils/geoUtils.js:6-8 | a "Population" column listed before "Latitude" is taken as the latitude column |
| GeoUtils.LatLonIsBoth | src/utils/geoUtils.js:6-11 | one column named "latlon" is chosen as both the latitude and the longitude column |
| Text.ToLower | src/utils/geoUtils.js:7 | lower-casing keeps the length, leaves no capital letter, keeps every other character, and turns each capital into its own lower-case letter |
| Text.ToLowerIdempotent | src/utils/geoUtils.js:7 | lower-casing a lower-cased name changes nothing |
| Text.ContainsIgnoringCase | src/utils/geoUtils.js:7 | `name.toLowerCase().includes(sub)`, for a `sub` without capitals, holds exactly when the name spells `sub` somewhere with each letter in either case |
| Text.StartsWithContains | src/utils/geoUtils.js:7 | a prefix of a string is contained in it |
| Positions.MapPositioned | src/maps/heatMap.js:6-12 | the filter on truthy `lat` and `lng` followed by `map` never yields more results than there are items; `MapPositionedFollowsPositioned` gives its contents |
| Positions.Positioned | src/maps/heatMap.js:7 | the indices of the items with truthy `lat` and `lng`, in increasing order, all of them and only them |
| Positions.MapPositionedFollowsPositioned | src/maps/heatMap.js:6-12 | filter-then-map gives one result per positioned item, in order, each made from that item |
| Positions.NoneWithoutPosition | src/maps/heatMap.js:14 | filter-then-map is empty exactly when no item has a truthy `lat` and `lng` |
| MarkerMap.PopupContent | src/maps/markerMap.js:20-31 | the popup starts with the `marker-popup` opening tag and ends with its closing tag |
| MarkerMap.SegmentsConcat | src/maps/markerMap.js:23-27 | the popup body of two runs of entries is the concatenation of their bodies |
| MarkerMap.SegmentsInKeyOrder | src/maps/markerMap.js:23-27 | each key contributes its `<div><strong>key:</strong> value</div>` line at its own place in key order, and "lat"/"lng" contribute nothing |
| MarkerMap.SegmentsOfCoordinates | src/maps/markerMap.js:24 | entries that are all coordinates contribute nothing |
| MarkerMap.PopupOfCoordinatesOnly | src/maps/markerMap.js:20-31 | an item holding only coordinates gets the opening tag immediately followed by the closing tag, with nothing in between |
| MarkerMap.CoordinatesFirst | src/maps/markerMap.js:24 | in an object that starts with "lat" and "lng", no later key is skipped by the popup |
| MarkerMap.PopupAfterCoordinates | src/maps/markerMap.js:23-27 | the popup body of an object starting with "lat" and "lng" is that of the entries after them |
| MarkerMap.CreatePopupContent | src/maps/markerMap.js:20-31 | the loop over `Object.keys(item)` builds exactly the specified popup |
| MarkerMap.MarkersFollowPositioned | src/maps/markerMap.js:7-15 | one marker per positioned item, in data order, at that item's coordinates and with its popup |
| MarkerMap.Render | src/maps/markerMap.js:4-18 | the returned markers are exactly those of the positioned items, in data order |
| ClusterMap.Render | src/maps/clusterMap.js:4-35 | the group uses chunked loading and radius 80, and its layers are exactly the positioned items' markers, in data order, each with the popup the class's own `createPopupContent` builds (the marker renderer's builder) |
| HeatMap.Intensity | src/maps/heatMap.js:11 | `item.value \|\| 1` is always truthy; it is the item's value when that is truthy, and 1 otherwise |
| HeatMap.HeatDataFollowsPositioned | src/maps/heatMap.js:6-12 | one triple per positioned item, in data order, holding its coordinates unchanged and its intensity |
| HeatMap.Render | src/maps/heatMap.js:14-26 | null exactly when no item has truthy coordinates; otherwise the layer of all triples with radius 25, blur 15, maxZoom 17 |
| Plugin.TileLayersLookup | src/index.js:194-198 | the tile-layer table maps exactly "osm", "cartodb_light" and "cartodb_dark" to their URLs |
| Plugin.TileLayerUrl | src/index.js:193-200 | the three known keys give their URLs; any other type gives the OpenStreetMap URL |
| Plugin.MapRenderersLookup | src/index.js:163-167 | the renderer table maps exactly "markers", "heatmap" and "cluster" |
| Plugin.SelectRenderer | src/index.js:256 | the heat renderer exactly for "heatmap", the cluster renderer exactly for "cluster", the marker renderer for everything else |
| Plugin.DefaultConfig | src/index.js:182-191 | markers on OpenStreetMap tiles, centred on the United States, zoom 4 and maxZoom 18, so the zoom is within the maximum |
| Plugin.ValidateData | src/index.js:202-217 | never warnings; valid exactly when there are no errors; non-empty data is valid; missing or empty data gives "No data available"; a throwing `getData` gives "Data validation error: " and its message |
| Plugin.RenderOverlay | src/index.js:256-257 | the chosen renderer produces exactly the overlay `OverlayFor` assigns to that renderer |
| Plugin.ExtendBounds | src/index.js:259-266 | the bounds are extended with exactly the positioned items' coordinates, in order |
| Plugin.HeatMatchesMarkers | src/maps/heatMap.js:6-12 | the heat renderer and the marker renderer plot the same number of points at the same coordinates, in the same order |
| Plugin.PlottedIffNonZero | src/maps/markerMap.js:8 | when no copied column is named "lat" or "lng", a transformed item is drawn exactly when neither of its parsed coordinates is 0 |
| Plugin.TransformedPopup | src/maps/markerMap.js:20-31 | a transformed item's popup lists every entry after "lat" and "lng", in order, and none of them is a coordinate |
| Plugin.NewMapFollowsPositioned | src/index.js:244-270 | the new map fits its bounds to exactly the positioned items, fits nothing when none is positioned, and its overlay holds one marker or heat point per positioned item, the heat layer existing exactly when bounds are fitted |
| Plugin.LeafletPlugin.constructor | src/index.js:160-171 | version "1.0.0" and no map |
| Plugin.LeafletPlugin.Cleanup | src/index.js:286-291 | afterwards there is no map |
| Plugin.LeafletPlugin.Destroy | src/index.js:304-306 | afterwards there is no map |
| Plugin.LeafletPlugin.Render | src/index.js:219-276 | the view is a map exactly when a map is held; transform errors and empty geographic data end in the error view with no map; otherwise the held map is built from the config and the transformed items |

## Left out

- The DOM: clearing the container, the map `div` and its `Date.now()` id, the HTML of `showError`, `console.warn` and `console.error`. Only the outcome is modelled: `View` is the map or the error with its failure.
- `onResize` is left out, because it only schedules `invalidateSize` through `setTimeout`.
- `fixLeafletMarkers` is left out, because it only changes Leaflet's global icon options.
- Leaflet itself is left out. Maps, markers, cluster groups, heat layers and bounds are records of the arguments handed to Leaflet. Exceptions thrown inside Leaflet during `render` are not modelled.
- `L.LatLngBounds.isValid` is modelled as "at least one point was added". Whether Leaflet also rejects non-numeric coordinates is left out.
- `JsValue.ParseFloat` leaves the decimal text parsing to the `parseText` parameter. `parseText` returns a real number or nothing, so `Infinity` and `-Infinity` (which `parseFloat` accepts and which pass the `isNaN` test) cannot be represented; `-0` and strings that parse to `NaN` are whatever that parameter returns. Values other than numbers and strings (booleans, `null`, `undefined`) parse to `NaN`.
- Turning a number into popup text is the `numberText` parameter. Strings, booleans, `null` and `undefined` are written out as JavaScript writes them.
- `Text.ToLower` lower-cases ASCII letters only. Unicode case mapping is not modelled.
- JavaScript object quirks are not modelled: integer-like keys listed before other keys, `__proto__` and inherited prototype properties.
- `getData` returning a value that is neither rows nor missing (a non-array object) is not modelled. Missing data stands for every falsy result, and `error.message` is the thrown message.
- `GeoUtils.TransformGeoData` models the `TypeError` of calling `data.forEach` on missing data as the failure `ForEachOnMissingData`. It does not model that error's text, which depends on the engine and on the value ("Cannot read properties of null (reading 'forEach')" or "… of undefined …" for `null` and `undefined`; "data.forEach is not a function" for `0`, `""`, `false` and `NaN`).
- Four `TypeError` paths are excluded by the model's types, although `render` would turn each of them into the error view (`src/index.js:272-274`): a column whose `name` is not a string (`src/utils/geoUtils.js:7`), a `null` or `undefined` row (`src/utils/geoUtils.js:21`), `getColumns()` throwing (`src/utils/geoUtils.js:3`), and `render` called without a config (`src/index.js:245`). Column names are strings, rows are maps, the column list is a value, and `Config` is always present.
- The `config` parameter of `transformGeoData` and the `config` and `context` parameters of the renderers are unused by the source and left out.
- `GeoUtils.ItemCoordinates` states the parsed coordinates only when no copied column is named "lat" or "lng", because such a column overwrites them.
- The cluster renderer's `createPopupContent` is character-for-character the marker renderer's. Both are modelled by `MarkerMap.PopupContent` and `MarkerMap.CreatePopupContent`.
- Inputs are immutable values here, so "the input is not modified" holds by construction and is not stated.
- `src/index.js` lines 1-145 hold a truncated earlier copy of the class and are not part of this model. `server/server.js` is not part of this model either.
