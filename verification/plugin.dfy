/**
 * `ThoughtSpotLeafletPlugin`: configuration lookups, data validation and the
 * render step that ties the transform to a renderer.
 */
module Plugin {
  import opened JsValue
  import opened JsObject
  import opened GeoUtils
  import opened Positions
  import MarkerMap
  import ClusterMap
  import HeatMap

  const OsmUrl := "https://{s}.tile.openstreetmap.org/{z}/{x}/{y}.png"
  const CartoLightUrl := "https://{s}.basemaps.cartocdn.com/light_all/{z}/{x}/{y}{r}.png"
  const CartoDarkUrl := "https://{s}.basemaps.cartocdn.com/dark_all/{z}/{x}/{y}{r}.png"

  /** The `tileLayers` object of `getTileLayerUrl`. */
  const TileLayers: Entries :=
    [("osm", Str(OsmUrl)), ("cartodb_light", Str(CartoLightUrl)), ("cartodb_dark", Str(CartoDarkUrl))]

  /**
   * `getTileLayerUrl(type)`: `tileLayers[type] || tileLayers.osm`. Only a
   * string can name one of the three keys: every other value becomes a
   * property key ("undefined", "null", a numeral, ...) that is none of them.
   */
  function TileLayerUrl(kind: Value): (url: Value)
    ensures kind == Str("osm") ==> url == Str(OsmUrl)
    ensures kind == Str("cartodb_light") ==> url == Str(CartoLightUrl)
    ensures kind == Str("cartodb_dark") ==> url == Str(CartoDarkUrl)
    ensures kind != Str("osm") && kind != Str("cartodb_light") && kind != Str("cartodb_dark") ==> url == Str(OsmUrl)
  {
    TileLayersLookup();
    var entry := if kind.Str? then Get(TileLayers, kind.s) else Undefined;
    Or(entry, Get(TileLayers, "osm"))
  }

  lemma TileLayersLookup()
    ensures forall key :: Get(TileLayers, key) ==
              (if key == "osm" then Str(OsmUrl)
               else if key == "cartodb_light" then Str(CartoLightUrl)
               else if key == "cartodb_dark" then Str(CartoDarkUrl)
               else Undefined)
  {
    var t := TileLayers;
    forall key: string
      ensures Get(TileLayers, key) ==
        (if key == "osm" then Str(OsmUrl)
         else if key == "cartodb_light" then Str(CartoLightUrl)
         else if key == "cartodb_dark" then Str(CartoDarkUrl)
         else Undefined)
    {
      assert Get(t[1..][1..][1..], key) == Undefined;
      assert Get(t[1..][1..], key) == if key == "cartodb_dark" then Str(CartoDarkUrl) else Undefined;
      assert Get(t[1..], key) == if key == "cartodb_light" then Str(CartoLightUrl) else Get(t[1..][1..], key);
    }
  }

  datatype RendererKind = MarkersRenderer | HeatRenderer | ClusterRenderer

  /** The `mapRenderers` object set up by the constructor. */
  const MapRenderers: seq<(string, RendererKind)> :=
    [("markers", MarkersRenderer), ("heatmap", HeatRenderer), ("cluster", ClusterRenderer)]

  lemma MapRenderersLookup()
    ensures forall key :: Find(MapRenderers, key) ==
              (if key == "markers" then Some(MarkersRenderer)
               else if key == "heatmap" then Some(HeatRenderer)
               else if key == "cluster" then Some(ClusterRenderer)
               else None)
  {
    var t := MapRenderers;
    forall key: string
      ensures Find(MapRenderers, key) ==
        (if key == "markers" then Some(MarkersRenderer)
         else if key == "heatmap" then Some(HeatRenderer)
         else if key == "cluster" then Some(ClusterRenderer)
         else None)
    {
      assert Find(t[1..][1..][1..], key) == None;
      assert Find(t[1..][1..], key) == if key == "cluster" then Some(ClusterRenderer) else None;
      assert Find(t[1..], key) == if key == "heatmap" then Some(HeatRenderer) else Find(t[1..][1..], key);
    }
  }

  /** `this.mapRenderers[config.mapType] || this.mapRenderers.markers`. */
  function SelectRenderer(mapType: Value): (r: RendererKind)
    ensures r == HeatRenderer <==> mapType == Str("heatmap")
    ensures r == ClusterRenderer <==> mapType == Str("cluster")
    ensures r == MarkersRenderer <==> mapType != Str("heatmap") && mapType != Str("cluster")
  {
    MapRenderersLookup();
    var found := if mapType.Str? then Find(MapRenderers, mapType.s) else None;
    if found.Some? then found.value else MarkersRenderer
  }

  /** A render configuration; `center` is an array `[lat, lng]` or absent. */
  datatype Config = Config(mapType: Value, tileLayer: Value, showLegend: Value,
                           center: Option<(Value, Value)>, zoom: Value, maxZoom: Value)

  const DefaultCenter := (Num(39.8283), Num(-98.5795))

  /** `getDefaultConfig()`: markers on OpenStreetMap tiles, zoom 4 of at most 18. */
  function DefaultConfig(): (c: Config)
    ensures c.mapType == Str("markers") && SelectRenderer(c.mapType) == MarkersRenderer
    ensures TileLayerUrl(c.tileLayer) == Str(OsmUrl)
    ensures c.zoom == Num(4.0) && c.maxZoom == Num(18.0)
    ensures c.zoom.Num? && c.maxZoom.Num? && c.zoom.x <= c.maxZoom.x
    ensures c.center == Some(DefaultCenter)
  {
    Config(Str("markers"), Str("osm"), Bool(true), Some(DefaultCenter), Num(4.0), Num(18.0))
  }

  datatype Validation = Validation(isValid: bool, warnings: seq<string>, errors: seq<string>)

  /** `validateData(dataModel)`: fills in a validation record step by step. */
  method ValidateData(data: DataResult) returns (validation: Validation)
    ensures validation.warnings == []
    ensures validation.isValid <==> validation.errors == []
    ensures data.Rows? && data.rows != [] ==> validation.isValid
    ensures data.NoData? || (data.Rows? && data.rows == []) ==> validation.errors == ["No data available"]
    ensures data.Threw? ==> validation.errors == ["Data validation error: " + data.message]
  {
    validation := Validation(true, [], []);
    match data {
      case Threw(message) =>
        validation := validation.(isValid := false);
        validation := validation.(errors := validation.errors + ["Data validation error: " + message]);
      case NoData =>
        validation := validation.(isValid := false);
        validation := validation.(errors := validation.errors + ["No data available"]);
      case Rows(rows) =>
        if |rows| == 0 {
          validation := validation.(isValid := false);
          validation := validation.(errors := validation.errors + ["No data available"]);
        }
    }
  }

  /** What the map shows on top of its tiles, as handed to the map library. */
  datatype Overlay =
    | MarkerOverlay(markers: seq<MarkerMap.Marker>)
    | ClusterOverlay(group: ClusterMap.ClusterGroup)
    | HeatOverlay(heat: Option<HeatMap.HeatLayer>)

  /** `bounds.pad(padding)` over the points the bounds were extended with. */
  datatype Bounds = Bounds(points: seq<(Value, Value)>, padding: real)

  /** A map as created by `L.map`, with its tile layer, overlay and fitted bounds. */
  datatype LeafletMap = LeafletMap(center: (Value, Value), zoom: Value, maxZoom: Value,
                                   tileUrl: Value, overlay: Overlay, fitted: Option<Bounds>)

  /** What the container shows: the map, or the error of `showError`. */
  datatype View = MapView | ErrorView(failure: Failure)

  const NoGeoDataMessage := "No valid geographic data found"

  function CoordinatesOf(item: Record): (Value, Value) {
    (Get(item, "lat"), Get(item, "lng"))
  }

  /** The points `bounds.extend` receives: those of the items with truthy `lat` and `lng`. */
  function BoundsPoints(items: seq<Record>): seq<(Value, Value)> {
    MapPositioned(items, CoordinatesOf)
  }

  function OverlayFor(kind: RendererKind, items: seq<Record>, numberText: real -> string): Overlay {
    match kind
    case MarkersRenderer => MarkerOverlay(MarkerMap.Markers(items, numberText))
    case ClusterRenderer => ClusterOverlay(ClusterMap.ClusterGroup(true, 80, MarkerMap.Markers(items, numberText)))
    case HeatRenderer => HeatOverlay(HeatMap.Render(items))
  }

  /** The map `render` builds for non-empty geographic data. */
  function NewMap(config: Config, items: seq<Record>, numberText: real -> string): LeafletMap {
    var points := BoundsPoints(items);
    LeafletMap(
      if config.center.Some? then config.center.value else DefaultCenter,
      Or(config.zoom, Num(4.0)),
      Or(config.maxZoom, Num(18.0)),
      TileLayerUrl(config.tileLayer),
      OverlayFor(SelectRenderer(config.mapType), items, numberText),
      if points == [] then None else Some(Bounds(points, 0.1)))
  }

  /** `renderer.render(this.map, geoData, config, renderContext)` for the chosen renderer. */
  method RenderOverlay(kind: RendererKind, geoData: seq<Record>, numberText: real -> string) returns (overlay: Overlay)
    ensures overlay == OverlayFor(kind, geoData, numberText)
  {
    match kind {
      case MarkersRenderer =>
        var markers := MarkerMap.Render(geoData, numberText);
        overlay := MarkerOverlay(markers);
      case ClusterRenderer =>
        var group := ClusterMap.Render(geoData, numberText);
        overlay := ClusterOverlay(group);
      case HeatRenderer =>
        overlay := HeatOverlay(HeatMap.Render(geoData));
    }
  }

  /** The `geoData.forEach` loop of `render` that extends the bounds with every positioned item. */
  method ExtendBounds(geoData: seq<Record>) returns (points: seq<(Value, Value)>)
    ensures points == BoundsPoints(geoData)
  {
    points := [];
    for i := 0 to |geoData|
      invariant points == BoundsPoints(geoData[..i])
    {
      var item := geoData[i];
      if Truthy(Get(item, "lat")) && Truthy(Get(item, "lng")) {
        points := points + [(Get(item, "lat"), Get(item, "lng"))];
      }
      assert geoData[..i + 1][..i] == geoData[..i];
    }
    assert geoData[..|geoData|] == geoData;
  }

  // ----- How the transform and the renderers fit together -----

  /** The heat layer and the markers are made from the same items: same number, same coordinates, same order. */
  lemma HeatMatchesMarkers(data: seq<Record>, numberText: real -> string)
    ensures |HeatMap.HeatData(data)| == |MarkerMap.Markers(data, numberText)|
    ensures forall k :: 0 <= k < |HeatMap.HeatData(data)| ==>
      HeatMap.HeatData(data)[k].lat == MarkerMap.Markers(data, numberText)[k].lat &&
      HeatMap.HeatData(data)[k].lng == MarkerMap.Markers(data, numberText)[k].lng
  {
    HeatMap.HeatDataFollowsPositioned(data);
    MarkerMap.MarkersFollowPositioned(data, numberText);
  }

  /**
   * A transformed item is drawn exactly when neither parsed coordinate is 0:
   * a point on the equator or on the prime meridian passes the transform but
   * is skipped by every renderer and by the bounds.
   */
  lemma PlottedIffNonZero(columns: seq<Column>, row: Row, latId: string, lngId: string, parseText: string -> Option<real>)
    requires RowParses(row, latId, lngId, parseText)
    requires !CopiedName(columns, latId, lngId, "lat") && !CopiedName(columns, latId, lngId, "lng")
    ensures HasPosition(ProjectRow(columns, row, latId, lngId, parseText).value) <==>
      ParseFloat(Cell(row, latId), parseText).value != 0.0 && ParseFloat(Cell(row, lngId), parseText).value != 0.0
  {
    ItemCoordinates(columns, row, latId, lngId, parseText);
  }

  /**
   * The popup of a transformed item shows every entry after "lat" and "lng",
   * in order, and none of those entries is a coordinate key.
   */
  lemma TransformedPopup(columns: seq<Column>, row: Row, latId: string, lngId: string,
                         parseText: string -> Option<real>, numberText: real -> string)
    requires RowParses(row, latId, lngId, parseText)
    ensures var item := ProjectRow(columns, row, latId, lngId, parseText).value;
      |item| >= 2 &&
      (forall i :: 2 <= i < |item| ==> !MarkerMap.IsCoordinateKey(item[i].0)) &&
      MarkerMap.Segments(item, numberText) == MarkerMap.Segments(item[2..], numberText)
  {
    var item := ProjectRow(columns, row, latId, lngId, parseText).value;
    ItemCoordinates(columns, row, latId, lngId, parseText);
    MarkerMap.CoordinatesFirst(item);
    MarkerMap.PopupAfterCoordinates(item, numberText);
  }

  /**
   * The new map holds one marker (or, for the heat map, one point) per
   * positioned item, and fits its view to exactly those items' coordinates;
   * with none, nothing is fitted and the heat renderer makes no layer.
   */
  lemma NewMapFollowsPositioned(config: Config, items: seq<Record>, numberText: real -> string)
    ensures NewMap(config, items, numberText).fitted.None? <==> forall i :: 0 <= i < |items| ==> !HasPosition(items[i])
    ensures NewMap(config, items, numberText).fitted.Some? ==>
      NewMap(config, items, numberText).fitted.value.points == BoundsPoints(items) &&
      |BoundsPoints(items)| == |Positioned(items)|
    ensures match NewMap(config, items, numberText).overlay
      case MarkerOverlay(markers) => |markers| == |Positioned(items)|
      case ClusterOverlay(group) => |group.layers| == |Positioned(items)|
      case HeatOverlay(heat) => heat.None? <==> NewMap(config, items, numberText).fitted.None?
    ensures NewMap(config, items, numberText).overlay.HeatOverlay? ==>
      var heat := NewMap(config, items, numberText).overlay.heat;
      heat.Some? ==> |heat.value.points| == |Positioned(items)|
  {
    NoneWithoutPosition(items, CoordinatesOf);
    MapPositionedFollowsPositioned(items, CoordinatesOf);
    MarkerMap.MarkersFollowPositioned(items, numberText);
    HeatMap.HeatDataFollowsPositioned(items);
  }

  class LeafletPlugin {
    const version: string
    var leafletMap: Option<LeafletMap>  // `this.map`

    constructor ()
      ensures version == "1.0.0" && leafletMap == None
    {
      version := "1.0.0";
      leafletMap := None;
    }

    /** `cleanup()`: removes the current map, if any. */
    method Cleanup()
      modifies this
      ensures leafletMap == None
    {
      if leafletMap.Some? {
        leafletMap := None;
      }
    }

    /** `destroy()`. */
    method Destroy()
      modifies this
      ensures leafletMap == None
    {
      Cleanup();
    }

    /**
     * `render(renderContext)`: drops the old map, transforms the data and,
     * when there are points, builds a new map with the chosen renderer;
     * every failure ends in the error view and no map.
     */
    method Render(model: DataModel, config: Config, parseText: string -> Option<real>, numberText: real -> string)
      returns (view: View)
      modifies this
      ensures view.MapView? <==> leafletMap.Some?
      ensures model.data.Threw? ==> view == ErrorView(Thrown(model.data.message))
      ensures model.data.NoData? ==>
        view == ErrorView(if HasCoordinateColumns(model.columns) then ForEachOnMissingData else Thrown(NoGeoDataMessage))
      ensures model.data.Rows? && Transform(model.columns, model.data.rows, parseText) == [] ==>
        view == ErrorView(Thrown(NoGeoDataMessage))
      ensures model.data.Rows? && Transform(model.columns, model.data.rows, parseText) != [] ==>
        leafletMap == Some(NewMap(config, Transform(model.columns, model.data.rows, parseText), numberText))
    {
      Cleanup();
      var outcome := TransformGeoData(model, parseText);
      if outcome.Raised? {
        return ErrorView(outcome.failure);
      }
      var geoData := outcome.items;
      if |geoData| == 0 {
        return ErrorView(Thrown(NoGeoDataMessage));
      }
      var center := if config.center.Some? then config.center.value else DefaultCenter;
      var zoom := Or(config.zoom, Num(4.0));
      var maxZoom := Or(config.maxZoom, Num(18.0));
      var tileUrl := TileLayerUrl(config.tileLayer);
      var overlay := RenderOverlay(SelectRenderer(config.mapType), geoData, numberText);
      var points := ExtendBounds(geoData);
      var fitted := if |points| > 0 then Some(Bounds(points, 0.1)) else None;
      leafletMap := Some(LeafletMap(center, zoom, maxZoom, tileUrl, overlay, fitted));
      view := MapView;
    }
  }
}
