/** `HeatMap`: `[lat, lng, intensity]` triples for a heat layer. */
module HeatMap {
  import opened JsValue
  import opened JsObject
  import opened Positions

  datatype HeatPoint = HeatPoint(lat: Value, lng: Value, intensity: Value)

  /** `L.heatLayer(points, { radius, blur, maxZoom })`. */
  datatype HeatLayer = HeatLayer(points: seq<HeatPoint>, radius: nat, blur: nat, maxZoom: nat)

  /** `item.value || 1`: never falsy, the item's own value whenever that is truthy. */
  function Intensity(item: Record): (v: Value)
    ensures Truthy(v)
    ensures v == Get(item, "value") || v == Num(1.0)
    ensures Truthy(Get(item, "value")) ==> v == Get(item, "value")
  {
    Or(Get(item, "value"), Num(1.0))
  }

  function HeatPointFor(item: Record): HeatPoint {
    HeatPoint(Get(item, "lat"), Get(item, "lng"), Intensity(item))
  }

  /** `data.filter(item => item.lat && item.lng).map(item => [item.lat, item.lng, item.value || 1])`. */
  function HeatData(data: seq<Record>): seq<HeatPoint> {
    MapPositioned(data, HeatPointFor)
  }

  /**
   * One triple per item with truthy `lat` and `lng`, in data order, holding
   * that item's coordinates unchanged and its intensity.
   */
  lemma HeatDataFollowsPositioned(data: seq<Record>)
    ensures |HeatData(data)| == |Positioned(data)| <= |data|
    ensures forall k :: 0 <= k < |HeatData(data)| ==>
      var item := data[Positioned(data)[k]];
      HeatData(data)[k] == HeatPoint(Get(item, "lat"), Get(item, "lng"), Intensity(item))
  {
    MapPositionedFollowsPositioned(data, HeatPointFor);
  }

  /** `render(map, data, config, context)`: null when no item qualifies, else the heat layer. */
  function Render(data: seq<Record>): (layer: Option<HeatLayer>)
    ensures layer.None? <==> forall i :: 0 <= i < |data| ==> !HasPosition(data[i])
    ensures layer.Some? ==> layer.value == HeatLayer(HeatData(data), 25, 15, 17)
  {
    NoneWithoutPosition(data, HeatPointFor);
    var heatData := HeatData(data);
    if |heatData| == 0 then None
    else Some(HeatLayer(heatData, 25, 15, 17))
  }
}
