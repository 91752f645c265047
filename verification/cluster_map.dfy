/** `ClusterMap`: the same markers, gathered into one marker-cluster group. */
module ClusterMap {
  import opened JsValue
  import opened JsObject
  import opened Positions
  import opened MarkerMap

  /** `L.markerClusterGroup(options)` and the markers added to it with `addLayer`. */
  datatype ClusterGroup = ClusterGroup(chunkedLoading: bool, maxClusterRadius: nat, layers: seq<Marker>)

  /**
   * `render(map, data, config, context)`: every item whose `lat` and `lng` are
   * truthy gets a marker, in data order, and every marker goes into the one
   * group, which is returned (and added to the map once).
   * The popup builder of this class is textually the same as `MarkerMap`'s,
   * so the markers carry `MarkerMap.PopupContent`.
   */
  method Render(data: seq<Record>, numberText: real -> string) returns (group: ClusterGroup)
    ensures group.chunkedLoading && group.maxClusterRadius == 80
    ensures group.layers == Markers(data, numberText)
    ensures |group.layers| == |Positioned(data)|
    ensures forall k :: 0 <= k < |group.layers| ==>
      group.layers[k] == MarkerFor(data[Positioned(data)[k]], numberText)
  {
    group := ClusterGroup(true, 80, []);
    for i := 0 to |data|
      invariant group.chunkedLoading && group.maxClusterRadius == 80
      invariant group.layers == Markers(data[..i], numberText)
    {
      var item := data[i];
      if Truthy(Get(item, "lat")) && Truthy(Get(item, "lng")) {
        var popup := CreatePopupContent(item, numberText);
        var marker := Marker(Get(item, "lat"), Get(item, "lng"), popup);
        group := group.(layers := group.layers + [marker]);
      }
      assert data[..i + 1][..i] == data[..i];
    }
    assert data[..|data|] == data;
    MarkersFollowPositioned(data, numberText);
  }
}
