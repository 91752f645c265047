/** `MarkerMap`: one popup marker per positioned item, and the popup text builder. */
module MarkerMap {
  import opened JsValue
  import opened JsObject
  import opened Positions

  const PopupOpen := "<div class=\"marker-popup\">"
  const PopupClose := "</div>"

  /** `L.marker([lat, lng]).bindPopup(popup)`. */
  datatype Marker = Marker(lat: Value, lng: Value, popup: string)

  predicate IsCoordinateKey(key: string) {
    key == "lat" || key == "lng"
  }

  /** One popup line; key and value are interpolated verbatim, without escaping. */
  function Segment(key: string, value: Value, numberText: real -> string): string {
    "<div><strong>" + key + ":</strong> " + ToText(value, numberText) + "</div>"
  }

  /** What one entry adds to the popup: nothing for "lat" and "lng". */
  function EntrySegment(e: (string, Value), numberText: real -> string): string {
    if IsCoordinateKey(e.0) then "" else Segment(e.0, e.1, numberText)
  }

  function Segments(entries: Entries, numberText: real -> string): string
    decreases |entries|
  {
    if entries == [] then ""
    else Segments(entries[..|entries| - 1], numberText) + EntrySegment(entries[|entries| - 1], numberText)
  }

  /** The string `createPopupContent(item)` returns. */
  function PopupContent(item: Record, numberText: real -> string): (p: string)
    ensures |p| >= |PopupOpen| + |PopupClose|
    ensures p[..|PopupOpen|] == PopupOpen && p[|p| - |PopupClose|..] == PopupClose
  {
    PopupOpen + Segments(item, numberText) + PopupClose
  }

  lemma {:induction false} SegmentsConcat(a: Entries, b: Entries, numberText: real -> string)
    ensures Segments(a + b, numberText) == Segments(a, numberText) + Segments(b, numberText)
    decreases |b|
  {
    if b != [] {
      var front, last := b[..|b| - 1], b[|b| - 1];
      assert (a + b)[..|a + b| - 1] == a + front;
      assert (a + b)[|a + b| - 1] == last;
      SegmentsConcat(a, front, numberText);
    } else {
      assert a + b == a;
    }
  }

  /**
   * Every entry contributes, at its own position in key order, exactly one
   * segment made of its key and its value, except "lat" and "lng", which
   * contribute nothing.
   */
  lemma SegmentsInKeyOrder(item: Entries, numberText: real -> string, i: nat)
    requires i < |item|
    ensures Segments(item, numberText)
      == Segments(item[..i], numberText)
         + (if IsCoordinateKey(item[i].0) then "" else Segment(item[i].0, item[i].1, numberText))
         + Segments(item[i + 1..], numberText)
  {
    var pre, e, post := item[..i], item[i], item[i + 1..];
    var a, x, c := Segments(pre, numberText), EntrySegment(e, numberText), Segments(post, numberText);
    SplitAt(item, i);
    SegmentsConcat(pre + [e], post, numberText);
    SegmentsConcat(pre, [e], numberText);
    SegmentsSingle(e, numberText);
    assert Segments(pre + [e], numberText) == a + x;
    assert Segments(item, numberText) == (a + x) + c;
  }

  lemma SegmentsSingle(e: (string, Value), numberText: real -> string)
    ensures Segments([e], numberText) == EntrySegment(e, numberText)
  {
    assert [e][..0] == [];
  }

  lemma {:induction false} SegmentsOfCoordinates(entries: Entries, numberText: real -> string)
    requires forall i :: 0 <= i < |entries| ==> IsCoordinateKey(entries[i].0)
    ensures Segments(entries, numberText) == ""
    decreases |entries|
  {
    if entries != [] {
      SegmentsOfCoordinates(entries[..|entries| - 1], numberText);
    }
  }

  /** An item holding only "lat" and "lng" gets the opening tag followed by the closing tag. */
  lemma PopupOfCoordinatesOnly(item: Record, numberText: real -> string)
    requires forall i :: 0 <= i < |item| ==> IsCoordinateKey(item[i].0)
    ensures PopupContent(item, numberText) == PopupOpen + PopupClose
  {
    SegmentsOfCoordinates(item, numberText);
  }

  /** In an object whose first two keys are "lat" and "lng", no later key is a coordinate. */
  lemma CoordinatesFirst(item: Record)
    requires |item| >= 2 && item[0].0 == "lat" && item[1].0 == "lng"
    ensures forall i :: 2 <= i < |item| ==> !IsCoordinateKey(item[i].0)
  {
    forall i | 2 <= i < |item| ensures !IsCoordinateKey(item[i].0) {
      DistinctKeys(item, 0, i);
      DistinctKeys(item, 1, i);
    }
  }

  /** The popup of an object starting with "lat" and "lng" lists exactly the entries after those two. */
  lemma PopupAfterCoordinates(item: Entries, numberText: real -> string)
    requires |item| >= 2 && item[0].0 == "lat" && item[1].0 == "lng"
    ensures Segments(item, numberText) == Segments(item[2..], numberText)
  {
    var coordinates, rest := item[..2], item[2..];
    TakeDrop(item, 2);
    assert IsCoordinateKey(coordinates[0].0) && IsCoordinateKey(coordinates[1].0);
    SegmentsOfCoordinates(coordinates, numberText);
    SegmentsConcat(coordinates, rest, numberText);
    var r := Segments(rest, numberText);
    assert Segments(item, numberText) == "" + r;
    assert "" + r == r;
  }

  /** `createPopupContent(item)`: appends one segment per key of the item, in key order. */
  method CreatePopupContent(item: Record, numberText: real -> string) returns (content: string)
    ensures content == PopupContent(item, numberText)
  {
    content := PopupOpen;
    var keys := Keys(item);
    for i := 0 to |keys|
      invariant content == PopupOpen + Segments(item[..i], numberText)
    {
      ghost var before := content;
      var key := keys[i];
      if key != "lat" && key != "lng" {
        GetEntry(item, i);
        content := content + Segment(key, Get(item, key), numberText);
      }
      assert content == before + EntrySegment(item[i], numberText);
      assert item[..i + 1][..i] == item[..i];
      assert Segments(item[..i + 1], numberText) == Segments(item[..i], numberText) + EntrySegment(item[i], numberText);
      AppendAssociates(PopupOpen, Segments(item[..i], numberText), EntrySegment(item[i], numberText));
    }
    assert item[..|keys|] == item;
    content := content + PopupClose;
  }

  function MarkerFor(item: Record, numberText: real -> string): Marker {
    Marker(Get(item, "lat"), Get(item, "lng"), PopupContent(item, numberText))
  }

  function MarkerMaker(numberText: real -> string): Record -> Marker {
    (item: Record) => MarkerFor(item, numberText)
  }

  /** The markers made for `data`, in data order. */
  function Markers(data: seq<Record>, numberText: real -> string): seq<Marker> {
    MapPositioned(data, MarkerMaker(numberText))
  }

  /** Exactly the positioned items, in data order, by their markers. */
  lemma MarkersFollowPositioned(data: seq<Record>, numberText: real -> string)
    ensures |Markers(data, numberText)| == |Positioned(data)|
    ensures forall k :: 0 <= k < |Positioned(data)| ==>
      Markers(data, numberText)[k] == MarkerFor(data[Positioned(data)[k]], numberText)
  {
    MapPositionedFollowsPositioned(data, MarkerMaker(numberText));
  }

  /**
   * `render(map, data, config, context)`: a marker, added to the map, for every
   * item whose `lat` and `lng` are truthy; the returned array lists them.
   */
  method Render(data: seq<Record>, numberText: real -> string) returns (markers: seq<Marker>)
    ensures markers == Markers(data, numberText)
    ensures |markers| == |Positioned(data)|
    ensures forall k :: 0 <= k < |markers| ==> markers[k] == MarkerFor(data[Positioned(data)[k]], numberText)
  {
    markers := [];
    for i := 0 to |data|
      invariant markers == Markers(data[..i], numberText)
    {
      var item := data[i];
      if Truthy(Get(item, "lat")) && Truthy(Get(item, "lng")) {
        var popup := CreatePopupContent(item, numberText);
        markers := markers + [Marker(Get(item, "lat"), Get(item, "lng"), popup)];
      }
      assert data[..i + 1][..i] == data[..i];
    }
    assert data[..|data|] == data;
    MarkersFollowPositioned(data, numberText);
  }
}
