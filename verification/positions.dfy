/**
 * The filter every renderer applies to the items: `item.lat && item.lng`,
 * and the filter-then-map that each of them builds on it.
 */
module Positions {
  import opened JsValue
  import opened JsObject

  /** Both coordinates are truthy: present, non-zero and not NaN. */
  predicate HasPosition(item: Record) {
    Truthy(Get(item, "lat")) && Truthy(Get(item, "lng"))
  }

  /** Indices of the items that have a position, in order. */
  function Positioned(items: seq<Record>): (r: seq<nat>)
    ensures forall k :: 0 <= k < |r| ==> r[k] < |items| && HasPosition(items[r[k]])
    ensures forall k, l :: 0 <= k < l < |r| ==> r[k] < r[l]
    ensures forall i :: 0 <= i < |items| && HasPosition(items[i]) ==> i in r
    decreases |items|
  {
    if items == [] then []
    else
      var before := Positioned(items[..|items| - 1]);
      if HasPosition(items[|items| - 1]) then before + [|items| - 1] else before
  }

  /** `items.filter(item => item.lat && item.lng).map(f)`, or a loop pushing `f(item)` for those items. */
  function MapPositioned<T>(items: seq<Record>, f: Record -> T): (r: seq<T>)
    ensures |r| <= |items|
    decreases |items|
  {
    if items == [] then []
    else
      var before := MapPositioned(items[..|items| - 1], f);
      if HasPosition(items[|items| - 1]) then before + [f(items[|items| - 1])] else before
  }

  /** The k-th result is made from the k-th item that has a position, and there is one per such item. */
  lemma {:induction false} MapPositionedFollowsPositioned<T>(items: seq<Record>, f: Record -> T)
    ensures |MapPositioned(items, f)| == |Positioned(items)|
    ensures forall k :: 0 <= k < |Positioned(items)| ==>
      MapPositioned(items, f)[k] == f(items[Positioned(items)[k]])
    decreases |items|
  {
    if items != [] {
      var n := |items| - 1;
      var front, last := items[..n], items[n];
      MapPositionedFollowsPositioned(front, f);
      var p, m := Positioned(front), MapPositioned(front, f);
      var P, M := Positioned(items), MapPositioned(items, f);
      if HasPosition(last) {
        assert P == p + [n];
        assert M == m + [f(last)];
      } else {
        assert P == p;
        assert M == m;
      }
      forall k | 0 <= k < |P| ensures M[k] == f(items[P[k]]) {
        if k < |p| {
          assert P[k] == p[k] && M[k] == m[k];
          assert items[p[k]] == front[p[k]];
        }
      }
    }
  }

  /** No result at all exactly when no item has a position. */
  lemma NoneWithoutPosition<T>(items: seq<Record>, f: Record -> T)
    ensures MapPositioned(items, f) == [] <==> forall i :: 0 <= i < |items| ==> !HasPosition(items[i])
  {
    MapPositionedFollowsPositioned(items, f);
    var p := Positioned(items);
    if p != [] {
      assert HasPosition(items[p[0]]);
    }
  }
}
