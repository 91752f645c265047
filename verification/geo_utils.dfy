/**
 * `transformGeoData`: picks the latitude, longitude and value columns of a
 * table and turns every row whose coordinates parse into a point record.
 */
module GeoUtils {
  import opened JsValue
  import opened JsObject
  import opened Text

  /** Column metadata; `columnType` is the column's declared type ("measure", "attribute", ...). */
  datatype Column = Column(id: string, name: string, columnType: string)

  /** A row maps column ids to cell values. */
  type Row = map<string, Value>

  /** What `dataModel.getData()` does: return rows, return null/undefined, or throw. */
  datatype DataResult = Rows(rows: seq<Row>) | NoData | Threw(message: string)

  datatype DataModel = DataModel(data: DataResult, columns: seq<Column>)

  /**
   * An exception leaving `transformGeoData`: the one `getData` threw, or the
   * TypeError of calling `data.forEach` when `getData` returned no array
   * ("Cannot read properties of null (reading 'forEach')" and the like).
   */
  datatype Failure = Thrown(message: string) | ForEachOnMissingData

  datatype Outcome = Done(items: seq<Record>) | Raised(failure: Failure)

  /** `row[id]`. */
  function Cell(row: Row, id: string): Value {
    if id in row then row[id] else Undefined
  }

  // ----- Column classification -----

  /** The case-insensitive regular expressions `^(lat|latitude)$` and `^(lng|lon|longitude)$`. */
  predicate LatPattern(name: string) {
    var n := ToLower(name); n == "lat" || n == "latitude"
  }

  predicate LngPattern(name: string) {
    var n := ToLower(name); n == "lng" || n == "lon" || n == "longitude"
  }

  /** The two `find` predicates, exactly as the source writes them. */
  predicate IsLatColumn(c: Column) {
    LatPattern(c.name) || Contains(ToLower(c.name), "lat")
  }

  predicate IsLngColumn(c: Column) {
    LngPattern(c.name) || Contains(ToLower(c.name), "lng") || Contains(ToLower(c.name), "lon")
  }

  /** The substring tests alone. */
  predicate NamesLatitude(name: string) {
    Contains(ToLower(name), "lat")
  }

  predicate NamesLongitude(name: string) {
    Contains(ToLower(name), "lng") || Contains(ToLower(name), "lon")
  }

  /** Every name the exact-match patterns accept also passes the substring tests. */
  lemma PatternsSubsumed()
    ensures forall name :: LatPattern(name) ==> NamesLatitude(name)
    ensures forall name :: LngPattern(name) ==> NamesLongitude(name)
  {
    forall name | LatPattern(name) ensures NamesLatitude(name) {
      var n := ToLower(name);
      assert n[..3] == "lat";
      StartsWithContains(n, "lat");
    }
    forall name | LngPattern(name) ensures NamesLongitude(name) {
      var n := ToLower(name);
      if n == "lng" {
        StartsWithContains(n, "lng");
      } else {
        assert n[..3] == "lon";
        StartsWithContains(n, "lon");
      }
    }
  }

  /** Position `i` of `name` starts "lat" written in any mix of cases. */
  predicate SpellsLatAt(name: string, i: int) {
    0 <= i && i + 3 <= |name| &&
    (name[i] == 'l' || name[i] == 'L') &&
    (name[i + 1] == 'a' || name[i + 1] == 'A') &&
    (name[i + 2] == 't' || name[i + 2] == 'T')
  }

  /** Position `i` of `name` starts "lng" or "lon" written in any mix of cases. */
  predicate SpellsLngAt(name: string, i: int) {
    0 <= i && i + 3 <= |name| &&
    (name[i] == 'l' || name[i] == 'L') &&
    (((name[i + 1] == 'n' || name[i + 1] == 'N') && (name[i + 2] == 'g' || name[i + 2] == 'G')) ||
     ((name[i + 1] == 'o' || name[i + 1] == 'O') && (name[i + 2] == 'n' || name[i + 2] == 'N')))
  }

  /** The latitude test accepts exactly the names holding "lat" in any mix of cases. */
  lemma NamesLatitudeIgnoringCase(name: string)
    ensures NamesLatitude(name) <==> exists i :: SpellsLatAt(name, i)
  {
    ContainsIgnoringCase(name, "lat");
    assert UpperChar('l') == 'L' && UpperChar('a') == 'A' && UpperChar('t') == 'T';
    if NamesLatitude(name) {
      var i :| MatchesAt(name, "lat", i);
      MatchesAtThree(name, "lat", i);
      assert SpellsLatAt(name, i);
    }
    if exists i :: SpellsLatAt(name, i) {
      var i :| SpellsLatAt(name, i);
      MatchesAtThree(name, "lat", i);
      assert MatchesAt(name, "lat", i);
    }
  }

  /** The longitude test accepts exactly the names holding "lng" or "lon" in any mix of cases. */
  lemma NamesLongitudeIgnoringCase(name: string)
    ensures NamesLongitude(name) <==> exists i :: SpellsLngAt(name, i)
  {
    ContainsIgnoringCase(name, "lng");
    ContainsIgnoringCase(name, "lon");
    assert UpperChar('l') == 'L' && UpperChar('n') == 'N' && UpperChar('g') == 'G' && UpperChar('o') == 'O';
    if NamesLongitude(name) {
      var i :| MatchesAt(name, "lng", i) || MatchesAt(name, "lon", i);
      MatchesAtThree(name, "lng", i);
      MatchesAtThree(name, "lon", i);
      assert SpellsLngAt(name, i);
    }
    if exists i :: SpellsLngAt(name, i) {
      var i :| SpellsLngAt(name, i);
      MatchesAtThree(name, "lng", i);
      MatchesAtThree(name, "lon", i);
      assert MatchesAt(name, "lng", i) || MatchesAt(name, "lon", i);
    }
  }

  /** `s.find(p)`, as the index of the element found. */
  function FindFirst<T>(s: seq<T>, p: T -> bool): (r: Option<nat>)
    ensures r.Some? ==> r.value < |s| && p(s[r.value])
    ensures r.Some? ==> forall j :: 0 <= j < r.value ==> !p(s[j])
    ensures r.None? ==> forall j :: 0 <= j < |s| ==> !p(s[j])
  {
    if s == [] then None
    else if p(s[0]) then Some(0)
    else match FindFirst(s[1..], p)
      case None => None
      case Some(i) => Some(i + 1)
  }

  /** The latitude column: the first whose lower-cased name contains "lat". */
  function LatColumn(columns: seq<Column>): (r: Option<nat>)
    ensures r.Some? ==> r.value < |columns| && NamesLatitude(columns[r.value].name)
    ensures r.Some? ==> forall j :: 0 <= j < r.value ==> !NamesLatitude(columns[j].name)
    ensures r.None? ==> forall j :: 0 <= j < |columns| ==> !NamesLatitude(columns[j].name)
  {
    PatternsSubsumed();
    FindFirst(columns, IsLatColumn)
  }

  /** The longitude column: the first whose lower-cased name contains "lng" or "lon". */
  function LngColumn(columns: seq<Column>): (r: Option<nat>)
    ensures r.Some? ==> r.value < |columns| && NamesLongitude(columns[r.value].name)
    ensures r.Some? ==> forall j :: 0 <= j < r.value ==> !NamesLongitude(columns[j].name)
    ensures r.None? ==> forall j :: 0 <= j < |columns| ==> !NamesLongitude(columns[j].name)
  {
    PatternsSubsumed();
    FindFirst(columns, IsLngColumn)
  }

  /** A column is copied into the item unless its id is the latitude's or the longitude's. */
  predicate Copied(c: Column, latId: string, lngId: string) {
    c.id != latId && c.id != lngId
  }

  predicate IsValueColumn(c: Column, latId: string, lngId: string) {
    c.columnType == "measure" && Copied(c, latId, lngId)
  }

  /** The value column: the first measure column that is neither coordinate column. */
  function ValueColumn(columns: seq<Column>, latId: string, lngId: string): (r: Option<nat>)
    ensures r.Some? ==> r.value < |columns| && IsValueColumn(columns[r.value], latId, lngId)
    ensures r.Some? ==> forall j :: 0 <= j < r.value ==> !IsValueColumn(columns[j], latId, lngId)
    ensures r.None? ==> forall j :: 0 <= j < |columns| ==> !IsValueColumn(columns[j], latId, lngId)
  {
    FindFirst(columns, c => IsValueColumn(c, latId, lngId))
  }

  // ----- Row projection -----

  /** Both coordinate cells of the row parse to a number. */
  predicate RowParses(row: Row, latId: string, lngId: string, parseText: string -> Option<real>) {
    ParseFloat(Cell(row, latId), parseText).Some? && ParseFloat(Cell(row, lngId), parseText).Some?
  }

  /** The object literal `{ lat: lat, lng: lng }` an item starts from. */
  function Coordinates(lat: real, lng: real): (r: Record)
    ensures Keys(r) == ["lat", "lng"]
    ensures Get(r, "lat") == Num(lat) && Get(r, "lng") == Num(lng)
  {
    ConsFacts(("lng", Num(lng)), []);
    ConsFacts(("lat", Num(lat)), [("lng", Num(lng))]);
    [("lat", Num(lat))] + [("lng", Num(lng))]
  }

  /** The inner `columns.forEach`: `item[column.name] = row[column.id]` for every copied column. */
  function CopyColumns(item: Record, columns: seq<Column>, row: Row, latId: string, lngId: string): Record
    decreases |columns|
  {
    if columns == [] then item
    else
      var before := CopyColumns(item, columns[..|columns| - 1], row, latId, lngId);
      var c := columns[|columns| - 1];
      if Copied(c, latId, lngId) then Set(before, c.name, Cell(row, c.id)) else before
  }

  /** The item made from a row whose coordinates parsed to `lat` and `lng`. */
  function MakeItem(columns: seq<Column>, row: Row, latId: string, lngId: string, lat: real, lng: real): Record {
    var item := CopyColumns(Coordinates(lat, lng), columns, row, latId, lngId);
    match ValueColumn(columns, latId, lngId)
    case Some(v) => Set(item, "value", Cell(row, columns[v].id))
    case None => item
  }

  /** The item a row contributes, if any. */
  function ProjectRow(columns: seq<Column>, row: Row, latId: string, lngId: string,
                      parseText: string -> Option<real>): Option<Record>
  {
    var lat := ParseFloat(Cell(row, latId), parseText);
    var lng := ParseFloat(Cell(row, lngId), parseText);
    if lat.Some? && lng.Some? then Some(MakeItem(columns, row, latId, lngId, lat.value, lng.value))
    else None
  }

  /** The items of all rows, in row order. */
  function TransformRows(columns: seq<Column>, rows: seq<Row>, latId: string, lngId: string,
                         parseText: string -> Option<real>): (r: seq<Record>)
    ensures |r| <= |rows|
    decreases |rows|
  {
    if rows == [] then []
    else
      var before := TransformRows(columns, rows[..|rows| - 1], latId, lngId, parseText);
      match ProjectRow(columns, rows[|rows| - 1], latId, lngId, parseText)
      case Some(item) => before + [item]
      case None => before
  }

  /** The whole transform on a table that was returned. */
  function Transform(columns: seq<Column>, rows: seq<Row>, parseText: string -> Option<real>): (r: seq<Record>)
    ensures |r| <= |rows|
    ensures LatColumn(columns).None? || LngColumn(columns).None? ==> r == []
  {
    match (LatColumn(columns), LngColumn(columns))
    case (Some(i), Some(j)) => TransformRows(columns, rows, columns[i].id, columns[j].id, parseText)
    case _ => []
  }

  /** Neither coordinate column is missing. */
  predicate HasCoordinateColumns(columns: seq<Column>) {
    LatColumn(columns).Some? && LngColumn(columns).Some?
  }

  /** The body of `data.forEach`: the item one row contributes, if both coordinates parse. */
  method TransformRow(columns: seq<Column>, row: Row, latId: string, lngId: string,
                      parseText: string -> Option<real>) returns (result: Option<Record>)
    ensures result == ProjectRow(columns, row, latId, lngId, parseText)
  {
    var lat := ParseFloat(Cell(row, latId), parseText);
    var lng := ParseFloat(Cell(row, lngId), parseText);
    if !(lat.Some? && lng.Some?) {
      return None;
    }
    var item := CopyRow(Coordinates(lat.value, lng.value), columns, row, latId, lngId);
    var valueColumn := ValueColumn(columns, latId, lngId);
    if valueColumn.Some? {
      item := Set(item, "value", Cell(row, columns[valueColumn.value].id));
    }
    return Some(item);
  }

  /** The inner `columns.forEach` loop, assigning each copied column's cell under its name. */
  method CopyRow(base: Record, columns: seq<Column>, row: Row, latId: string, lngId: string) returns (item: Record)
    ensures item == CopyColumns(base, columns, row, latId, lngId)
  {
    item := base;
    for j := 0 to |columns|
      invariant item == CopyColumns(base, columns[..j], row, latId, lngId)
    {
      var column := columns[j];
      if column.id != latId && column.id != lngId {
        item := Set(item, column.name, Cell(row, column.id));
      }
      assert columns[..j + 1][..j] == columns[..j];
    }
    assert columns[..|columns|] == columns;
  }

  /** `transformGeoData(dataModel, config)`; `config` is unused by the source and left out. */
  method TransformGeoData(model: DataModel, parseText: string -> Option<real>) returns (outcome: Outcome)
    ensures model.data.Threw? ==> outcome == Raised(Thrown(model.data.message))
    ensures model.data.NoData? ==>
      outcome == if HasCoordinateColumns(model.columns) then Raised(ForEachOnMissingData) else Done([])
    ensures model.data.Rows? ==> outcome == Done(Transform(model.columns, model.data.rows, parseText))
  {
    if model.data.Threw? {
      return Raised(Thrown(model.data.message));
    }
    var columns := model.columns;
    var latColumn := LatColumn(columns);
    var lngColumn := LngColumn(columns);
    if latColumn.None? || lngColumn.None? {
      return Done([]);
    }
    if model.data.NoData? {
      return Raised(ForEachOnMissingData);
    }
    var data := model.data.rows;
    var latId, lngId := columns[latColumn.value].id, columns[lngColumn.value].id;
    var transformed: seq<Record> := [];
    var i := 0;
    while i < |data|
      invariant 0 <= i <= |data|
      invariant transformed == TransformRows(columns, data[..i], latId, lngId, parseText)
    {
      var item := TransformRow(columns, data[i], latId, lngId, parseText);
      if item.Some? {
        transformed := transformed + [item.value];
      }
      assert data[..i + 1][..i] == data[..i];
      i := i + 1;
    }
    assert data[..i] == data;
    return Done(transformed);
  }

  // ----- Properties -----

  /** Indices of the rows whose coordinates both parse, in row order. */
  function ParsedRows(rows: seq<Row>, latId: string, lngId: string, parseText: string -> Option<real>): (r: seq<nat>)
    ensures forall k :: 0 <= k < |r| ==> r[k] < |rows| && RowParses(rows[r[k]], latId, lngId, parseText)
    ensures forall k, l :: 0 <= k < l < |r| ==> r[k] < r[l]
    ensures forall i :: 0 <= i < |rows| && RowParses(rows[i], latId, lngId, parseText) ==> i in r
    decreases |rows|
  {
    if rows == [] then []
    else
      var before := ParsedRows(rows[..|rows| - 1], latId, lngId, parseText);
      if RowParses(rows[|rows| - 1], latId, lngId, parseText) then before + [|rows| - 1] else before
  }

  /**
   * The items are, in order, those of exactly the rows whose coordinates
   * parse: the k-th item is the projection of the k-th such row.
   */
  lemma {:induction false} TransformRowsFollowsParsedRows(columns: seq<Column>, rows: seq<Row>, latId: string, lngId: string,
                                                          parseText: string -> Option<real>)
    ensures |TransformRows(columns, rows, latId, lngId, parseText)| == |ParsedRows(rows, latId, lngId, parseText)|
    ensures forall k :: 0 <= k < |ParsedRows(rows, latId, lngId, parseText)| ==>
      ProjectRow(columns, rows[ParsedRows(rows, latId, lngId, parseText)[k]], latId, lngId, parseText)
        == Some(TransformRows(columns, rows, latId, lngId, parseText)[k])
    decreases |rows|
  {
    if rows != [] {
      var n := |rows| - 1;
      var front, last := rows[..n], rows[n];
      TransformRowsFollowsParsedRows(columns, front, latId, lngId, parseText);
      var p, t := ParsedRows(front, latId, lngId, parseText), TransformRows(columns, front, latId, lngId, parseText);
      var P, T := ParsedRows(rows, latId, lngId, parseText), TransformRows(columns, rows, latId, lngId, parseText);
      var projected := ProjectRow(columns, last, latId, lngId, parseText);
      if RowParses(last, latId, lngId, parseText) {
        assert P == p + [n];
        assert T == t + [projected.value];
      } else {
        assert P == p;
        assert T == t;
      }
      forall k | 0 <= k < |P| ensures ProjectRow(columns, rows[P[k]], latId, lngId, parseText) == Some(T[k]) {
        if k < |p| {
          assert P[k] == p[k] && T[k] == t[k];
          assert rows[p[k]] == front[p[k]];
        }
      }
    }
  }

  /** Some copied column is named `name`. */
  predicate CopiedName(columns: seq<Column>, latId: string, lngId: string, name: string) {
    exists j :: 0 <= j < |columns| && Copied(columns[j], latId, lngId) && columns[j].name == name
  }

  lemma {:induction false} CopyColumnsKeepsOthers(item: Record, columns: seq<Column>, row: Row, latId: string, lngId: string, name: string)
    requires !CopiedName(columns, latId, lngId, name)
    ensures Get(CopyColumns(item, columns, row, latId, lngId), name) == Get(item, name)
    decreases |columns|
  {
    if columns != [] {
      var front := columns[..|columns| - 1];
      assert !CopiedName(front, latId, lngId, name) by {
        forall j | 0 <= j < |front| ensures !(Copied(front[j], latId, lngId) && front[j].name == name) {
          assert front[j] == columns[j];
        }
      }
      CopyColumnsKeepsOthers(item, front, row, latId, lngId, name);
    }
  }

  /** One step of the inner `columns.forEach`: the last column is assigned after all the others. */
  lemma CopyColumnsLast(item: Record, columns: seq<Column>, row: Row, latId: string, lngId: string)
    requires columns != []
    ensures var c := columns[|columns| - 1];
      var before := CopyColumns(item, columns[..|columns| - 1], row, latId, lngId);
      CopyColumns(item, columns, row, latId, lngId)
        == if Copied(c, latId, lngId) then Set(before, c.name, Cell(row, c.id)) else before
  {
  }

  lemma {:induction false} CopyColumnsLastWins(item: Record, columns: seq<Column>, row: Row, latId: string, lngId: string, i: nat)
    requires i < |columns| && Copied(columns[i], latId, lngId)
    requires forall j :: i < j < |columns| && Copied(columns[j], latId, lngId) ==> columns[j].name != columns[i].name
    ensures Get(CopyColumns(item, columns, row, latId, lngId), columns[i].name) == Cell(row, columns[i].id)
    decreases |columns|
  {
    var n := |columns| - 1;
    var front, c, name := columns[..n], columns[n], columns[i].name;
    var before := CopyColumns(item, front, row, latId, lngId);
    var after := CopyColumns(item, columns, row, latId, lngId);
    CopyColumnsLast(item, columns, row, latId, lngId);
    if i < n {
      assert front[i] == columns[i];
      forall j | i < j < |front| && Copied(front[j], latId, lngId) ensures front[j].name != name {
        assert front[j] == columns[j];
      }
      CopyColumnsLastWins(item, front, row, latId, lngId, i);
      assert Get(before, name) == Cell(row, columns[i].id);
      if Copied(c, latId, lngId) {
        assert c.name != name;
        assert after == Set(before, c.name, Cell(row, c.id));
      } else {
        assert after == before;
      }
      assert Get(after, name) == Get(before, name);
    } else {
      assert after == Set(before, name, Cell(row, c.id));
      assert Get(after, name) == Cell(row, c.id);
    }
  }

  lemma {:induction false} CopyColumnsKeys(item: Record, columns: seq<Column>, row: Row, latId: string, lngId: string)
    ensures |item| <= |CopyColumns(item, columns, row, latId, lngId)|
    ensures forall k :: 0 <= k < |item| ==> CopyColumns(item, columns, row, latId, lngId)[k].0 == item[k].0
    ensures forall name :: name in Keys(CopyColumns(item, columns, row, latId, lngId)) <==>
      name in Keys(item) || CopiedName(columns, latId, lngId, name)
    decreases |columns|
  {
    if columns != [] {
      var front := columns[..|columns| - 1];
      var c := columns[|columns| - 1];
      CopyColumnsKeys(item, front, row, latId, lngId);
      forall name ensures CopiedName(columns, latId, lngId, name) <==>
        CopiedName(front, latId, lngId, name) || (Copied(c, latId, lngId) && c.name == name)
      {
        if CopiedName(columns, latId, lngId, name) {
          var j :| 0 <= j < |columns| && Copied(columns[j], latId, lngId) && columns[j].name == name;
          if j < |front| { assert front[j] == columns[j]; }
        }
        if CopiedName(front, latId, lngId, name) {
          var j :| 0 <= j < |front| && Copied(front[j], latId, lngId) && front[j].name == name;
          assert columns[j] == front[j];
        }
      }
    }
  }

  /**
   * An item starts with the keys "lat" and "lng"; each holds its row's parsed
   * coordinate unless a copied column of that very name overwrote it.
   */
  lemma ItemCoordinates(columns: seq<Column>, row: Row, latId: string, lngId: string, parseText: string -> Option<real>)
    requires RowParses(row, latId, lngId, parseText)
    ensures var item := ProjectRow(columns, row, latId, lngId, parseText).value;
      |item| >= 2 && item[0].0 == "lat" && item[1].0 == "lng"
    ensures !CopiedName(columns, latId, lngId, "lat") ==>
      Get(ProjectRow(columns, row, latId, lngId, parseText).value, "lat") == Num(ParseFloat(Cell(row, latId), parseText).value)
    ensures !CopiedName(columns, latId, lngId, "lng") ==>
      Get(ProjectRow(columns, row, latId, lngId, parseText).value, "lng") == Num(ParseFloat(Cell(row, lngId), parseText).value)
  {
    var lat, lng := ParseFloat(Cell(row, latId), parseText).value, ParseFloat(Cell(row, lngId), parseText).value;
    var base: Record := Coordinates(lat, lng);
    var copied := CopyColumns(base, columns, row, latId, lngId);
    var item := MakeItem(columns, row, latId, lngId, lat, lng);
    assert ProjectRow(columns, row, latId, lngId, parseText) == Some(item);
    CopyColumnsKeys(base, columns, row, latId, lngId);
    assert copied[0].0 == "lat" && copied[1].0 == "lng";
    var valueColumn := ValueColumn(columns, latId, lngId);
    if valueColumn.Some? {
      assert item == Set(copied, "value", Cell(row, columns[valueColumn.value].id));
      assert Keys(item)[0] == Keys(copied)[0] && Keys(item)[1] == Keys(copied)[1];
    } else {
      assert item == copied;
    }
    if !CopiedName(columns, latId, lngId, "lat") {
      CopyColumnsKeepsOthers(base, columns, row, latId, lngId, "lat");
    }
    if !CopiedName(columns, latId, lngId, "lng") {
      CopyColumnsKeepsOthers(base, columns, row, latId, lngId, "lng");
    }
  }

  /**
   * A copied column's cell is found, raw, under the column's name, provided no
   * later copied column has the same name (the later one overwrites) and the
   * value column does not claim the name "value".
   */
  lemma ItemAttribute(columns: seq<Column>, row: Row, latId: string, lngId: string, parseText: string -> Option<real>, i: nat)
    requires RowParses(row, latId, lngId, parseText)
    requires i < |columns| && Copied(columns[i], latId, lngId)
    requires forall j :: i < j < |columns| && Copied(columns[j], latId, lngId) ==> columns[j].name != columns[i].name
    requires columns[i].name == "value" ==> ValueColumn(columns, latId, lngId).None?
    ensures Get(ProjectRow(columns, row, latId, lngId, parseText).value, columns[i].name) == Cell(row, columns[i].id)
  {
    var lat, lng := ParseFloat(Cell(row, latId), parseText).value, ParseFloat(Cell(row, lngId), parseText).value;
    CopyColumnsLastWins(Coordinates(lat, lng), columns, row, latId, lngId, i);
  }

  /**
   * `value` holds the raw cell of the value column, set after the attributes;
   * without a value column an item has a "value" key only if a copied column
   * is named so.
   */
  lemma ItemValue(columns: seq<Column>, row: Row, latId: string, lngId: string, parseText: string -> Option<real>)
    requires RowParses(row, latId, lngId, parseText)
    ensures ValueColumn(columns, latId, lngId).Some? ==>
      Get(ProjectRow(columns, row, latId, lngId, parseText).value, "value")
        == Cell(row, columns[ValueColumn(columns, latId, lngId).value].id)
    ensures ValueColumn(columns, latId, lngId).None? && !CopiedName(columns, latId, lngId, "value") ==>
      "value" !in Keys(ProjectRow(columns, row, latId, lngId, parseText).value)
  {
    var lat, lng := ParseFloat(Cell(row, latId), parseText).value, ParseFloat(Cell(row, lngId), parseText).value;
    CopyColumnsKeys(Coordinates(lat, lng), columns, row, latId, lngId);
  }

  /** The keys of an item: "lat", "lng", the copied columns' names, and "value" when there is a value column. */
  lemma ItemKeys(columns: seq<Column>, row: Row, latId: string, lngId: string, parseText: string -> Option<real>)
    requires RowParses(row, latId, lngId, parseText)
    ensures forall name :: name in Keys(ProjectRow(columns, row, latId, lngId, parseText).value) <==>
      name == "lat" || name == "lng" || CopiedName(columns, latId, lngId, name)
      || (name == "value" && ValueColumn(columns, latId, lngId).Some?)
  {
    var lat, lng := ParseFloat(Cell(row, latId), parseText).value, ParseFloat(Cell(row, lngId), parseText).value;
    var base: Record := Coordinates(lat, lng);
    assert Keys(base) == ["lat", "lng"];
    CopyColumnsKeys(base, columns, row, latId, lngId);
  }

  /** The heuristic at work: "Population" contains "lat", so it is taken as the latitude column when it comes first. */
  lemma PopulationIsLatitude()
    ensures LatColumn([Column("p", "Population", "measure"), Column("y", "Latitude", "attribute")]) == Some(0)
  {
    var n := ToLower("Population");
    assert n[4..7] == "lat";
    assert OccursAt(n, "lat", 4);
  }

  /** One column can be both: "latlon" is the latitude and the longitude column. */
  lemma LatLonIsBoth()
    ensures LatColumn([Column("c", "latlon", "attribute")]) == Some(0)
    ensures LngColumn([Column("c", "latlon", "attribute")]) == Some(0)
  {
    var n := ToLower("latlon");
    assert n[..3] == "lat";
    assert OccursAt(n, "lat", 0);
    assert n[3..6] == "lon";
    assert OccursAt(n, "lon", 3);
  }
}
