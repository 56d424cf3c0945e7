/**
 * `SQLiteGeoProvider`: which districts contain a point, decided in process
 * from each district's stored GeoJSON boundary, and storing a boundary.
 *
 * JSON text and polygon containment are parameters: `loads` parses JSON
 * text (`None` when it raises), `dumps` serialises a value (`None` when it
 * raises) and `contains(geometry, point)` stands for
 * `shape(geometry).contains(point)` (`None` when either raises).
 */
module GeoSqlite {
  import opened Wrappers
  import opened PyJson
  import opened Models
  import opened SqlStore
  import opened Database

  /** A shapely point: `x` is the longitude and `y` the latitude. */
  datatype Point = Point(x: real, y: real)

  type Loads = string -> Option<Value>
  type Dumps = Value -> Option<string>
  type Contains = (Value, Point) -> Option<bool>

  /** `Point(lon, lat)`: the query point is built longitude first. */
  function QueryPoint(lat: real, lon: real): (p: Point)
    ensures p.x == lon && p.y == lat
  {
    Point(lon, lat)
  }

  /** What checking one district yields: a match, no match, or an exception that skips it. */
  datatype Outcome = Match | NoMatch | Raised

  /** A feature that neither matches nor raises, so the scan moves on. */
  predicate FeaturePasses(f: Value, pt: Point, contains: Contains) {
    f.Obj? && (Truthy(Get(f.fields, "geometry", Null)) ==> contains(f.fields["geometry"], pt) == Some(false))
  }

  /** A feature whose geometry contains the point. */
  predicate FeatureHits(f: Value, pt: Point, contains: Contains) {
    f.Obj? && Truthy(Get(f.fields, "geometry", Null)) && contains(f.fields["geometry"], pt) == Some(true)
  }

  /** The loop over a FeatureCollection's features: the first hit breaks it, the first exception ends it. */
  function CheckFeatures(features: seq<Value>, pt: Point, contains: Contains): (o: Outcome)
    decreases |features|
  {
    if |features| == 0 then NoMatch
    else
      var f := features[0];
      if !f.Obj? then Raised
      else if Truthy(Get(f.fields, "geometry", Null)) then
        match contains(f.fields["geometry"], pt)
        case None => Raised
        case Some(true) => Match
        case Some(false) => CheckFeatures(features[1..], pt, contains)
      else CheckFeatures(features[1..], pt, contains)
  }

  /** Feature `i` hits and every feature before it passes. */
  predicate HitAfterPasses(features: seq<Value>, i: int, pt: Point, contains: Contains) {
    && 0 <= i < |features|
    && FeatureHits(features[i], pt, contains)
    && forall j :: 0 <= j < i ==> FeaturePasses(features[j], pt, contains)
  }

  /**
   * A FeatureCollection matches iff some feature hits and every feature
   * before it passes: a feature that raises stops the later ones from
   * being looked at.
   */
  lemma {:induction false} CheckFeaturesMatches(features: seq<Value>, pt: Point, contains: Contains)
    ensures CheckFeatures(features, pt, contains) == Match <==> exists i :: HitAfterPasses(features, i, pt, contains)
    decreases |features|
  {
    if |features| > 0 {
      var tail := features[1..];
      CheckFeaturesMatches(tail, pt, contains);
      if CheckFeatures(features, pt, contains) == Match && !FeatureHits(features[0], pt, contains) {
        var i :| HitAfterPasses(tail, i, pt, contains);
        forall j | 1 <= j < i + 1 ensures FeaturePasses(features[j], pt, contains) {
          assert features[j] == tail[j - 1];
        }
        assert HitAfterPasses(features, i + 1, pt, contains);
      }
      if FeatureHits(features[0], pt, contains) {
        assert HitAfterPasses(features, 0, pt, contains);
        assert CheckFeatures(features, pt, contains) == Match;
      }
      if exists i :: HitAfterPasses(features, i, pt, contains) {
        var i :| HitAfterPasses(features, i, pt, contains);
        if i > 0 {
          assert FeaturePasses(features[0], pt, contains);
          assert CheckFeatures(features, pt, contains) == CheckFeatures(tail, pt, contains);
          forall j | 0 <= j < i - 1 ensures FeaturePasses(tail[j], pt, contains) {
            assert tail[j] == features[j + 1];
          }
          assert HitAfterPasses(tail, i - 1, pt, contains);
        }
      }
    }
  }

  /**
   * When no feature raises, a FeatureCollection matches iff some feature
   * with a geometry contains the point; features without one are skipped.
   */
  lemma {:induction false} NoExceptionMeansAnyHit(features: seq<Value>, pt: Point, contains: Contains)
    requires forall i :: 0 <= i < |features| ==> features[i].Obj?
    requires forall i :: 0 <= i < |features| && Truthy(Get(features[i].fields, "geometry", Null)) ==>
      contains(features[i].fields["geometry"], pt).Some?
    ensures CheckFeatures(features, pt, contains) == Match <==>
      exists i :: 0 <= i < |features| && FeatureHits(features[i], pt, contains)
    decreases |features|
  {
    if |features| > 0 {
      var tail := features[1..];
      assert forall i :: 0 <= i < |tail| ==> tail[i] == features[i + 1];
      NoExceptionMeansAnyHit(tail, pt, contains);
      if !FeatureHits(features[0], pt, contains) {
        assert CheckFeatures(features, pt, contains) == CheckFeatures(tail, pt, contains);
        if exists i :: 0 <= i < |features| && FeatureHits(features[i], pt, contains) {
          var i :| 0 <= i < |features| && FeatureHits(features[i], pt, contains);
          assert FeatureHits(tail[i - 1], pt, contains);
        }
      }
    }
  }

  /** Iterating `boundary_data.get("features", [])`: a list is scanned, an empty str or dict yields nothing, anything else raises. */
  function CheckFeatureContainer(features: Value, pt: Point, contains: Contains): (o: Outcome)
    ensures features.Arr? ==> o == CheckFeatures(features.items, pt, contains)
    ensures !features.Arr? ==> o != Match
  {
    match features
    case Arr(items) => CheckFeatures(items, pt, contains)
    case Str(s) => if |s| == 0 then NoMatch else Raised
    case Obj(m) => if |m| == 0 then NoMatch else Raised
    case _ => Raised
  }

  /** The dispatch on parsed boundary data: FeatureCollection, Feature, or a bare geometry. */
  function CheckData(data: Value, pt: Point, contains: Contains): (o: Outcome)
    ensures !data.Obj? ==> o == Raised
    ensures data.Obj? && Get(data.fields, "type", Null) == Str("Feature") ==>
      (o == Match <==> Truthy(Get(data.fields, "geometry", Null)) && contains(data.fields["geometry"], pt) == Some(true))
    ensures data.Obj? && Get(data.fields, "type", Null) == Str("Feature") && !Truthy(Get(data.fields, "geometry", Null)) ==> o == NoMatch
    ensures data.Obj? && Get(data.fields, "type", Null) != Str("Feature") && Get(data.fields, "type", Null) != Str("FeatureCollection") ==>
      (o == Match <==> contains(data, pt) == Some(true))
  {
    if !data.Obj? then Raised
    else
      var kind := Get(data.fields, "type", Null);
      if kind == Str("FeatureCollection") then
        CheckFeatureContainer(Get(data.fields, "features", Arr([])), pt, contains)
      else if kind == Str("Feature") then
        if Truthy(Get(data.fields, "geometry", Null)) then
          match contains(data.fields["geometry"], pt)
          case None => Raised
          case Some(true) => Match
          case Some(false) => NoMatch
        else NoMatch
      else
        match contains(data, pt)
        case None => Raised
        case Some(true) => Match
        case Some(false) => NoMatch
  }

  /** One district's boundary: JSON text is parsed first, and a parse failure raises. */
  function CheckBoundary(boundary: Value, pt: Point, loads: Loads, contains: Contains): (o: Outcome)
    ensures boundary.Str? && loads(boundary.s).None? ==> o == Raised
    ensures boundary.Str? && loads(boundary.s).Some? ==> o == CheckData(loads(boundary.s).value, pt, contains)
    ensures !boundary.Str? ==> o == CheckData(boundary, pt, contains)
  {
    if boundary.Str? then
      match loads(boundary.s)
      case None => Raised
      case Some(data) => CheckData(data, pt, contains)
    else CheckData(boundary, pt, contains)
  }

  /** A district the query returns and whose check matches. */
  predicate DistrictMatches(d: Row, pt: Point, loads: Loads, contains: Contains) {
    Col(d, "boundary") != Null && CheckBoundary(Col(d, "boundary"), pt, loads, contains) == Match
  }

  /** `districts_containing_point(lat, lon)` over the stored districts, in query order. */
  function DistrictsContainingPoint(districts: seq<Row>, lat: real, lon: real, loads: Loads, contains: Contains): (r: seq<Value>)
    ensures forall id :: id in r <==>
      exists i :: 0 <= i < |districts| && IdOf(districts[i]) == id && DistrictMatches(districts[i], QueryPoint(lat, lon), loads, contains)
    ensures |r| <= |districts|
    decreases |districts|
  {
    if |districts| == 0 then []
    else
      var n := |districts| - 1;
      var rest := DistrictsContainingPoint(districts[..n], lat, lon, loads, contains);
      var d := districts[n];
      assert forall i :: 0 <= i < n ==> districts[..n][i] == districts[i];
      if DistrictMatches(d, QueryPoint(lat, lon), loads, contains) then rest + [IdOf(d)] else rest
  }

  /**
   * Districts are checked independently and in order: the result over two
   * runs of districts is the result over the first followed by the result
   * over the second.
   */
  lemma {:induction false} ContainingDistributesOverConcat(a: seq<Row>, b: seq<Row>, lat: real, lon: real, loads: Loads, contains: Contains)
    ensures DistrictsContainingPoint(a + b, lat, lon, loads, contains)
      == DistrictsContainingPoint(a, lat, lon, loads, contains) + DistrictsContainingPoint(b, lat, lon, loads, contains)
    decreases |b|
  {
    if |b| == 0 {
      assert a + b == a;
    } else {
      var n := |b| - 1;
      var ab := a + b;
      assert ab[..|ab| - 1] == a + b[..n];
      assert ab[|ab| - 1] == b[n];
      ContainingSnoc(ab, lat, lon, loads, contains);
      ContainingSnoc(b, lat, lon, loads, contains);
      ContainingDistributesOverConcat(a, b[..n], lat, lon, loads, contains);
    }
  }

  /** The last district adds its id at the end exactly when it matches. */
  lemma ContainingSnoc(s: seq<Row>, lat: real, lon: real, loads: Loads, contains: Contains)
    requires |s| > 0
    ensures DistrictsContainingPoint(s, lat, lon, loads, contains)
      == DistrictsContainingPoint(s[..|s| - 1], lat, lon, loads, contains)
         + (if DistrictMatches(s[|s| - 1], QueryPoint(lat, lon), loads, contains) then [IdOf(s[|s| - 1])] else [])
  {
  }

  predicate NoDuplicates(s: seq<Value>) {
    forall i, j :: 0 <= i < j < |s| ==> s[i] != s[j]
  }

  /** With distinct district ids, no id is reported twice. */
  lemma {:induction false} ContainingHasNoDuplicates(districts: seq<Row>, lat: real, lon: real, loads: Loads, contains: Contains)
    requires forall i, j :: 0 <= i < j < |districts| ==> IdOf(districts[i]) != IdOf(districts[j])
    ensures NoDuplicates(DistrictsContainingPoint(districts, lat, lon, loads, contains))
    decreases |districts|
  {
    if |districts| > 0 {
      var n := |districts| - 1;
      var prefix := districts[..n];
      assert forall i :: 0 <= i < n ==> prefix[i] == districts[i];
      ContainingHasNoDuplicates(prefix, lat, lon, loads, contains);
      var rest := DistrictsContainingPoint(prefix, lat, lon, loads, contains);
      var id := IdOf(districts[n]);
      if DistrictMatches(districts[n], QueryPoint(lat, lon), loads, contains) {
        assert id !in rest;
        var r := rest + [id];
        assert DistrictsContainingPoint(districts, lat, lon, loads, contains) == r;
        assert NoDuplicates(rest);
        forall i, j | 0 <= i < j < |r| ensures r[i] != r[j] {
          if j == |rest| {
            assert r[i] == rest[i];
            assert r[i] in rest;
          } else {
            assert r[i] == rest[i] && r[j] == rest[j];
          }
        }
      } else {
        assert DistrictsContainingPoint(districts, lat, lon, loads, contains) == rest;
      }
    }
  }

  /** `json.loads` inverts `json.dumps` wherever `dumps` succeeds. */
  ghost predicate RoundTrips(dumps: Dumps, loads: Loads) {
    forall v :: dumps(v).Some? ==> loads(dumps(v).value) == Some(v)
  }

  /** The stored form of a boundary: a string as is, anything else as JSON text. */
  function BoundaryText(geojson: Value, dumps: Dumps): (r: Option<string>)
    ensures geojson.Str? ==> r == Some(geojson.s)
  {
    if geojson.Str? then Some(geojson.s) else dumps(geojson)
  }

  /** `store_district_boundary`: `False` for a missing district, else the boundary is stored as JSON text. */
  function StoreDistrictBoundary(db: Db, districtId: Value, geojson: Value, dumps: Dumps): (r: Result<(Db, bool), Error>)
    ensures !HasId(DistrictsTable(db), districtId) ==> r == Ok((db, false))
    ensures r.Ok? && r.value.1 ==> BoundaryText(geojson, dumps).Some?
    ensures r.Ok? && r.value.1 && BoundaryText(geojson, dumps).Some? ==>
      exists i :: 0 <= i < |db.districts| && IdOf(db.districts[i]) == districtId
        && r.value.0 == db.(districts := db.districts[i := db.districts[i]["boundary" := Str(BoundaryText(geojson, dumps).value)]])
    ensures HasId(DistrictsTable(db), districtId) && BoundaryText(geojson, dumps).Some? ==> r.Ok? && r.value.1
  {
    match IndexOfId(db.districts, districtId)
    case None => Ok((db, false))
    case Some(i) =>
      match BoundaryText(geojson, dumps)
      case None => Err(TypeError("not JSON serializable"))
      case Some(text) => Ok((db.(districts := db.districts[i := db.districts[i]["boundary" := Str(text)]]), true))
  }

  /** A stored boundary is checked exactly as the value that was stored. */
  lemma StoredBoundaryChecksAsGiven(geojson: Value, pt: Point, dumps: Dumps, loads: Loads, contains: Contains)
    requires RoundTrips(dumps, loads)
    requires BoundaryText(geojson, dumps).Some?
    ensures CheckBoundary(Str(BoundaryText(geojson, dumps).value), pt, loads, contains) == CheckBoundary(geojson, pt, loads, contains)
  {
    if !geojson.Str? {
      assert loads(dumps(geojson).value) == Some(geojson);
    }
  }
}
