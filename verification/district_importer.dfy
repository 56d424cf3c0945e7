/**
 * `DistrictImporter`: districts from a table of codes or from the features
 * of a GeoJSON FeatureCollection, each new or matched district getting its
 * boundary through the geo provider.
 *
 * The created/updated/error counters are ints handed to the helpers by
 * value, so the counts the importer returns are always 0; only the
 * `districts` list (and hence `districts_total`) reflects the work done.
 */
module DistrictImporter {
  import opened Wrappers
  import opened PyJson
  import opened Models
  import opened SqlStore
  import opened Database
  import opened GeoSqlite
  import opened GeoProvider
  import DistrictService
  import opened JurisdictionImporter

  datatype DistrictImportResult = DistrictImportResult(created: nat, updated: nat, errors: nat, total: nat, districts: seq<Option<Row>>)

  /** Where the loops have got to: the database and the `districts` list. */
  datatype Progress = Progress(db: Db, districts: seq<Option<Row>>)

  // ---------------------------------------------------------------------
  // Lookups built once before a loop

  /** `{d.code: d for d in rows}[code]`: the last row with that code wins. */
  function LastWith(rows: seq<Row>, column: string, v: Value): (r: Option<Row>)
    ensures r.Some? ==> r.value in rows && Col(r.value, column) == v
    ensures r.None? <==> forall x :: x in rows ==> Col(x, column) != v
    decreases |rows|
  {
    if |rows| == 0 then None
    else
      var n := |rows| - 1;
      assert forall x :: x in rows <==> x in rows[..n] || x == rows[n];
      if Col(rows[n], column) == v then Some(rows[n]) else LastWith(rows[..n], column, v)
  }

  /** The districts `list_districts(jurisdiction_id)` returns. */
  function ExistingDistricts(db: Db, jurisdictionId: Value): seq<Row> {
    DistrictService.ListDistricts(db, jurisdictionId, 0, DefaultLimit)
  }

  // ---------------------------------------------------------------------
  // str.format with a {code} field

  /**
   * `fmt.format(code=code)` for the fields this model covers: each
   * `{code}` becomes the code and `{{`, `}}` stand for one brace. Any other
   * replacement field is reported as an error here, including the
   * conversions and format specs (`{code!r}`, `{code:>3}`) that `str.format`
   * accepts.
   */
  function FormatCode(fmt: string, code: string): Result<string, Error>
    decreases |fmt|
  {
    if |fmt| == 0 then Ok("")
    else if fmt[0] == '{' then
      if |fmt| >= 6 && fmt[..6] == "{code}" then
        var rest :- FormatCode(fmt[6..], code);
        Ok(code + rest)
      else if |fmt| >= 2 && fmt[1] == '{' then
        var rest :- FormatCode(fmt[2..], code);
        Ok("{" + rest)
      else Err(ValueError("format field"))
    else if fmt[0] == '}' then
      if |fmt| >= 2 && fmt[1] == '}' then
        var rest :- FormatCode(fmt[2..], code);
        Ok("}" + rest)
      else Err(ValueError("single '}'"))
    else
      var rest :- FormatCode(fmt[1..], code);
      Ok([fmt[0]] + rest)
  }

  /** A format that starts with a character other than a brace keeps that character in front of the rest's result. */
  lemma FormatPlainHead(s: string, code: string)
    requires |s| > 0 && s[0] != '{' && s[0] != '}'
    ensures FormatCode(s[1..], code).Ok? ==> FormatCode(s, code) == Ok([s[0]] + FormatCode(s[1..], code).value)
    ensures FormatCode(s[1..], code).Err? ==> FormatCode(s, code) == FormatCode(s[1..], code)
  {
  }

  /** Text without braces passes through the format unchanged. */
  lemma {:induction false} FormatLiteralPrefix(lit: string, rest: string, code: string)
    requires '{' !in lit && '}' !in lit
    ensures FormatCode(rest, code).Ok? ==> FormatCode(lit + rest, code) == Ok(lit + FormatCode(rest, code).value)
    ensures FormatCode(rest, code).Err? ==> FormatCode(lit + rest, code) == FormatCode(rest, code)
    decreases |lit|
  {
    if |lit| == 0 {
      assert lit + rest == rest;
      if FormatCode(rest, code).Ok? {
        assert lit + FormatCode(rest, code).value == FormatCode(rest, code).value;
      }
    } else {
      assert lit[0] in lit;
      assert forall c :: c in lit[1..] ==> c in lit;
      FormatLiteralPrefix(lit[1..], rest, code);
      var s := lit + rest;
      assert s[0] == lit[0] && s[1..] == lit[1..] + rest;
      FormatPlainHead(s, code);
      if FormatCode(rest, code).Ok? {
        var x := FormatCode(rest, code).value;
        assert lit + x == [lit[0]] + (lit[1..] + x);
      }
    }
  }

  /** A format without braces is returned as it is. */
  lemma FormatWithoutBraces(fmt: string, code: string)
    requires '{' !in fmt && '}' !in fmt
    ensures FormatCode(fmt, code) == Ok(fmt)
  {
    FormatLiteralPrefix(fmt, "", code);
    assert fmt + "" == fmt;
  }

  /** The default format puts the code after "District ". */
  lemma DefaultNameFormat(code: string)
    ensures FormatCode("District {code}", code) == Ok("District " + code)
  {
    var lit := "District ";
    var field := "{code}";
    assert "District {code}" == lit + field;
    assert FormatCode(field, code) == Ok(code) by {
      assert field[0] == '{' && |field| == 6 && field[..6] == "{code}";
      assert field[6..] == [];
      assert FormatCode(field[6..], code) == Ok([]);
      assert code + [] == code;
    }
    assert '{' !in lit && '}' !in lit;
    FormatLiteralPrefix(lit, field, code);
  }

  // ---------------------------------------------------------------------
  // Tabular data

  /** The text `str(item.get(code_field))` makes of a code value: empty only for the empty string. */
  lemma CodeTextEmptyOnlyForEmptyString(v: Value)
    ensures Show(v) == "" <==> v == Str("")
  {
  }

  /** `DistrictBase(**district_data)` for one table row. */
  function TabularData(item: map<string, Value>, name: string, code: string, jurisdictionId: Value): (r: Row)
    ensures Col(r, "name") == Str(name) && Col(r, "code") == Str(code) && Col(r, "jurisdiction_id") == jurisdictionId
    ensures "description" in r <==> "description" in item
  {
    var base := map["name" := Str(name), "code" := Str(code), "jurisdiction_id" := jurisdictionId];
    if "description" in item then base["description" := item["description"]] else base
  }

  /** One row of the table. An exception is caught, except when the row is not a dict: the handler's own `item.get` then raises. */
  function TabularItem(p: Progress, existing: seq<Row>, jurisdictionId: Value, fmt: string, codeField: string, item: Value, freshId: Value)
    : (r: Result<Progress, Error>)
    ensures !item.Obj? ==> r.Err?
    ensures item.Obj? ==> r.Ok?
    ensures item.Obj? && Get(item.fields, codeField, Null) == Str("") ==> r == Ok(p)
    ensures r.Ok? && |r.value.districts| > |p.districts| ==>
      var code := Show(Get(item.fields, codeField, Null));
      && FormatCode(fmt, code).Ok?
      && r.value.districts == p.districts + [r.value.districts[|p.districts|]]
      && (LastWith(existing, "code", Str(code)).None? ==>
            && r.value.districts[|p.districts|].Some?
            && r.value.db.districts == p.db.districts + [r.value.districts[|p.districts|].value])
  {
    if !item.Obj? then Err(AttributeError("get"))
    else
      var code := Show(Get(item.fields, codeField, Null));
      if code == "" then Ok(p)
      else match FormatCode(fmt, code)
        case Err(_) => Ok(p)
        case Ok(name) =>
          var data := TabularData(item.fields, name, code, jurisdictionId);
          match LastWith(existing, "code", Str(code))
          case Some(d) =>
            (match DistrictService.UpdateDistrict(p.db, IdOf(d), data)
             case Err(_) => Ok(p)
             case Ok((db', row)) => Ok(Progress(db', p.districts + [row])))
          case None =>
            (match DistrictService.CreateDistrict(p.db, data, freshId)
             case Err(_) => Ok(p)
             case Ok((db', row)) => Ok(Progress(db', p.districts + [Some(row)])))
  }

  /** The tabular loop; row `k` may take `freshId(2 * k)` as its new id. */
  function TabularItems(p: Progress, existing: seq<Row>, jurisdictionId: Value, fmt: string, codeField: string, items: seq<Value>, freshId: nat -> Value)
    : (r: Result<Progress, Error>)
    ensures r.Ok? ==> |p.districts| <= |r.value.districts| <= |p.districts| + |items|
    ensures (forall k :: 0 <= k < |items| ==> items[k].Obj?) ==> r.Ok?
    decreases |items|
  {
    if |items| == 0 then Ok(p)
    else
      var n := |items| - 1;
      var p1 :- TabularItems(p, existing, jurisdictionId, fmt, codeField, items[..n], freshId);
      TabularItem(p1, existing, jurisdictionId, fmt, codeField, items[n], freshId(2 * n))
  }

  /** `_import_from_tabular_data`: a truthy value that is not a list is iterated, and its first element is not a dict. */
  function ImportTabular(p: Progress, jurisdictionId: Value, fmt: string, codeField: string, data: Value, freshId: nat -> Value)
    : (r: Result<Progress, Error>)
    ensures data.Arr? ==> r == TabularItems(p, ExistingDistricts(p.db, jurisdictionId), jurisdictionId, fmt, codeField, data.items, freshId)
    ensures !data.Arr? ==> r.Err?
  {
    match data
    case Arr(items) => TabularItems(p, ExistingDistricts(p.db, jurisdictionId), jurisdictionId, fmt, codeField, items, freshId)
    case Str(_) => Err(AttributeError("get"))
    case Obj(_) => Err(AttributeError("get"))
    case _ => Err(TypeError("object is not iterable"))
  }

  // ---------------------------------------------------------------------
  // GeoJSON data

  /** The GeoJSON loop adds the names it has processed. */
  datatype GeoProgress = GeoProgress(p: Progress, processed: seq<string>)

  /** The district a feature's name or code matches among those existing before the loop. */
  function MatchExisting(existing: seq<Row>, name: string, code: string): (r: Option<Row>)
    ensures r.Some? ==> r.value in existing
    ensures LastWith(existing, "name", Str(name)).Some? ==> r == LastWith(existing, "name", Str(name))
    ensures r.None? <==> LastWith(existing, "name", Str(name)).None? && LastWith(existing, "code", Str(code)).None?
  {
    match LastWith(existing, "name", Str(name))
    case Some(d) => Some(d)
    case None => LastWith(existing, "code", Str(code))
  }

  /** The number the feature carries in the configured property, or the exception reading it raises. */
  function FeatureNumber(feature: Value, property: string): Option<Value> {
    match GetOn(feature, "properties", Obj(map[]))
    case None => None
    case Some(properties) => GetOn(properties, property, Null)
  }

  /** One feature. Every exception is caught, so a feature never ends the loop. */
  function GeoFeature(g: GeoProgress, existing: seq<Row>, jurisdictionId: Value, property: string, prefix: string,
                      feature: Value, geo: Provider, freshId: Value)
    : (r: GeoProgress)
    ensures FeatureNumber(feature, property).None? || !Truthy(FeatureNumber(feature, property).value) ==> r == g
    ensures FeatureNumber(feature, property).Some? && prefix + Show(FeatureNumber(feature, property).value) in g.processed ==> r == g
    ensures r != g ==> FeatureNumber(feature, property).Some? && Truthy(FeatureNumber(feature, property).value)
    ensures r != g ==> r.processed == g.processed + [prefix + Show(FeatureNumber(feature, property).value)]
    ensures r != g ==> prefix + Show(FeatureNumber(feature, property).value) !in g.processed
    ensures |r.p.db.districts| <= |g.p.db.districts| + 1
    ensures |g.p.districts| <= |r.p.districts| <= |g.p.districts| + 1
  {
    match FeatureNumber(feature, property)
    case None => g
    case Some(number) =>
      if !Truthy(number) then g
      else
        var name := prefix + Show(number);
        var code := Show(number);
        if name in g.processed then g
        else
          GeoProgress(StoreFeature(g.p, existing, jurisdictionId, name, code, feature, geo, freshId), g.processed + [name])
  }

  /** The district name a feature leads to: the prefix and its number, when the number can be read and is truthy. */
  function FeatureName(feature: Value, property: string, prefix: string): (r: Option<string>)
    ensures r.Some? <==> FeatureNumber(feature, property).Some? && Truthy(FeatureNumber(feature, property).value)
    ensures r.Some? ==> r.value == prefix + Show(FeatureNumber(feature, property).value)
  {
    match FeatureNumber(feature, property)
    case None => None
    case Some(number) => if Truthy(number) then Some(prefix + Show(number)) else None
  }

  /**
   * The work on a feature with a new name: the boundary of the matching
   * district is stored, or a district is created and its boundary stored.
   * A district is reported only when its boundary was stored.
   */
  function StoreFeature(p: Progress, existing: seq<Row>, jurisdictionId: Value, name: string, code: string,
                        feature: Value, geo: Provider, freshId: Value)
    : (r: Progress)
    ensures |r.db.districts| <= |p.db.districts| + 1
    ensures |p.districts| <= |r.districts| <= |p.districts| + 1
  {
    match MatchExisting(existing, name, code)
    case Some(d) =>
      (match StoreDistrictBoundary(p.db, IdOf(d), feature, geo.dumps)
       case Err(_) => p
       case Ok((db', _)) => Progress(db', p.districts + [Some(d)]))
    case None =>
      var data := map["name" := Str(name), "code" := Str(code), "jurisdiction_id" := jurisdictionId];
      match DistrictService.CreateDistrict(p.db, data, freshId)
      case Err(_) => p
      case Ok((db1, row)) =>
        (match StoreDistrictBoundary(db1, IdOf(row), feature, geo.dumps)
         case Err(_) => Progress(db1, p.districts)
         case Ok((db2, _)) => Progress(db2, p.districts + [Some(row)]))
  }

  predicate Distinct(names: seq<string>) {
    forall i, j :: 0 <= i < j < |names| ==> names[i] != names[j]
  }

  /**
   * The feature loop; feature `k` may take `freshId(2 * k + 1)`. Names
   * processed stay distinct, and no more districts are created than names
   * processed, so each name leads to at most one district per call.
   */
  function GeoFeatures(g: GeoProgress, existing: seq<Row>, jurisdictionId: Value, property: string, prefix: string,
                       features: seq<Value>, geo: Provider, freshId: nat -> Value)
    : (r: GeoProgress)
    requires Distinct(g.processed)
    ensures Distinct(r.processed)
    ensures |g.processed| <= |r.processed| <= |g.processed| + |features|
    ensures |r.p.db.districts| - |g.p.db.districts| <= |r.processed| - |g.processed|
    ensures |r.p.districts| - |g.p.districts| <= |r.processed| - |g.processed|
    ensures |g.p.districts| <= |r.p.districts|
    decreases |features|
  {
    if |features| == 0 then g
    else
      var n := |features| - 1;
      var g1 := GeoFeatures(g, existing, jurisdictionId, property, prefix, features[..n], geo, freshId);
      GeoFeature(g1, existing, jurisdictionId, property, prefix, features[n], geo, freshId(2 * n + 1))
  }

  /** Whether some feature of `features` leads to the district name `name`. */
  predicate NamesDistrict(features: seq<Value>, property: string, prefix: string, name: string) {
    exists k :: 0 <= k < |features| && FeatureName(features[k], property, prefix) == Some(name)
  }

  /** A feature appended to the list names what it names, besides what the list named before. */
  lemma NamesDistrictSnoc(features: seq<Value>, property: string, prefix: string, name: string)
    requires |features| > 0
    ensures var n := |features| - 1;
      NamesDistrict(features, property, prefix, name) <==>
      NamesDistrict(features[..n], property, prefix, name) || FeatureName(features[n], property, prefix) == Some(name)
  {
    var n := |features| - 1;
    if NamesDistrict(features, property, prefix, name) {
      var k :| 0 <= k < |features| && FeatureName(features[k], property, prefix) == Some(name);
      if k < n {
        assert features[..n][k] == features[k];
      }
    }
    if NamesDistrict(features[..n], property, prefix, name) {
      var k :| 0 <= k < n && FeatureName(features[..n][k], property, prefix) == Some(name);
      assert features[k] == features[..n][k];
    }
  }

  /** One feature adds its own name to those processed, and nothing else. */
  lemma GeoFeatureAddsItsName(g: GeoProgress, existing: seq<Row>, jurisdictionId: Value, property: string, prefix: string,
                              feature: Value, geo: Provider, freshId: Value, name: string)
    ensures name in GeoFeature(g, existing, jurisdictionId, property, prefix, feature, geo, freshId).processed <==>
      name in g.processed || FeatureName(feature, property, prefix) == Some(name)
  {
  }

  /**
   * The names the feature loop has processed are exactly those it started
   * with and the names of the features whose number is readable and
   * truthy: each such feature is handled once under its name.
   */
  lemma {:induction false} GeoFeaturesProcessesEveryName(g: GeoProgress, existing: seq<Row>, jurisdictionId: Value, property: string,
                                                        prefix: string, features: seq<Value>, geo: Provider, freshId: nat -> Value, name: string)
    requires Distinct(g.processed)
    ensures name in GeoFeatures(g, existing, jurisdictionId, property, prefix, features, geo, freshId).processed <==>
      name in g.processed || NamesDistrict(features, property, prefix, name)
    decreases |features|
  {
    if |features| > 0 {
      var n := |features| - 1;
      var g1 := GeoFeatures(g, existing, jurisdictionId, property, prefix, features[..n], geo, freshId);
      GeoFeaturesProcessesEveryName(g, existing, jurisdictionId, property, prefix, features[..n], geo, freshId, name);
      GeoFeatureAddsItsName(g1, existing, jurisdictionId, property, prefix, features[n], geo, freshId(2 * n + 1), name);
      NamesDistrictSnoc(features, property, prefix, name);
    }
  }

  /** `_import_from_geojson`. */
  function ImportGeoJson(p: Progress, jurisdictionId: Value, property: string, prefix: string, geojson: Value, geo: Provider, freshId: nat -> Value)
    : (r: Result<Progress, Error>)
    ensures !IsFeatureCollection(geojson) ==> r == Err(ValueError("Invalid GeoJSON: Expected a FeatureCollection"))
    ensures IsFeatureCollection(geojson) && !Truthy(Get(geojson.fields, "features", Arr([]))) ==> r == Ok(p)
    ensures r.Ok? && IsFeatureCollection(geojson) && !Get(geojson.fields, "features", Arr([])).Arr? ==> r == Ok(p)
  {
    if !IsFeatureCollection(geojson) then Err(ValueError("Invalid GeoJSON: Expected a FeatureCollection"))
    else
      var features := Get(geojson.fields, "features", Arr([]));
      if !Truthy(features) then Ok(p)
      else match features
        case Arr(fs) =>
          Ok(GeoFeatures(GeoProgress(p, []), ExistingDistricts(p.db, jurisdictionId), jurisdictionId, property, prefix, fs, geo, freshId).p)
        // iterating a dict or a string yields strings, and `.get` on each raises inside the try
        case Obj(_) => Ok(p)
        case Str(_) => Ok(p)
        case _ => Err(TypeError("object is not iterable"))
  }

  // ---------------------------------------------------------------------
  // import_data

  /** The `data` and `geojson_data` the importer goes on with: a FeatureCollection given as `data` moves to `geojson_data`. */
  function Route(data: Value, geojsonData: Value): (r: (Value, Value))
    ensures IsFeatureCollection(data) ==> r == (Null, data)
    ensures !IsFeatureCollection(data) ==> r == (data, geojsonData)
  {
    if data.Obj? && Get(data.fields, "type", Null) == Str("FeatureCollection") then (Null, data) else (data, geojsonData)
  }

  /** The settings of one `import_data` call. */
  datatype Options = Options(nameFormat: string, codeField: string, districtNameProperty: string, prefix: string)

  /** `import_data` with the defaults "District {code}", "district_number", no property and no prefix. */
  const DefaultOptions := Options("District {code}", "district_number", "", "")

  /** `json.loads` for a GeoJSON string, then the GeoJSON import. */
  function GeoJsonStep(p: Progress, jurisdictionId: Value, o: Options, geojson: Value, geo: Provider, loads: Loads, freshId: nat -> Value)
    : (r: Result<Progress, Error>)
    ensures geojson.Str? && loads(geojson.s).None? ==> r == Err(ValueError("Invalid GeoJSON string format"))
  {
    var parsed :- if geojson.Str? then (match loads(geojson.s)
                                         case None => Err(ValueError("Invalid GeoJSON string format"))
                                         case Some(v) => Ok(v))
                  else Ok(geojson);
    var property := if o.districtNameProperty != "" then o.districtNameProperty else o.codeField;
    ImportGeoJson(p, jurisdictionId, property, o.prefix, parsed, geo, freshId)
  }

  /** `import_data`. */
  function ImportDistricts(db: Db, jurisdictionName: Value, data: Value, geojsonData: Value, o: Options,
                           geo: Provider, loads: Loads, freshId: nat -> Value)
    : (r: Result<(Db, DistrictImportResult), Error>)
    ensures JurisdictionIdByName(db, jurisdictionName).Err? ==> r == Err(JurisdictionIdByName(db, jurisdictionName).error)
    ensures r.Ok? ==> r.value.1.created == 0 && r.value.1.updated == 0 && r.value.1.errors == 0
    ensures r.Ok? ==> r.value.1.total == |r.value.1.districts|
    ensures !Truthy(data) && !Truthy(geojsonData) && JurisdictionIdByName(db, jurisdictionName).Ok? ==> r == Ok((db, DistrictImportResult(0, 0, 0, 0, [])))
  {
    var jid :- JurisdictionIdByName(db, jurisdictionName);
    var (data', geojson') := Route(data, geojsonData);
    var p0 := Progress(db, []);
    var p1 :- if Truthy(data') then ImportTabular(p0, jid, o.nameFormat, o.codeField, data', freshId) else Ok(p0);
    var p2 :- if Truthy(geojson') then GeoJsonStep(p1, jid, o, geojson', geo, loads, freshId) else Ok(p1);
    Ok((p2.db, DistrictImportResult(0, 0, 0, |p2.districts|, p2.districts)))
  }

  /** A FeatureCollection passed as `data` is imported exactly as if passed as `geojson_data`. */
  lemma FeatureCollectionDataIsRerouted(db: Db, jurisdictionName: Value, fc: Value, o: Options, geo: Provider, loads: Loads, freshId: nat -> Value)
    requires IsFeatureCollection(fc)
    ensures ImportDistricts(db, jurisdictionName, fc, Null, o, geo, loads, freshId) == ImportDistricts(db, jurisdictionName, Null, fc, o, geo, loads, freshId)
  {
  }

  /** `validate_import`. */
  function ValidateDistrictImport(kwargs: set<string>): (r: bool)
    ensures r <==> "jurisdiction_name" in kwargs
  {
    if "jurisdiction_name" !in kwargs then false else true
  }
}
