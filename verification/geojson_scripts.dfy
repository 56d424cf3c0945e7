/**
 * What the three GeoJSON boundary scripts share: the tables they touch,
 * the outcome of reading a file, the FeatureCollection test, iterating the
 * `features` member, and looking rows up by name.
 *
 * The scripts write through sessions and providers; here that state is one
 * record of jurisdiction and district rows together with the boundaries
 * stored for them, keyed by row id.
 */
module ScriptGeoJson {
  import opened Wrappers
  import opened PyJson
  import opened Models

  /** A `Jurisdiction` row (timestamps left out); `parent` is `Null` when there is none. */
  datatype JurisdictionRow = JurisdictionRow(id: Value, name: string, description: string, level: string, parent: Value)

  /** A `District` row. */
  datatype DistrictRow = DistrictRow(id: Value, name: string, code: string, jurisdictionId: Value)

  /** The rows the scripts read and write, and the boundary GeoJSON stored for each id. */
  datatype Store = Store(
    jurisdictions: seq<JurisdictionRow>, districts: seq<DistrictRow>,
    jurisdictionBoundaries: map<Value, Value>, districtBoundaries: map<Value, Value>)

  /** Opening and `json.load`-ing a file: no file at the path, an error while reading or parsing, or the parsed value. */
  datatype GeoFile = Missing | Unreadable | Loaded(data: Value)

  /** `d.get("features", [])`. */
  function FeaturesValue(d: Value): Value
    requires d.Obj?
  {
    Get(d.fields, "features", Arr([]))
  }

  /**
   * The elements a `for feature in ...` loop over `v` hands to a body that
   * starts with `feature.get(...)`: a list gives its items; an empty string
   * or dict gives none; a non-empty string or dict gives a first element
   * (a character or a key) that has no `get`; anything else is not
   * iterable.
   */
  function IterateFeatures(v: Value): (r: Result<seq<Value>, Error>)
    ensures v.Arr? ==> r == Ok(v.items)
    ensures r.Ok? && |r.value| > 0 ==> v.Arr?
    ensures r.Err? <==> !v.Arr? && (v.Str? || v.Obj? ==> Truthy(v))
    ensures r.Err? && (v.Str? || v.Obj?) ==> r.error == AttributeError("get")
    ensures r.Err? && !v.Str? && !v.Obj? ==> r.error.TypeError?
  {
    match Iterate(v)
    case None => Err(TypeError("object is not iterable"))
    case Some(items) => if v.Arr? || |items| == 0 then Ok(items) else Err(AttributeError("get"))
  }

  /** How the Chicago scripts read one feature: skip it, a ward value, or the exception the test raises. */
  datatype WardRead = Skip | Ward(n: Value) | Raises(e: Error)

  /**
   * `if not feature.get("properties") or "ward" not in feature["properties"]`
   * followed by `feature["properties"]["ward"]`. The `in` test on a list or
   * a string looks for an element or a substring "ward"; when it finds one,
   * indexing that list or string by "ward" raises.
   */
  function ReadWard(feature: Value): (r: WardRead)
    ensures !feature.Obj? ==> r == Raises(AttributeError("get"))
    ensures feature.Obj? && !Truthy(Get(feature.fields, "properties", Null)) ==> r == Skip
    ensures r.Ward? <==> feature.Obj? && var p := Get(feature.fields, "properties", Null); p.Obj? && "ward" in p.fields
    ensures r.Ward? ==> r.n == Get(feature.fields, "properties", Null).fields["ward"]
    ensures feature.Obj? && Get(feature.fields, "properties", Null).Obj? ==> !r.Raises?
  {
    if !feature.Obj? then Raises(AttributeError("get"))
    else
      var p := Get(feature.fields, "properties", Null);
      if !Truthy(p) then Skip
      else match p
        case Obj(m) => if "ward" in m then Ward(m["ward"]) else Skip
        case Arr(items) => if Str("ward") in items then Raises(TypeError("list indices must be integers")) else Skip
        case Str(s) => if ContainsSub(s, "ward") then Raises(TypeError("string indices must be integers")) else Skip
        case _ => Raises(TypeError("argument is not iterable"))
  }

  /** The name "Ward {n}" both Chicago scripts give a ward. */
  function WardName(n: Value): (r: string)
    ensures |r| >= 5 && r[..5] == "Ward " && r[5..] == Show(n)
  {
    var name := "Ward " + Show(n);
    assert name[5..] == Show(n);
    name
  }

  /**
   * The checks both Chicago scripts make before their loop: `None` where
   * they return False (a file that cannot be read, a value that is not a
   * FeatureCollection, falsy `features`), otherwise the features, or the
   * exception iterating them raises.
   */
  function WardFeatures(file: GeoFile): (r: Result<Option<seq<Value>>, Error>)
    ensures r == Ok(None) <==> !file.Loaded? || !IsFeatureCollection(file.data) || !Truthy(FeaturesValue(file.data))
    ensures r.Ok? && r.value.Some? ==> FeaturesValue(file.data) == Arr(r.value.value) && |r.value.value| > 0
  {
    if !file.Loaded? || !IsFeatureCollection(file.data) then Ok(None)
    else
      var v := FeaturesValue(file.data);
      if !Truthy(v) then Ok(None)
      else match IterateFeatures(v)
        case Ok(fs) => Ok(Some(fs))
        case Err(e) => Err(e)
  }

  function JurisdictionName(j: JurisdictionRow): string { j.name }
  function DistrictName(d: DistrictRow): string { d.name }

  /**
   * The position of the first row with the given name, in table order:
   * `provider.filter(name=...)[0]`.
   */
  function FirstNamed<R>(rows: seq<R>, nameOf: R -> string, name: string): (r: Option<nat>)
    ensures r.None? <==> forall k :: 0 <= k < |rows| ==> nameOf(rows[k]) != name
    ensures r.Some? ==> r.value < |rows| && nameOf(rows[r.value]) == name &&
                        forall l :: 0 <= l < r.value ==> nameOf(rows[l]) != name
  {
    if |rows| == 0 then None
    else if nameOf(rows[0]) == name then Some(0)
    else match FirstNamed(rows[1..], nameOf, name)
      case None => None
      case Some(k) => Some(k + 1)
  }

  /** The lookup finds the row at `idx` exactly when it carries the name and no earlier row does. */
  lemma FirstNamedIs<R>(rows: seq<R>, nameOf: R -> string, name: string, idx: nat)
    requires idx < |rows| && nameOf(rows[idx]) == name
    requires forall l :: 0 <= l < idx ==> nameOf(rows[l]) != name
    ensures FirstNamed(rows, nameOf, name) == Some(idx)
  {
  }

  /** Whether a jurisdiction with this id exists: `session.get(Jurisdiction, id)` or `provider.get(id)` finds a row. */
  predicate HasJurisdiction(js: seq<JurisdictionRow>, id: Value) {
    exists k :: 0 <= k < |js| && js[k].id == id
  }
}
