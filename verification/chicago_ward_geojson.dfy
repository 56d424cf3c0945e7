/**
 * The Chicago ward boundary script of the application package: it picks
 * the jurisdiction the wards belong to, then, for every feature of a
 * GeoJSON FeatureCollection that carries a "ward" property, stores the
 * feature as the boundary of the district "Ward {ward}", creating that
 * district first when no district of that name exists anywhere.
 *
 * The providers commit each write as it happens, so an exception part way
 * through leaves the earlier writes in place; an `Outcome` carries both.
 * The ids the provider gives new districts come from a function of the
 * feature's position. Under PostgreSQL, building the geo provider raises
 * TypeError before anything is read.
 */
module ChicagoWardDistricts {
  import opened Wrappers
  import opened PyJson
  import opened Models
  import opened ScriptGeoJson
  import opened GeoProvider

  const CouncilName := "Chicago City Council"

  /** The state after the script and what it returned or raised. */
  datatype Outcome = Outcome(store: Store, result: Result<bool, Error>)

  /**
   * The jurisdiction of new wards: the requested one when it exists,
   * otherwise the first jurisdiction named "Chicago City Council";
   * `jurisdiction_list[0]` raises when there is none.
   */
  function ResolveJurisdiction(js: seq<JurisdictionRow>, requested: Option<Value>): (r: Result<Value, Error>)
    ensures requested.Some? && HasJurisdiction(js, requested.value) ==> r == Ok(requested.value)
    ensures !(requested.Some? && HasJurisdiction(js, requested.value)) ==>
      (r.Ok? <==> exists k :: 0 <= k < |js| && js[k].name == CouncilName)
    ensures r.Ok? && !(requested.Some? && HasJurisdiction(js, requested.value)) ==>
      exists k :: 0 <= k < |js| && js[k].id == r.value && js[k].name == CouncilName &&
                  forall l :: 0 <= l < k ==> js[l].name != CouncilName
  {
    if requested.Some? && HasJurisdiction(js, requested.value) then Ok(requested.value)
    else match FirstNamed(js, JurisdictionName, CouncilName)
      case None => Err(Exception("list index out of range"))
      case Some(k) => Ok(js[k].id)
  }

  /** A district the script creates: named "Ward " followed by its code. */
  predicate WardDistrict(d: DistrictRow, jid: Value) {
    d.jurisdictionId == jid && d.name == "Ward " + d.code
  }

  /**
   * One ward feature: the first district named "Ward {n}", in whatever
   * jurisdiction, gets the feature as its boundary; when there is none, the
   * district is created in `jid` with code `str(n)` and gets it.
   */
  function UpsertWard(s: Store, jid: Value, n: Value, feature: Value, freshId: Value): (r: Store)
    ensures r.jurisdictions == s.jurisdictions && r.jurisdictionBoundaries == s.jurisdictionBoundaries
    ensures (exists k :: 0 <= k < |s.districts| && s.districts[k].name == WardName(n)) ==> r.districts == s.districts
    ensures (forall k :: 0 <= k < |s.districts| ==> s.districts[k].name != WardName(n)) ==>
      r.districts == s.districts + [DistrictRow(freshId, WardName(n), Show(n), jid)] && WardDistrict(r.districts[|s.districts|], jid)
    ensures exists k :: 0 <= k < |r.districts| && r.districts[k].name == WardName(n) &&
                        (forall l :: 0 <= l < k ==> r.districts[l].name != WardName(n)) &&
                        r.districtBoundaries == s.districtBoundaries[r.districts[k].id := feature]
  {
    var name := WardName(n);
    match FirstNamed(s.districts, DistrictName, name)
    case Some(k) => s.(districtBoundaries := s.districtBoundaries[s.districts[k].id := feature])
    case None =>
      var d := DistrictRow(freshId, name, Show(n), jid);
      var r := s.(districts := s.districts + [d], districtBoundaries := s.districtBoundaries[freshId := feature]);
      assert r.districts[|s.districts|] == d;
      r
  }

  /**
   * A district "Ward {n}" of another jurisdiction is the one updated: no
   * district is created in `jid`, and the boundary goes to that district.
   */
  lemma MatchIgnoresJurisdiction(s: Store, jid: Value, n: Value, feature: Value, freshId: Value, k: nat)
    requires k < |s.districts| && s.districts[k].name == WardName(n) && s.districts[k].jurisdictionId != jid
    requires forall l :: 0 <= l < k ==> s.districts[l].name != WardName(n)
    ensures var r := UpsertWard(s, jid, n, feature, freshId);
      r.districts == s.districts && r.districtBoundaries == s.districtBoundaries[s.districts[k].id := feature]
  {
    var r := UpsertWard(s, jid, n, feature, freshId);
    var j :| 0 <= j < |r.districts| && r.districts[j].name == WardName(n) &&
             (forall l :: 0 <= l < j ==> r.districts[l].name != WardName(n)) &&
             r.districtBoundaries == s.districtBoundaries[r.districts[j].id := feature];
    assert j == k;
  }

  /** Upserting the same ward feature a second time changes nothing, whatever id it would be given. */
  lemma UpsertWardIsIdempotent(s: Store, jid: Value, n: Value, feature: Value, id1: Value, id2: Value)
    ensures UpsertWard(UpsertWard(s, jid, n, feature, id1), jid, n, feature, id2) == UpsertWard(s, jid, n, feature, id1)
  {
    var r := UpsertWard(s, jid, n, feature, id1);
    var j :| 0 <= j < |r.districts| && r.districts[j].name == WardName(n) &&
             (forall l :: 0 <= l < j ==> r.districts[l].name != WardName(n)) &&
             r.districtBoundaries == s.districtBoundaries[r.districts[j].id := feature];
    FirstNamedIs(r.districts, DistrictName, WardName(n), j);
    assert r.districtBoundaries[r.districts[j].id := feature] == r.districtBoundaries;
  }

  /**
   * The feature loop from position `i`: features without a ward are
   * skipped, and the first feature whose test raises ends the script with
   * that exception.
   */
  function ProcessWards(s: Store, jid: Value, features: seq<Value>, ids: nat -> Value, i: nat): (r: (Store, Option<Error>))
    requires i <= |features|
    ensures s.districts <= r.0.districts
    ensures r.0.jurisdictions == s.jurisdictions && r.0.jurisdictionBoundaries == s.jurisdictionBoundaries
    ensures forall k :: |s.districts| <= k < |r.0.districts| ==> WardDistrict(r.0.districts[k], jid)
    ensures r.1.None? <==> forall k :: i <= k < |features| ==> !ReadWard(features[k]).Raises?
    ensures r.1.Some? ==> exists k :: i <= k < |features| && ReadWard(features[k]) == Raises(r.1.value)
    decreases |features| - i
  {
    if i == |features| then (s, None)
    else match ReadWard(features[i])
      case Raises(e) => (s, Some(e))
      case Skip => ProcessWards(s, jid, features, ids, i + 1)
      case Ward(n) => ProcessWards(UpsertWard(s, jid, n, features[i], ids(i)), jid, features, ids, i + 1)
  }

  /** Whether some district, in any jurisdiction, is named after ward `n`. */
  predicate HasWard(ds: seq<DistrictRow>, n: Value) {
    exists d :: d in ds && d.name == WardName(n)
  }

  /** When the loop runs to the end, every ward it read has a district of that name afterwards. */
  lemma {:induction false} EveryWardHasDistrict(s: Store, jid: Value, features: seq<Value>, ids: nat -> Value, i: nat, k: nat)
    requires i <= k < |features| && ReadWard(features[k]).Ward?
    requires ProcessWards(s, jid, features, ids, i).1.None?
    ensures HasWard(ProcessWards(s, jid, features, ids, i).0.districts, ReadWard(features[k]).n)
    decreases |features| - i
  {
    var n := ReadWard(features[k]).n;
    if k == i {
      var u := UpsertWard(s, jid, n, features[i], ids(i));
      var j :| 0 <= j < |u.districts| && u.districts[j].name == WardName(n) &&
               (forall l :: 0 <= l < j ==> u.districts[l].name != WardName(n)) &&
               u.districtBoundaries == s.districtBoundaries[u.districts[j].id := features[i]];
      var r := ProcessWards(u, jid, features, ids, i + 1);
      assert u.districts <= r.0.districts;
      assert r.0.districts[j] == u.districts[j];
    } else {
      match ReadWard(features[i])
      case Raises(_) =>
        assert false;
      case Skip =>
        EveryWardHasDistrict(s, jid, features, ids, i + 1, k);
      case Ward(m) =>
        EveryWardHasDistrict(UpsertWard(s, jid, m, features[i], ids(i)), jid, features, ids, i + 1, k);
    }
  }

  /**
   * `import_chicago_wards`: building the geo provider raises TypeError
   * under PostgreSQL; then the jurisdiction is resolved before anything
   * else; an unreadable file, a value that is not a FeatureCollection or
   * falsy `features` returns False with nothing written; otherwise the
   * loop runs and the script returns True unless a feature raised.
   */
  function ImportChicagoWards(s: Store, requested: Option<Value>, databaseProvider: string, file: GeoFile, ids: nat -> Value): (r: Outcome)
    ensures PostgresConfigured(databaseProvider) ==> r == Outcome(s, Err(AbstractPostgres))
    ensures !PostgresConfigured(databaseProvider) && ResolveJurisdiction(s.jurisdictions, requested).Err? ==>
      r == Outcome(s, Err(ResolveJurisdiction(s.jurisdictions, requested).error))
    ensures r.result == Ok(false) <==>
      !PostgresConfigured(databaseProvider) && ResolveJurisdiction(s.jurisdictions, requested).Ok? && WardFeatures(file) == Ok(None)
    ensures r.result.Ok? && !r.result.value ==> r.store == s
    ensures r.result == Ok(true) ==>
      WardFeatures(file).Ok? && WardFeatures(file).value.Some? &&
      forall k :: 0 <= k < |WardFeatures(file).value.value| ==> !ReadWard(WardFeatures(file).value.value[k]).Raises?
    ensures s.districts <= r.store.districts && r.store.jurisdictions == s.jurisdictions
    ensures ResolveJurisdiction(s.jurisdictions, requested).Ok? ==>
      forall k :: |s.districts| <= k < |r.store.districts| ==>
        WardDistrict(r.store.districts[k], ResolveJurisdiction(s.jurisdictions, requested).value)
  {
    if PostgresConfigured(databaseProvider) then Outcome(s, Err(AbstractPostgres))
    else match ResolveJurisdiction(s.jurisdictions, requested)
    case Err(e) => Outcome(s, Err(e))
    case Ok(jid) =>
      match WardFeatures(file)
      case Err(e) => Outcome(s, Err(e))
      case Ok(None) => Outcome(s, Ok(false))
      case Ok(Some(features)) =>
        var (s', err) := ProcessWards(s, jid, features, ids, 0);
        if err.Some? then Outcome(s', Err(err.value)) else Outcome(s', Ok(true))
  }
}

/**
 * The older Chicago ward boundary script: the same loop, but each ward is
 * a jurisdiction of level "ward" under the given parent, and the feature
 * is meant to become that jurisdiction's boundary. Building the geo
 * provider raises TypeError under PostgreSQL, and the SQLite provider has
 * no `store_jurisdiction_boundary`: the first ward feature ends the run
 * with AttributeError, after its jurisdiction has been found or created
 * and committed. No boundary is ever stored.
 */
module ChicagoWardJurisdictions {
  import opened Wrappers
  import opened PyJson
  import opened Models
  import opened ScriptGeoJson
  import opened GeoProvider

  /** What `geo_provider.store_jurisdiction_boundary(...)` raises on the SQLite provider. */
  const NoJurisdictionBoundary: Error := AttributeError("store_jurisdiction_boundary")

  /** A ward jurisdiction the script creates: level "ward", under `parent`, described as "Chicago " and its name. */
  predicate WardJurisdiction(j: JurisdictionRow, parent: Value) {
    j.level == "ward" && j.parent == parent && j.description == "Chicago " + j.name
  }

  /** Some jurisdiction is named "Ward {n}". */
  predicate HasWard(js: seq<JurisdictionRow>, n: Value) {
    exists k :: 0 <= k < |js| && js[k].name == WardName(n)
  }

  /**
   * One ward feature as written: the ward jurisdiction is looked up by
   * name and created when there is none; the boundary call that follows
   * raises, so no boundary is stored.
   */
  function UpsertWardJurisdiction(s: Store, parent: Value, n: Value, freshId: Value): (r: Store)
    ensures r.districts == s.districts && r.districtBoundaries == s.districtBoundaries
    ensures r.jurisdictionBoundaries == s.jurisdictionBoundaries
    ensures HasWard(s.jurisdictions, n) ==> r == s
    ensures !HasWard(s.jurisdictions, n) ==>
      |r.jurisdictions| == |s.jurisdictions| + 1 && s.jurisdictions <= r.jurisdictions &&
      var j := r.jurisdictions[|s.jurisdictions|];
      j.id == freshId && j.name == WardName(n) && WardJurisdiction(j, parent)
  {
    var name := WardName(n);
    match FirstNamed(s.jurisdictions, JurisdictionName, name)
    case Some(k) => s
    case None =>
      // f"Chicago Ward {ward_num}" is "Chicago " followed by the ward's name
      var j := JurisdictionRow(freshId, name, "Chicago " + name, "ward", parent);
      var r := s.(jurisdictions := s.jurisdictions + [j]);
      assert r.jurisdictions[|s.jurisdictions|] == j;
      r
  }

  /** A second attempt at the same ward finds the jurisdiction the first one left, whatever id it would use. */
  lemma UpsertWardJurisdictionTwice(s: Store, parent: Value, n: Value, id1: Value, id2: Value)
    ensures UpsertWardJurisdiction(UpsertWardJurisdiction(s, parent, n, id1), parent, n, id2)
         == UpsertWardJurisdiction(s, parent, n, id1)
  {
    var r := UpsertWardJurisdiction(s, parent, n, id1);
    if !HasWard(s.jurisdictions, n) {
      assert r.jurisdictions[|s.jurisdictions|].name == WardName(n);
    }
  }

  /** How the loop ends at a feature that is not skipped: its own exception, or the boundary call after its ward. */
  predicate StopsAt(s: Store, parent: Value, feature: Value, freshId: Value, r: (Store, Option<Error>)) {
    match ReadWard(feature)
    case Skip => false
    case Raises(e) => r == (s, Some(e))
    case Ward(n) => r == (UpsertWardJurisdiction(s, parent, n, freshId), Some(NoJurisdictionBoundary))
  }

  /**
   * The feature loop from position `i` as written: skipped features are
   * passed over, and the first feature that is not skipped ends the loop.
   */
  function ProcessWards(s: Store, parent: Value, features: seq<Value>, ids: nat -> Value, i: nat): (r: (Store, Option<Error>))
    requires i <= |features|
    ensures r.1.None? <==> forall k :: i <= k < |features| ==> ReadWard(features[k]).Skip?
    ensures r.1.None? ==> r.0 == s
    ensures r.1.Some? ==> exists k :: i <= k < |features| && (forall l :: i <= l < k ==> ReadWard(features[l]).Skip?) &&
                                      StopsAt(s, parent, features[k], ids(k), r)
    decreases |features| - i
  {
    if i == |features| then (s, None)
    else match ReadWard(features[i])
      case Raises(e) => (s, Some(e))
      case Skip => ProcessWards(s, parent, features, ids, i + 1)
      case Ward(n) => (UpsertWardJurisdiction(s, parent, n, ids(i)), Some(NoJurisdictionBoundary))
  }

  /**
   * The loop writes at most one jurisdiction, a ward of the parent, and
   * never a boundary or a district.
   */
  lemma {:induction false} ProcessWardsWritesAtMostOneWard(s: Store, parent: Value, features: seq<Value>, ids: nat -> Value, i: nat)
    requires i <= |features|
    ensures var r := ProcessWards(s, parent, features, ids, i);
      r.0.districts == s.districts && r.0.districtBoundaries == s.districtBoundaries &&
      r.0.jurisdictionBoundaries == s.jurisdictionBoundaries &&
      s.jurisdictions <= r.0.jurisdictions && |r.0.jurisdictions| <= |s.jurisdictions| + 1 &&
      forall k :: |s.jurisdictions| <= k < |r.0.jurisdictions| ==> WardJurisdiction(r.0.jurisdictions[k], parent)
    decreases |features| - i
  {
    if i < |features| && ReadWard(features[i]).Skip? {
      ProcessWardsWritesAtMostOneWard(s, parent, features, ids, i + 1);
    }
  }

  /** Running the loop again over its own result ends the same way and writes nothing more. */
  lemma {:induction false} ProcessWardsTwice(s: Store, parent: Value, features: seq<Value>, ids1: nat -> Value, ids2: nat -> Value, i: nat)
    requires i <= |features|
    ensures ProcessWards(ProcessWards(s, parent, features, ids1, i).0, parent, features, ids2, i)
         == ProcessWards(s, parent, features, ids1, i)
    decreases |features| - i
  {
    if i < |features| {
      match ReadWard(features[i])
      case Raises(_) =>
      case Skip => ProcessWardsTwice(s, parent, features, ids1, ids2, i + 1);
      case Ward(n) => UpsertWardJurisdictionTwice(s, parent, n, ids1(i), ids2(i));
    }
  }

  /**
   * `import_chicago_wards`: under PostgreSQL building the geo provider
   * raises before anything is read. An unreadable file, a value that is not
   * a FeatureCollection or falsy `features` returns False; otherwise the
   * loop runs, and the script returns True only when every feature is
   * skipped. A missing parent id is stored as `None`.
   */
  function ImportWardJurisdictions(s: Store, parent: Option<Value>, databaseProvider: string, file: GeoFile, ids: nat -> Value): (r: (Store, Result<bool, Error>))
    ensures PostgresConfigured(databaseProvider) ==> r == (s, Err(AbstractPostgres))
    ensures r.1 == Ok(false) <==> !PostgresConfigured(databaseProvider) && WardFeatures(file) == Ok(None)
    ensures r.1 == Ok(true) <==>
      !PostgresConfigured(databaseProvider) && WardFeatures(file).Ok? && WardFeatures(file).value.Some? &&
      forall k :: 0 <= k < |WardFeatures(file).value.value| ==> ReadWard(WardFeatures(file).value.value[k]).Skip?
    ensures r.1.Ok? ==> r.0 == s
    ensures r.0.jurisdictionBoundaries == s.jurisdictionBoundaries
    ensures r.0.districts == s.districts && r.0.districtBoundaries == s.districtBoundaries
    ensures s.jurisdictions <= r.0.jurisdictions && |r.0.jurisdictions| <= |s.jurisdictions| + 1
    ensures forall k :: |s.jurisdictions| <= k < |r.0.jurisdictions| ==>
      WardJurisdiction(r.0.jurisdictions[k], if parent.Some? then parent.value else Null)
  {
    var p := if parent.Some? then parent.value else Null;
    if PostgresConfigured(databaseProvider) then (s, Err(AbstractPostgres))
    else match WardFeatures(file)
      case Err(e) => (s, Err(e))
      case Ok(None) => (s, Ok(false))
      case Ok(Some(features)) =>
        ProcessWardsWritesAtMostOneWard(s, p, features, ids, 0);
        var (s', err) := ProcessWards(s, p, features, ids, 0);
        if err.Some? then (s', Err(err.value)) else (s', Ok(true))
  }

  /** A second run over the same file ends as the first did and writes nothing more, whatever ids it would use. */
  lemma ImportWardJurisdictionsTwice(s: Store, parent: Option<Value>, databaseProvider: string, file: GeoFile, ids1: nat -> Value, ids2: nat -> Value)
    ensures var r := ImportWardJurisdictions(s, parent, databaseProvider, file, ids1);
      ImportWardJurisdictions(r.0, parent, databaseProvider, file, ids2) == r
  {
    var p := if parent.Some? then parent.value else Null;
    if !PostgresConfigured(databaseProvider) && WardFeatures(file).Ok? && WardFeatures(file).value.Some? {
      ProcessWardsTwice(s, p, WardFeatures(file).value.value, ids1, ids2, 0);
    }
  }

  /**
   * A file with the single feature `{"properties": {"ward": 1}}`, on an
   * empty store: the run creates "Ward 1", stores no boundary, and fails.
   */
  lemma OneWardFileStopsAfterCreating(ids: nat -> Value)
    ensures var feature := Obj(map["properties" := Obj(map["ward" := Int(1)])]);
      var file := Loaded(Obj(map["type" := Str("FeatureCollection"), "features" := Arr([feature])]));
      var r := ImportWardJurisdictions(Store([], [], map[], map[]), None, "sqlite", file, ids);
      r.1 == Err(NoJurisdictionBoundary) && |r.0.jurisdictions| == 1 &&
      r.0.jurisdictions[0].name == WardName(Int(1)) && r.0.jurisdictionBoundaries == map[]
  {
    var feature := Obj(map["properties" := Obj(map["ward" := Int(1)])]);
    var file := Loaded(Obj(map["type" := Str("FeatureCollection"), "features" := Arr([feature])]));
    assert Lower("sqlite")[0] == 's';
    assert WardFeatures(file) == Ok(Some([feature]));
    assert ReadWard(feature) == Ward(Int(1));
  }

  // ---------------------------------------------------------------------
  // The script as evidently intended: the feature becomes the boundary

  /**
   * One ward feature with a working boundary call: the first jurisdiction
   * named "Ward {n}" gets the feature as its boundary; when there is none,
   * the ward jurisdiction is created and gets it.
   */
  function UpsertWardIntended(s: Store, parent: Value, n: Value, feature: Value, freshId: Value): (r: Store)
    ensures r.districts == s.districts && r.districtBoundaries == s.districtBoundaries
    ensures HasWard(s.jurisdictions, n) ==> r.jurisdictions == s.jurisdictions
    ensures !HasWard(s.jurisdictions, n) ==>
      |r.jurisdictions| == |s.jurisdictions| + 1 && s.jurisdictions <= r.jurisdictions &&
      var j := r.jurisdictions[|s.jurisdictions|];
      j.id == freshId && j.name == WardName(n) && WardJurisdiction(j, parent)
    ensures exists k :: 0 <= k < |r.jurisdictions| && r.jurisdictions[k].name == WardName(n) &&
                        (forall l :: 0 <= l < k ==> r.jurisdictions[l].name != WardName(n)) &&
                        r.jurisdictionBoundaries == s.jurisdictionBoundaries[r.jurisdictions[k].id := feature]
  {
    var name := WardName(n);
    match FirstNamed(s.jurisdictions, JurisdictionName, name)
    case Some(k) => s.(jurisdictionBoundaries := s.jurisdictionBoundaries[s.jurisdictions[k].id := feature])
    case None =>
      var j := JurisdictionRow(freshId, name, "Chicago " + name, "ward", parent);
      var r := s.(jurisdictions := s.jurisdictions + [j], jurisdictionBoundaries := s.jurisdictionBoundaries[freshId := feature]);
      assert r.jurisdictions[|s.jurisdictions|] == j;
      r
  }

  /** Upserting the same ward feature a second time changes nothing, whatever id it would be given. */
  lemma UpsertWardIntendedIsIdempotent(s: Store, parent: Value, n: Value, feature: Value, id1: Value, id2: Value)
    ensures UpsertWardIntended(UpsertWardIntended(s, parent, n, feature, id1), parent, n, feature, id2)
         == UpsertWardIntended(s, parent, n, feature, id1)
  {
    var r := UpsertWardIntended(s, parent, n, feature, id1);
    var j :| 0 <= j < |r.jurisdictions| && r.jurisdictions[j].name == WardName(n) &&
             (forall l :: 0 <= l < j ==> r.jurisdictions[l].name != WardName(n)) &&
             r.jurisdictionBoundaries == s.jurisdictionBoundaries[r.jurisdictions[j].id := feature];
    RepeatOnNamedWard(r, parent, n, feature, id2, j);
  }

  /** A store whose first ward of the name already has the feature as its boundary is left as it is. */
  lemma RepeatOnNamedWard(r: Store, parent: Value, n: Value, feature: Value, freshId: Value, j: nat)
    requires j < |r.jurisdictions| && r.jurisdictions[j].name == WardName(n)
    requires forall l :: 0 <= l < j ==> r.jurisdictions[l].name != WardName(n)
    requires r.jurisdictions[j].id in r.jurisdictionBoundaries && r.jurisdictionBoundaries[r.jurisdictions[j].id] == feature
    ensures UpsertWardIntended(r, parent, n, feature, freshId) == r
  {
    FirstNamedIs(r.jurisdictions, JurisdictionName, WardName(n), j);
    UpsertNamedWard(r, parent, n, feature, freshId, j);
    assert r.jurisdictionBoundaries[r.jurisdictions[j].id := feature] == r.jurisdictionBoundaries;
  }

  /** A ward whose jurisdiction exists only has its boundary replaced. */
  lemma UpsertNamedWard(s: Store, parent: Value, n: Value, feature: Value, freshId: Value, k: nat)
    requires FirstNamed(s.jurisdictions, JurisdictionName, WardName(n)) == Some(k)
    ensures k < |s.jurisdictions|
    ensures UpsertWardIntended(s, parent, n, feature, freshId) ==
      s.(jurisdictionBoundaries := s.jurisdictionBoundaries[s.jurisdictions[k].id := feature])
  {
  }
}
