/**
 * `DistrictService`: districts of a jurisdiction, create and update behind
 * a jurisdiction check, and the lookup by code within a jurisdiction.
 */
module DistrictService {
  import opened Wrappers
  import opened PyJson
  import opened Models
  import opened SqlStore
  import opened Database

  /** `list_districts`: a filter when a jurisdiction is given, a page otherwise. */
  function ListDistricts(db: Db, jurisdictionId: Value, skip: nat, limit: nat): (r: seq<Row>)
    ensures Truthy(jurisdictionId) ==> forall d :: d in r <==> d in db.districts && "jurisdiction_id" in d && d["jurisdiction_id"] == jurisdictionId
    ensures !Truthy(jurisdictionId) ==> |r| <= limit && forall k :: 0 <= k < |r| ==> skip + k < |db.districts| && r[k] == db.districts[skip + k]
    ensures !Truthy(jurisdictionId) && skip + limit <= |db.districts| ==> |r| == limit
  {
    if Truthy(jurisdictionId) then Filter(DistrictsTable(db), map["jurisdiction_id" := jurisdictionId])
    else List(DistrictsTable(db), skip, limit)
  }

  /** The jurisdiction check shared by create and update: only a truthy id is looked up. */
  function CheckJurisdiction(db: Db, data: Row): (r: Option<Error>)
    ensures r.Some? <==> Truthy(Col(data, "jurisdiction_id")) && !HasId(JurisdictionsTable(db), Col(data, "jurisdiction_id"))
    ensures r.Some? ==> r.value == ValueError("Jurisdiction not found")
  {
    if Truthy(Col(data, "jurisdiction_id")) && GetRow(JurisdictionsTable(db), Col(data, "jurisdiction_id")).None? then
      Some(ValueError("Jurisdiction not found"))
    else None
  }

  /** `create_district`. */
  function CreateDistrict(db: Db, data: Row, freshId: Value): (r: Result<(Db, Row), Error>)
    ensures CheckJurisdiction(db, data).Some? ==> r == Err(ValueError("Jurisdiction not found"))
    ensures r.Ok? ==> CheckJurisdiction(db, data).None?
    ensures r.Ok? ==> r.value.0 == db.(districts := db.districts + [r.value.1]) && r.value.1 == NewRow(DistrictsSchema, data, freshId)
  {
    if CheckJurisdiction(db, data).Some? then Err(CheckJurisdiction(db, data).value)
    else
      var (t, row) :- Create(DistrictsTable(db), data, freshId);
      Ok((db.(districts := t.rows), row))
  }

  /** `update_district`: the same check, and no existence check of its own. */
  function UpdateDistrict(db: Db, districtId: Value, data: Row): (r: Result<(Db, Option<Row>), Error>)
    ensures CheckJurisdiction(db, data).Some? ==> r == Err(ValueError("Jurisdiction not found"))
    ensures CheckJurisdiction(db, data).None? && Update(DistrictsTable(db), districtId, data).Err? ==>
      r == Err(Update(DistrictsTable(db), districtId, data).error)
    ensures CheckJurisdiction(db, data).None? && Update(DistrictsTable(db), districtId, data).Ok? ==>
      r == Ok((db.(districts := Update(DistrictsTable(db), districtId, data).value.0.rows), Update(DistrictsTable(db), districtId, data).value.1))
  {
    if CheckJurisdiction(db, data).Some? then Err(CheckJurisdiction(db, data).value)
    else
      var (t, row) :- Update(DistrictsTable(db), districtId, data);
      Ok((db.(districts := t.rows), row))
  }

  /** A missing district reaches the repository and comes back `None` with nothing changed. */
  lemma UpdateMissingDistrictIsNone(db: Db, districtId: Value, data: Row)
    requires CheckJurisdiction(db, data).None?
    requires !HasId(DistrictsTable(db), districtId)
    ensures UpdateDistrict(db, districtId, data) == Ok((db, None))
  {
  }

  /**
   * `delete_district`: `False` and no change for a missing district; a
   * district that entities reference cannot be deleted.
   */
  function DeleteDistrict(db: Db, districtId: Value): (r: Result<(Db, bool), Error>)
    ensures r == Ok((db, false)) <==> !HasId(DistrictsTable(db), districtId)
    ensures r.Err? <==> HasId(DistrictsTable(db), districtId) && Referenced(db.entities, "district_id", districtId)
    ensures r.Err? ==> r.error == IntegrityError("district_id")
    ensures r.Ok? ==> r.value.0 == db.(districts := r.value.0.districts)
    ensures r.Ok? && r.value.1 ==> RemovedOnce(db.districts, districtId, r.value.0.districts)
  {
    var (t, deleted) :- DeleteParent(DistrictsTable(db), districtId, db.entities, "district_id");
    Ok((db.(districts := t.rows), deleted))
  }

  /** A district with the given code in the given jurisdiction. */
  predicate CodeIn(d: Row, code: string, jurisdictionId: Value) {
    "code" in d && d["code"] == Str(code) && "jurisdiction_id" in d && d["jurisdiction_id"] == jurisdictionId
  }

  lemma CodeFilterMeansCodeIn(d: Row, code: string, jurisdictionId: Value)
    ensures Matches(DistrictsSchema, d, map["code" := Str(code), "jurisdiction_id" := jurisdictionId]) <==> CodeIn(d, code, jurisdictionId)
  {
    var f := map["code" := Str(code), "jurisdiction_id" := jurisdictionId];
    if Matches(DistrictsSchema, d, f) {
      assert "code" in f && "jurisdiction_id" in f;
    }
  }

  /** `find_district_by_code`: the first district with that code in that jurisdiction. */
  function FindDistrictByCode(db: Db, code: string, jurisdictionId: Value): (r: Option<Row>)
    ensures r.Some? ==> r.value in db.districts && CodeIn(r.value, code, jurisdictionId)
    ensures r.None? <==> forall d :: d in db.districts ==> !CodeIn(d, code, jurisdictionId)
    ensures r.Some? ==> exists i :: 0 <= i < |db.districts| && db.districts[i] == r.value && FirstCodeIn(db.districts, i, code, jurisdictionId)
  {
    var f := map["code" := Str(code), "jurisdiction_id" := jurisdictionId];
    forall d ensures Matches(DistrictsSchema, d, f) <==> CodeIn(d, code, jurisdictionId) {
      CodeFilterMeansCodeIn(d, code, jurisdictionId);
    }
    FirstMatch(DistrictsTable(db), f)
  }

  predicate FirstCodeIn(ds: seq<Row>, i: nat, code: string, jurisdictionId: Value)
    requires i <= |ds|
  {
    forall j :: 0 <= j < i ==> !CodeIn(ds[j], code, jurisdictionId)
  }
}
