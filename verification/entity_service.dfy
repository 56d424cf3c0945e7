/**
 * `EntityService`: entities of a jurisdiction with their district names,
 * create, update and delete with their guards, and the lookup of the
 * entities whose district contains a geocoded address.
 */
module EntityService {
  import opened Wrappers
  import opened PyJson
  import opened Models
  import opened SqlStore
  import opened Database
  import opened GeoSqlite
  import opened GeoProvider

  /** An entity as the service returns it, with `district_name` set or not. */
  datatype EntityView = EntityView(row: Row, districtName: Option<Value>)

  /** The name of the entity's district, when that district is found. */
  function DistrictName(db: Db, e: Row): (r: Option<Value>)
    ensures r.Some? <==> HasId(DistrictsTable(db), Col(e, "district_id"))
    ensures r.Some? ==> exists d :: d in db.districts && IdOf(d) == Col(e, "district_id") && Col(d, "name") == r.value
  {
    match GetRow(DistrictsTable(db), Col(e, "district_id"))
    case None => None
    case Some(d) => Some(Col(d, "name"))
  }

  function WithDistrictNames(db: Db, rows: seq<Row>): (r: seq<EntityView>)
    ensures |r| == |rows|
    ensures forall i :: 0 <= i < |rows| ==> r[i].row == rows[i] && r[i].districtName == DistrictName(db, rows[i])
  {
    seq(|rows|, i requires 0 <= i < |rows| => EntityView(rows[i], DistrictName(db, rows[i])))
  }

  function EntityRows(vs: seq<EntityView>): (r: seq<Row>)
    ensures |r| == |vs|
    ensures forall i :: 0 <= i < |vs| ==> r[i] == vs[i].row
  {
    seq(|vs|, i requires 0 <= i < |vs| => vs[i].row)
  }

  /** `list_entities(jurisdiction_id)`. */
  function ListEntities(db: Db, jurisdictionId: Value): (r: seq<EntityView>)
    ensures forall e :: e in EntityRows(r) <==> e in db.entities && "jurisdiction_id" in e && e["jurisdiction_id"] == jurisdictionId
    ensures forall i :: 0 <= i < |r| ==> (r[i].districtName.Some? <==> HasId(DistrictsTable(db), Col(r[i].row, "district_id")))
  {
    var r := WithDistrictNames(db, Filter(EntitiesTable(db), map["jurisdiction_id" := jurisdictionId]));
    assert EntityRows(r) == Filter(EntitiesTable(db), map["jurisdiction_id" := jurisdictionId]);
    r
  }

  /** `create_entity`: the jurisdiction must exist. */
  function CreateEntity(db: Db, data: Row, freshId: Value): (r: Result<(Db, Row), Error>)
    ensures !HasId(JurisdictionsTable(db), Col(data, "jurisdiction_id")) ==> r == Err(ValueError("Jurisdiction not found"))
    ensures r.Ok? ==> r.value.0 == db.(entities := db.entities + [r.value.1])
    ensures r.Ok? ==> HasId(JurisdictionsTable(db), Col(data, "jurisdiction_id")) && r.value.1 == NewRow(EntitiesSchema, data, freshId)
  {
    if GetRow(JurisdictionsTable(db), Col(data, "jurisdiction_id")).None? then Err(ValueError("Jurisdiction not found"))
    else
      var (t, row) :- Create(EntitiesTable(db), data, freshId);
      Ok((db.(entities := t.rows), row))
  }

  /** `update_entity`: `None` and no change for a missing entity. */
  function UpdateEntity(db: Db, entityId: Value, data: Row): (r: Result<(Db, Option<Row>), Error>)
    ensures !HasId(EntitiesTable(db), entityId) ==> r == Ok((db, None))
    ensures r.Ok? ==> r.value.0 == db.(entities := r.value.0.entities) && |r.value.0.entities| == |db.entities|
    ensures r.Ok? && r.value.1.Some? ==> PatchedAt(EntitiesTable(db), entityId, data, r.value.0.entities, r.value.1.value)
  {
    if GetRow(EntitiesTable(db), entityId).None? then Ok((db, None))
    else
      var (t, row) :- Update(EntitiesTable(db), entityId, data);
      if row.Some? then
        UpdatePatchesAt(EntitiesTable(db), entityId, data);
        Ok((db.(entities := t.rows), row))
      else Ok((db.(entities := t.rows), row))
  }

  /** After a successful update, `get` by the entity's id returns the patched row. */
  lemma UpdateEntityThenGet(db: Db, entityId: Value, data: Row)
    requires UpdateEntity(db, entityId, data).Ok? && UpdateEntity(db, entityId, data).value.1.Some?
    ensures var (db', row) := (UpdateEntity(db, entityId, data).value.0, UpdateEntity(db, entityId, data).value.1.value);
      GetRow(EntitiesTable(db'), IdOf(row)) == Some(row)
  {
    UpdateThenGet(EntitiesTable(db), entityId, data);
  }

  /**
   * `delete_entity`: `False` and no change for a missing entity; an entity
   * that status records reference cannot be deleted.
   */
  function DeleteEntity(db: Db, entityId: Value): (r: Result<(Db, bool), Error>)
    ensures r == Ok((db, false)) <==> !HasId(EntitiesTable(db), entityId)
    ensures r.Err? <==> HasId(EntitiesTable(db), entityId) && Referenced(db.statusRecords, "entity_id", entityId)
    ensures r.Err? ==> r.error == IntegrityError("entity_id")
    ensures r.Ok? ==> r.value.0 == db.(entities := r.value.0.entities)
    ensures r.Ok? && r.value.1 ==> RemovedOnce(db.entities, entityId, r.value.0.entities)
  {
    if GetRow(EntitiesTable(db), entityId).None? then Ok((db, false))
    else
      var (t, deleted) :- DeleteParent(EntitiesTable(db), entityId, db.statusRecords, "entity_id");
      Ok((db.(entities := t.rows), deleted))
  }

  /** The district ids the lookup searches for an address, or the error that stops it. */
  function LookupDistrictIds(db: Db, address: string, geo: Provider, geocode: Geocode): (r: Result<seq<Value>, Error>)
    ensures geocode(address).Err? ==> r == Err(geocode(address).error)
    ensures geocode(address).Ok? ==> r.Ok? && forall id :: id in r.value <==>
      exists i :: 0 <= i < |db.districts| && IdOf(db.districts[i]) == id &&
                  DistrictMatches(db.districts[i], QueryPoint(geocode(address).value.0, geocode(address).value.1), geo.loads, geo.contains)
  {
    var (lat, lon) :- geocode(address);
    Ok(DistrictsContainingPoint(db.districts, lat, lon, geo.loads, geo.contains))
  }

  /** `lookup_entities_by_address`. */
  function LookupEntitiesByAddress(db: Db, address: string, geo: Option<Provider>, geocode: Geocode): (r: Result<seq<EntityView>, Error>)
    ensures geo.None? ==> r == Err(ValueError("Geo provider is required for address lookup"))
    ensures geo.Some? && LookupDistrictIds(db, address, geo.value, geocode).Err? ==> r == Err(LookupDistrictIds(db, address, geo.value, geocode).error)
    ensures r.Ok? ==> geo.Some? && LookupDistrictIds(db, address, geo.value, geocode).Ok?
    ensures r.Ok? ==> forall e :: e in EntityRows(r.value) <==>
      e in db.entities && "district_id" in e && e["district_id"] in LookupDistrictIds(db, address, geo.value, geocode).value
    ensures r.Ok? ==> forall i :: 0 <= i < |r.value| ==> r.value[i].districtName == DistrictName(db, r.value[i].row)
  {
    if geo.None? then Err(ValueError("Geo provider is required for address lookup"))
    else
      var ids :- LookupDistrictIds(db, address, geo.value, geocode);
      var found :- FilterMultiple(db.backend, EntitiesTable(db), map[], map["district_id" := ids]);
      var r := WithDistrictNames(db, found);
      assert EntityRows(r) == found;
      Ok(r)
  }
}
