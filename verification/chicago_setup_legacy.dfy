/**
 * The older Chicago City Council setup script: the council jurisdiction
 * under the fixed Chicago id, and alderperson entities that carry their
 * ward as a plain `district` string instead of a district record.
 *
 * The script was written against columns the ORM models no longer have:
 * `Jurisdiction` has no `parent_jurisdiction_id`, and `Entity` has no
 * `location_module_id` (its `district` is a relationship, not a string).
 * The declarative constructor refuses a keyword that names no attribute,
 * so both steps raise TypeError before anything is added. The functions
 * below model the script as written; `CouncilJurisdictionArgs` and
 * `IntendedAldermen` are the rows it evidently meant to build.
 */
module ChicagoSetupLegacy {
  import opened Wrappers
  import opened PyJson
  import opened Models
  import opened SqlStore
  import opened Database
  import opened ChicagoSetup

  /** `CHICAGO_ID`, f47ac10b-58cc-4372-a567-0e02b2c3d479, as its 128-bit value. */
  const ChicagoId: Value := Uuid(0xf47ac10b_58cc_4372_a567_0e02b2c3d479)

  /** `CHICAGO_COUNCIL_ID`, a7b8c9d0-e1f2-3a4b-5c6d-7e8f9a0b1c2d. */
  const ChicagoCouncilId: Value := Uuid(0xa7b8c9d0_e1f2_3a4b_5c6d_7e8f9a0b1c2d)

  /** The message the declarative constructor raises for a keyword that names no attribute. */
  const InvalidKeyword := "invalid keyword argument"

  /** The keyword arguments `create_chicago_council_jurisdiction` passes to `Jurisdiction(...)` (the `created_at` clock value is left out). */
  function CouncilJurisdictionArgs(): (r: map<string, Value>)
    ensures r.Keys == {"id", "name", "description", "level", "parent_jurisdiction_id"}
    ensures r["id"] == ChicagoCouncilId && r["parent_jurisdiction_id"] == ChicagoId && r["id"] != r["parent_jurisdiction_id"]
    ensures r["level"] == Str("city_council")
  {
    map["id" := ChicagoCouncilId,
        "name" := Str("Chicago City Council"),
        "description" := Str("Legislative branch of the City of Chicago government consisting of 50 alderpersons"),
        "level" := Str("city_council"),
        "parent_jurisdiction_id" := ChicagoId]
  }

  /**
   * `create_chicago_council_jurisdiction` as written: building the row
   * fails on the unknown keyword, and the handler only catches database
   * errors, so the TypeError propagates and nothing is added.
   */
  function CreateCouncilJurisdiction(): (r: Result<Value, Error>)
    ensures r.Ok? <==> !UnknownField(JurisdictionsSchema, CouncilJurisdictionArgs())
    ensures r.Err? ==> r.error == TypeError(InvalidKeyword)
    ensures r.Ok? ==> r.value == ChicagoCouncilId
  {
    if UnknownField(JurisdictionsSchema, CouncilJurisdictionArgs()) then Err(TypeError(InvalidKeyword))
    else Ok(ChicagoCouncilId)
  }

  /** The council jurisdiction is never created: `parent_jurisdiction_id` is not a column. */
  lemma CouncilJurisdictionAlwaysRaises()
    ensures CreateCouncilJurisdiction() == Err(TypeError(InvalidKeyword))
  {
    assert "parent_jurisdiction_id" in CouncilJurisdictionArgs() && "parent_jurisdiction_id" !in JurisdictionsSchema.columns;
  }

  /** The keyword arguments of `Entity(...)` for one record, in the older script. */
  function LegacyEntityArgs(item: map<string, Value>, jurisdictionId: Value, entityId: Value): (r: map<string, Value>)
    ensures "location_module_id" in r && "district" in r && "name" in r
    ensures r["name"] == Get(item, "alderman", Str("")) && r["district"] == Str(WardName(item))
  {
    var c := ContactOf(item);
    map["id" := entityId, "name" := Get(item, "alderman", Str("")), "title" := Str("Alderperson"),
        "entity_type" := Str("alderman"), "jurisdiction_id" := jurisdictionId, "location_module_id" := Str("chicago"),
        "email" := c.email, "phone" := c.phone, "website" := c.website, "address" := Str(c.address),
        "district" := Str(WardName(item))]
  }

  /**
   * The loop of `create_aldermen_entities` from record `i` on, against an
   * `Entity` with the given columns: a record that is not a dict has no
   * `get`, and `Entity(...)` raises on a keyword that is not a column. Only
   * when every call succeeds are the rows added and committed.
   */
  function LegacyEntities(schema: Schema, items: seq<Value>, jurisdictionId: Value, entityIds: nat -> Value, i: nat)
    : (r: Result<seq<Row>, Error>)
    requires i <= |items|
    ensures i == |items| ==> r == Ok([])
    ensures i < |items| && !items[i].Obj? ==> r == Err(AttributeError("get"))
    ensures i < |items| && items[i].Obj? && UnknownField(schema, LegacyEntityArgs(items[i].fields, jurisdictionId, entityIds(i))) ==>
      r == Err(TypeError(InvalidKeyword))
    ensures r.Ok? ==> |r.value| == |items| - i
    decreases |items| - i
  {
    if i == |items| then Ok([])
    else if !items[i].Obj? then Err(AttributeError("get"))
    else
      var args := LegacyEntityArgs(items[i].fields, jurisdictionId, entityIds(i));
      if UnknownField(schema, args) then Err(TypeError(InvalidKeyword))
      else
        var rest :- LegacyEntities(schema, items, jurisdictionId, entityIds, i + 1);
        Ok([args] + rest)
  }

  /**
   * `create_aldermen_entities` as written: an empty list commits nothing and
   * returns no entities; any other list raises at its first record, with
   * TypeError when that record is a dict.
   */
  function CreateAldermenLegacy(items: seq<Value>, jurisdictionId: Value, entityIds: nat -> Value): (r: Result<seq<Row>, Error>)
    ensures r.Ok? <==> |items| == 0
    ensures |items| == 0 ==> r == Ok([])
    ensures |items| > 0 && items[0].Obj? ==> r == Err(TypeError(InvalidKeyword))
    ensures |items| > 0 && !items[0].Obj? ==> r == Err(AttributeError("get"))
  {
    if |items| > 0 && items[0].Obj? then
      var args := LegacyEntityArgs(items[0].fields, jurisdictionId, entityIds(0));
      assert "location_module_id" in args && "location_module_id" !in EntitiesSchema.columns;
      LegacyEntities(EntitiesSchema, items, jurisdictionId, entityIds, 0)
    else LegacyEntities(EntitiesSchema, items, jurisdictionId, entityIds, 0)
  }

  /** An `Entity` as the older script means to build it. */
  datatype LegacyAlderperson = LegacyAlderperson(
    id: Value, name: Value, title: string, entityType: string, jurisdictionId: Value,
    locationModuleId: string, contact: Contact, district: string)

  /**
   * What `create_aldermen_entities` evidently intends: one entity per
   * record, its ward kept as the string "Ward {ward}". A null `alderman`
   * still fails the NOT NULL name at the commit.
   */
  function IntendedAldermen(items: seq<Value>, jurisdictionId: Value, entityIds: nat -> Value)
    : (r: Result<seq<LegacyAlderperson>, Error>)
    ensures r.Ok? <==> AllDicts(items) && !Nameless(items)
    ensures AllDicts(items) && Nameless(items) ==> r == Err(IntegrityError("name"))
    ensures r.Ok? ==> |r.value| == |items|
    ensures r.Ok? ==> forall i :: 0 <= i < |items| ==>
      r.value[i].id == entityIds(i) && r.value[i].jurisdictionId == jurisdictionId &&
      r.value[i].title == "Alderperson" && r.value[i].entityType == "alderman" &&
      r.value[i].locationModuleId == "chicago" && r.value[i].contact == ContactOf(items[i].fields) &&
      r.value[i].district == WardName(items[i].fields)
  {
    if !AllDicts(items) then Err(AttributeError("get"))
    else if Nameless(items) then Err(IntegrityError("name"))
    else Ok(seq(|items|, i requires 0 <= i < |items| && items[i].Obj? =>
      var item := items[i].fields;
      LegacyAlderperson(entityIds(i), Get(item, "alderman", Str("")), "Alderperson", "alderman", jurisdictionId,
                        "chicago", ContactOf(item), WardName(item))))
  }

  /**
   * The intended entities agree with the newer script on every alderperson:
   * same name, title, type and contact fields, and the district string is
   * the name of the district the newer script links the entity to.
   */
  lemma LegacyAgreesWithDistrictVariant(items: seq<Value>, jurisdictionId: Value, districtIds: nat -> Value, entityIds: nat -> Value, i: nat)
    requires AllDicts(items) && !Nameless(items) && i < |items|
    ensures var old' := IntendedAldermen(items, jurisdictionId, entityIds).value[i];
      var r := CreateAldermen(items, jurisdictionId, districtIds, entityIds).value;
      var new' := r.1[i];
      old'.name == new'.name && old'.title == new'.title && old'.entityType == new'.entityType &&
      old'.contact == new'.contact &&
      exists k :: 0 <= k < |r.0| && r.0[k].name == old'.district && r.0[k].id == new'.districtId
  {
    AldermenLinkedToWards(items, jurisdictionId, districtIds, entityIds, i);
  }
}
