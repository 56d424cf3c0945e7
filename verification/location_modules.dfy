/**
 * Location modules, which turn an address into representatives: the
 * default module's mock data and address check, and the module registry
 * with its fallback to the default module.
 */
module LocationModules {
  import opened Wrappers
  import opened PyJson
  import opened Models

  // ---------------------------------------------------------------------
  // DefaultLocationModule

  /** An `Entity`: name, title, type, jurisdiction and the nested contact info. */
  datatype MockEntity = MockEntity(name: string, title: string, entityType: string, jurisdictionId: Value, contact: ContactInfo)

  /** `get_entity_types`. */
  const DefaultEntityTypes: seq<string> := ["default_rep", "default_sen", "default_alder"]

  /** The keyword arguments the default module passes to `Entity(...)` for one official. */
  datatype EntityArgs = EntityArgs(
    name: string, title: string, entityType: string, jurisdictionId: Value,
    email: string, phone: string, website: string, address: string)

  /** The message pydantic gives a `str` field that receives something other than a string. */
  const NotAString := "jurisdiction_id: Input should be a valid string"

  /**
   * `Entity(**args)` as the pydantic model in `models.py` validates it:
   * `jurisdiction_id: str` accepts only a string, so a `uuid.UUID` raises
   * a ValidationError (a ValueError). `email`, `phone`, `website` and
   * `address` are not fields of `Entity`, whose contact data sits in the
   * nested `contact_info`; extra keywords are ignored, so `contact_info`
   * keeps its empty default.
   */
  function BuildEntity(a: EntityArgs): (r: Result<MockEntity, Error>)
    ensures r.Ok? <==> a.jurisdictionId.Str?
    ensures r.Err? ==> r.error == ValueError(NotAString)
    ensures r.Ok? ==> r.value == MockEntity(a.name, a.title, a.entityType, a.jurisdictionId, EmptyContactInfo)
  {
    if !a.jurisdictionId.Str? then Err(ValueError(NotAString))
    else Ok(MockEntity(a.name, a.title, a.entityType, a.jurisdictionId, EmptyContactInfo))
  }

  /** The three officials' keyword arguments, each with its own jurisdiction id. */
  function MockArgs(ids: (Value, Value, Value)): (r: seq<EntityArgs>)
    ensures |r| == 3 && r[0].jurisdictionId == ids.0 && r[1].jurisdictionId == ids.1 && r[2].jurisdictionId == ids.2
    ensures forall i :: 0 <= i < 3 ==> r[i].entityType == DefaultEntityTypes[i]
  {
    [EntityArgs("Jane Doe", "Representative", "default_rep", ids.0,
                "jane.doe@example.gov", "555-123-4567", "https://example.gov/janedoe", "123 Government St, City, State 12345"),
     EntityArgs("John Smith", "Senator", "default_sen", ids.1,
                "john.smith@example.gov", "555-765-4321", "https://example.gov/johnsmith", "456 Capitol Ave, City, State 12345"),
     EntityArgs("Bob James", "Alderman", "default_alder", ids.2,
                "bob.james@example.gov", "555-12e-4567", "https://example.gov/bobjames", "124 Government St, City, State 12345")]
  }

  /** Building a list of entities in order: the first failing construction is raised. */
  function BuildAll(args: seq<EntityArgs>): (r: Result<seq<MockEntity>, Error>)
    ensures r.Ok? <==> forall i :: 0 <= i < |args| ==> args[i].jurisdictionId.Str?
    ensures r.Ok? ==> |r.value| == |args| && forall i :: 0 <= i < |args| ==> Ok(r.value[i]) == BuildEntity(args[i])
    ensures r.Err? ==> r.error == ValueError(NotAString)
  {
    if |args| == 0 then Ok([])
    else
      var e :- BuildEntity(args[0]);
      var rest :- BuildAll(args[1..]);
      assert forall i :: 1 <= i < |args| ==> args[1..][i - 1] == args[i];
      Ok([e] + rest)
  }

  /**
   * `find_representatives_by_address` as written: the three `Entity(...)`
   * calls, whose jurisdiction ids are the `uuid4()` values `ids`. The
   * first call already fails validation, so the method raises for every
   * address.
   */
  function FindRepresentatives(address: string, ids: (nat, nat, nat)): (r: Result<seq<MockEntity>, Error>)
    ensures r.Ok? <==> forall i :: 0 <= i < 3 ==> MockArgs((Uuid(ids.0), Uuid(ids.1), Uuid(ids.2)))[i].jurisdictionId.Str?
    ensures r.Err? ==> r.error == ValueError(NotAString)
  {
    BuildAll(MockArgs((Uuid(ids.0), Uuid(ids.1), Uuid(ids.2))))
  }

  /** Whatever the address and the drawn ids, the lookup raises the validation error. */
  lemma FindRepresentativesAlwaysRaises(address: string, ids: (nat, nat, nat))
    ensures FindRepresentatives(address, ids) == Err(ValueError(NotAString))
  {
    assert !MockArgs((Uuid(ids.0), Uuid(ids.1), Uuid(ids.2)))[0].jurisdictionId.Str?;
  }

  /** Even with string ids, the flat contact keywords are dropped: every built entity has an empty `contact_info`. */
  lemma StringIdsStillLoseContact(ids: (string, string, string))
    ensures var r := BuildAll(MockArgs((Str(ids.0), Str(ids.1), Str(ids.2))));
      r.Ok? && |r.value| == 3 && forall i :: 0 <= i < 3 ==> r.value[i].contact == EmptyContactInfo
  {
    var args := MockArgs((Str(ids.0), Str(ids.1), Str(ids.2)));
    assert forall i :: 0 <= i < 3 ==> args[i].jurisdictionId.Str?;
  }

  /** The contact info the keywords evidently mean, nested as `contact_info` expects it. */
  function IntendedContact(a: EntityArgs): ContactInfo {
    ContactInfo(Some(a.email), Some(a.phone), Some(a.website), Some(a.address))
  }

  /**
   * What the method evidently intends: the three mock officials, each with
   * a string jurisdiction id and the contact details nested in
   * `contact_info`.
   */
  function IntendedRepresentatives(address: string, ids: (string, string, string)): (r: seq<MockEntity>)
    ensures |r| == 3
    ensures forall i :: 0 <= i < 3 ==>
      var a := MockArgs((Str(ids.0), Str(ids.1), Str(ids.2)))[i];
      r[i] == MockEntity(a.name, a.title, a.entityType, a.jurisdictionId, IntendedContact(a))
  {
    var args := MockArgs((Str(ids.0), Str(ids.1), Str(ids.2)));
    seq(3, i requires 0 <= i < 3 =>
      MockEntity(args[i].name, args[i].title, args[i].entityType, args[i].jurisdictionId, IntendedContact(args[i])))
  }

  /**
   * The intended officials do not depend on the address, each entity type
   * is used once, every contact field is set, and apart from the contact
   * they are what validation builds from the same keywords.
   */
  lemma RepresentativesIgnoreAddress(a: string, b: string, ids: (string, string, string))
    ensures IntendedRepresentatives(a, ids) == IntendedRepresentatives(b, ids)
    ensures var r := IntendedRepresentatives(a, ids);
      forall i :: 0 <= i < 3 ==>
        (r[i].entityType == DefaultEntityTypes[i] &&
         r[i].contact.email.Some? && r[i].contact.phone.Some? && r[i].contact.website.Some? && r[i].contact.address.Some?)
    ensures var r := IntendedRepresentatives(a, ids);
      var built := BuildAll(MockArgs((Str(ids.0), Str(ids.1), Str(ids.2))));
      built.Ok? && forall i :: 0 <= i < 3 ==> r[i] == built.value[i].(contact := r[i].contact)
  {
    var args := MockArgs((Str(ids.0), Str(ids.1), Str(ids.2)));
    assert forall i :: 0 <= i < 3 ==> args[i].jurisdictionId.Str?;
  }

  /** A longitude-latitude position. */
  type Position = (real, real)

  /** A GeoJSON Feature with a `name` property and a Polygon geometry given by its rings. */
  datatype PolygonFeature = PolygonFeature(name: string, rings: seq<seq<Position>>)

  /** A ring of a GeoJSON polygon: at least four positions, the last one repeating the first. */
  predicate ClosedRing(ring: seq<Position>) {
    |ring| >= 4 && ring[0] == ring[|ring| - 1]
  }

  /** `get_jurisdiction_boundaries`: a FeatureCollection of one feature, "Default Jurisdiction". */
  function JurisdictionBoundaries(): (r: seq<PolygonFeature>)
    ensures |r| == 1 && r[0].name == "Default Jurisdiction"
    ensures forall k :: 0 <= k < |r[0].rings| ==> ClosedRing(r[0].rings[k])
  {
    [PolygonFeature("Default Jurisdiction", [[(-100.0, 40.0), (-100.0, 45.0), (-90.0, 45.0), (-90.0, 40.0), (-100.0, 40.0)]])]
  }

  /** `validate_address`: any non-empty address is accepted. */
  function ValidateAddress(address: string): (r: bool)
    ensures r <==> address != ""
  {
    if Truthy(Str(address)) then true else false
  }

  // ---------------------------------------------------------------------
  // factory

  /** A location module class; the default module is the only one the repository defines. */
  datatype ModuleClass = DefaultLocationModule | OtherModule(className: string)

  /** `module.__name__`. */
  function ClassName(c: ModuleClass): string {
    match c
    case DefaultLocationModule => "DefaultLocationModule"
    case OtherModule(n) => n
  }

  /** `_location_modules`. */
  type ModuleRegistry = map<string, ModuleClass>

  const InitialModules: ModuleRegistry := map["default" := DefaultLocationModule]

  /** `register_location_module`: adds or overwrites one entry. */
  function RegisterModule(reg: ModuleRegistry, id: string, c: ModuleClass): (r: ModuleRegistry)
    ensures r.Keys == reg.Keys + {id}
    ensures r[id] == c
    ensures forall other :: other in reg && other != id ==> r[other] == reg[other]
  {
    reg[id := c]
  }

  /** `get_location_module`: the registered class, or the default module for an unknown id. */
  function GetModule(reg: ModuleRegistry, id: string): (r: ModuleClass)
    ensures id in reg ==> r == reg[id]
    ensures id !in reg ==> r == DefaultLocationModule
  {
    if id in reg then reg[id] else DefaultLocationModule
  }

  /** `list_available_modules`: each registered id with its class name. */
  function ListModules(reg: ModuleRegistry): (r: map<string, string>)
    ensures r.Keys == reg.Keys
    ensures forall id :: id in r ==> r[id] == ClassName(reg[id])
  {
    map id | id in reg :: ClassName(reg[id])
  }

  /** After registering, the id yields the registered class, and every other id yields what it did before. */
  lemma RegisterThenGet(reg: ModuleRegistry, id: string, c: ModuleClass, other: string)
    ensures GetModule(RegisterModule(reg, id, c), id) == c
    ensures other != id ==> GetModule(RegisterModule(reg, id, c), other) == GetModule(reg, other)
    ensures ListModules(RegisterModule(reg, id, c))[id] == ClassName(c)
  {
  }

  /** At start only "default" is registered, and every id yields the default module. */
  lemma InitiallyOnlyDefault(id: string)
    ensures ListModules(InitialModules) == map["default" := "DefaultLocationModule"]
    ensures GetModule(InitialModules, id) == DefaultLocationModule
  {
  }
}
