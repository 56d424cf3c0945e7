/**
 * The two location configurations the orchestrator imports, Chicago and
 * Illinois: their ordered steps, and `get_importers`, which binds the
 * three importers to the store and their data sources to fetch outcomes.
 *
 * The importers' `import_data(**config)` calls are modelled as Python
 * binds keyword arguments: a missing required argument raises TypeError,
 * a missing optional one takes its default.
 */
module Locations {
  import opened Wrappers
  import opened PyJson
  import opened Models
  import opened SqlStore
  import opened Database
  import opened GeoSqlite
  import opened GeoProvider
  import opened Orchestrator
  import JurisdictionImporter
  import DistrictImporter
  import EntityImporter
  import GeoJsonSource
  import OpenStatesSource

  // ---------------------------------------------------------------------
  // Binding the importers

  /**
   * What the importers need beyond the store: the geo provider, `json.loads`,
   * and the `uuid4()` values a call draws, which may depend on the store.
   */
  datatype Env = Env(geo: Provider, loads: Loads, uuid4: Db -> nat -> Value)

  /** A required keyword argument of `import_data`. */
  function Arg(config: map<string, Value>, key: string): (r: Result<Value, Error>)
    ensures key in config <==> r.Ok?
    ensures r.Ok? ==> r.value == config[key]
    ensures r.Err? ==> r.error == TypeError("import_data() missing required argument: '" + key + "'")
  {
    if key in config then Ok(config[key]) else Err(TypeError("import_data() missing required argument: '" + key + "'"))
  }

  /** An optional string keyword argument: its default when absent; `None` reads as "". */
  function StrArg(config: map<string, Value>, key: string, default: string): (r: Result<string, Error>)
    ensures key !in config ==> r == Ok(default)
    ensures key in config && config[key].Str? ==> r == Ok(config[key].s)
  {
    if key !in config then Ok(default)
    else match config[key]
      case Str(s) => Ok(s)
      case Null => Ok("")
      case _ => Err(TypeError("expected str for '" + key + "'"))
  }

  /** A stored row as the value an importer returns. */
  function RowValue(row: Option<Row>): Value {
    if row.Some? then Obj(row.value) else Null
  }

  function RowValues(rows: seq<Option<Row>>): (r: seq<Value>)
    ensures |r| == |rows|
  {
    seq(|rows|, i requires 0 <= i < |rows| => RowValue(rows[i]))
  }

  /** Turns an importer outcome into the orchestrator's (store, result) pair: a raise leaves the store as it was. */
  function Lift(db: Db, r: Result<(Db, Value), Error>): (p: (Db, Result<Value, Error>))
    ensures r.Ok? ==> p == (r.value.0, Ok(r.value.1))
    ensures r.Err? ==> p == (db, Err(r.error))
  {
    if r.Ok? then (r.value.0, Ok(r.value.1)) else (db, Err(r.error))
  }

  /** `JurisdictionImporter.import_data(**config)`. */
  function RunJurisdiction(env: Env, db: Db, config: map<string, Value>): (r: Result<(Db, Value), Error>)
    ensures r.Ok? ==> "name" in config && "description" in config && "level" in config
    ensures r.Ok? ==> r.value.1.Obj? && "operation" in r.value.1.fields
    ensures r.Ok? ==> var op := r.value.1.fields["operation"]; op == Str("created") || op == Str("updated")
    ensures !("name" in config && "description" in config && "level" in config) ==> r.Err? && r.error.TypeError?
  {
    var name :- Arg(config, "name");
    var description :- Arg(config, "description");
    var level :- Arg(config, "level");
    var res :- JurisdictionImporter.ImportJurisdiction(db, name, description, level, Get(config, "id", Null), env.uuid4(db)(0));
    var operation := if res.1 == JurisdictionImporter.Created then "created" else "updated";
    Ok((res.0, Obj(map["operation" := Str(operation), "jurisdiction" := RowValue(res.2)])))
  }

  /** The options of `DistrictImporter.import_data` from a config. */
  function DistrictOptions(config: map<string, Value>): (r: Result<DistrictImporter.Options, Error>)
    ensures "name_format" !in config && "code_field" !in config && "district_name_property" !in config && "district_name_prefix" !in config ==>
      r == Ok(DistrictImporter.DefaultOptions)
  {
    var nameFormat :- StrArg(config, "name_format", "District {code}");
    var codeField :- StrArg(config, "code_field", "district_number");
    var property :- StrArg(config, "district_name_property", "");
    var prefix :- StrArg(config, "district_name_prefix", "");
    Ok(DistrictImporter.Options(nameFormat, codeField, property, prefix))
  }

  /** `DistrictImporter.import_data(**config)`. */
  function RunDistricts(env: Env, db: Db, config: map<string, Value>): (r: Result<(Db, Value), Error>)
    ensures "jurisdiction_name" !in config ==> r.Err? && r.error.TypeError?
    ensures r.Ok? ==> r.value.1.Obj?
    ensures r.Ok? ==> var f := r.value.1.fields;
      && f.Keys == {"districts_created", "districts_updated", "districts_error", "districts_total", "districts"}
      && f["districts_total"].Int? && f["districts"].Arr? && f["districts_total"].i == |f["districts"].items|
  {
    var jurisdictionName :- Arg(config, "jurisdiction_name");
    var o :- DistrictOptions(config);
    var res :- DistrictImporter.ImportDistricts(db, jurisdictionName, Get(config, "data", Null), Get(config, "geojson_data", Null),
                                                o, env.geo, env.loads, env.uuid4(db));
    Ok((res.0, DistrictsReport(res.1)))
  }

  /** The dict `DistrictImporter.import_data` returns. */
  function DistrictsReport(n: DistrictImporter.DistrictImportResult): (r: Value)
    requires n.total == |n.districts|
    ensures r.Obj?
    ensures var f := r.fields;
      && f.Keys == {"districts_created", "districts_updated", "districts_error", "districts_total", "districts"}
      && f["districts_total"] == Int(n.total) && f["districts"].Arr? && n.total == |f["districts"].items|
      && f["districts_created"] == Int(n.created) && f["districts_updated"] == Int(n.updated) && f["districts_error"] == Int(n.errors)
  {
    Obj(map["districts_created" := Int(n.created), "districts_updated" := Int(n.updated),
            "districts_error" := Int(n.errors), "districts_total" := Int(n.total),
            "districts" := Arr(RowValues(n.districts))])
  }

  /** `EntityImporter.import_data(**config)`. */
  function RunEntities(env: Env, db: Db, config: map<string, Value>): (r: Result<(Db, Value), Error>)
    ensures !("data" in config && "jurisdiction_name" in config && "entity_type" in config && "title" in config && "mapping" in config) ==>
      r.Err? && r.error.TypeError?
    ensures r.Ok? ==> r.value.1.Obj?
    ensures r.Ok? ==> var f := r.value.1.fields;
      && f.Keys == {"entities_created", "entities_updated", "entities_error", "entities_total", "entities"}
      && f["entities_total"].Int? && f["entities"].Arr? && f["entities_total"].i == |f["entities"].items|
      && f["entities_created"].Int? && f["entities_updated"].Int?
      && f["entities_created"].i + f["entities_updated"].i == f["entities_total"].i
  {
    var data :- Arg(config, "data");
    var jurisdictionName :- Arg(config, "jurisdiction_name");
    var entityType :- Arg(config, "entity_type");
    var title :- Arg(config, "title");
    var mapping :- Arg(config, "mapping");
    var res :- EntityImporter.ImportEntities(db, data, jurisdictionName, entityType, title, mapping,
                                             Get(config, "data_key", Null), env.uuid4(db));
    Ok((res.0, EntitiesReport(res.1)))
  }

  /** The dict `EntityImporter.import_data` returns. */
  function EntitiesReport(n: EntityImporter.EntityImportResult): (r: Value)
    requires |n.entities| == n.created + n.updated
    ensures r.Obj?
    ensures var f := r.fields;
      && f.Keys == {"entities_created", "entities_updated", "entities_error", "entities_total", "entities"}
      && f["entities_total"].Int? && f["entities"].Arr? && f["entities_total"].i == |f["entities"].items|
      && f["entities_created"] == Int(n.created) && f["entities_updated"] == Int(n.updated)
      && f["entities_error"] == Int(n.errors) && f["entities_total"].i == n.created + n.updated
  {
    Obj(map["entities_created" := Int(n.created), "entities_updated" := Int(n.updated),
            "entities_error" := Int(n.errors), "entities_total" := Int(|n.entities|),
            "entities" := Arr(RowValues(n.entities))])
  }

  const JurisdictionImporterKey := "jurisdiction_importer"
  const DistrictImporterKey := "district_importer"
  const EntityImporterKey := "entity_importer"

  /** The `"importers"` map both locations return. */
  function Importers(env: Env): (r: map<string, Importer<Db>>)
    ensures r.Keys == {JurisdictionImporterKey, DistrictImporterKey, EntityImporterKey}
  {
    map[JurisdictionImporterKey := Importer((c: map<string, Value>) => Ok(JurisdictionImporter.ValidateJurisdictionImport(c.Keys)),
                                            (db: Db, c: map<string, Value>) => Lift(db, RunJurisdiction(env, db, c))),
        DistrictImporterKey := Importer((c: map<string, Value>) => Ok(DistrictImporter.ValidateDistrictImport(c.Keys)),
                                        (db: Db, c: map<string, Value>) => Lift(db, RunDistricts(env, db, c))),
        EntityImporterKey := Importer((c: map<string, Value>) => Ok(EntityImporter.ValidateEntityImport(c.Keys)),
                                      (db: Db, c: map<string, Value>) => Lift(db, RunEntities(env, db, c)))]
  }

  // ---------------------------------------------------------------------
  // Properties of a location's steps

  /** Every step's importer key, and its data source key when it has one, resolves in the wiring. */
  predicate Resolves<S>(steps: seq<Step>, w: Wiring<S>) {
    forall i :: 0 <= i < |steps| ==> ImporterKnown(steps[i], w) && !SourceMissing(steps[i], w)
  }

  /** The step keys name only the given importer and data source keys. */
  predicate KeysWithin(steps: seq<Step>, importerKeys: set<string>, sourceKeys: set<string>) {
    forall i :: 0 <= i < |steps| ==>
      && steps[i].importer.Str? && steps[i].importer.s in importerKeys && Truthy(steps[i].importer)
      && (steps[i].dataSource == Null || (steps[i].dataSource.Str? && steps[i].dataSource.s in sourceKeys))
  }

  /** Steps whose keys lie within a wiring's key sets resolve in it. */
  lemma KeysWithinResolve<S>(steps: seq<Step>, w: Wiring<S>)
    requires KeysWithin(steps, w.importers.Keys, w.sources.Keys)
    ensures Resolves(steps, w)
  {
  }

  /** A step of a resolving location never fails for an unknown importer or data source. */
  lemma ResolvedStepsNeverFailOnKeys<S>(s: S, steps: seq<Step>, w: Wiring<S>, kwargs: Kwargs, prepare: Prepare, i: nat)
    requires Resolves(steps, w) && i < |steps|
    ensures var r := RunStep(s, steps[i], w, kwargs, prepare).1;
      r.Some? && r.value.Failed? ==> !r.value.failure.InvalidImporter? && !r.value.failure.InvalidDataSource?
  {
    assert ImporterKnown(steps[i], w) && !SourceMissing(steps[i], w);
  }

  /** The step imports the jurisdiction `name`. */
  predicate DeclaresJurisdiction(step: Step, name: Value) {
    step.importer == Str(JurisdictionImporterKey) && "name" in step.config && step.config["name"] == name
  }

  /** Every step that names a jurisdiction names one an earlier step imports. */
  predicate JurisdictionsDeclaredFirst(steps: seq<Step>) {
    forall i :: 0 <= i < |steps| && "jurisdiction_name" in steps[i].config ==>
      exists j :: 0 <= j < i && DeclaresJurisdiction(steps[j], steps[i].config["jurisdiction_name"])
  }

  /** What `validate_import` says of a step's config once the orchestrator has added `data`. */
  predicate ValidWithData(step: Step) {
    var keys := step.config.Keys + {"data"};
    match step.importer
    case Str(k) =>
      if k == JurisdictionImporterKey then JurisdictionImporter.ValidateJurisdictionImport(keys)
      else if k == DistrictImporterKey then DistrictImporter.ValidateDistrictImport(keys)
      else if k == EntityImporterKey then EntityImporter.ValidateEntityImport(keys)
      else false
    case _ => false
  }

  // ---------------------------------------------------------------------
  // Default paths

  /** `os.path.join(Path(DATA_DIR or "data"), file)`. */
  function DataPath(dataDir: Option<string>, file: string): (r: string)
    ensures !GeoJsonSource.Given(dataDir) ==> r == "data/" + file
    ensures GeoJsonSource.Given(dataDir) ==> r == dataDir.value + "/" + file
  {
    (if GeoJsonSource.Given(dataDir) then dataDir.value else "data") + "/" + file
  }

  /** `path or os.path.join(...)`: a non-empty given path wins. */
  function PathOr(path: Option<string>, dataDir: Option<string>, file: string): (r: string)
    ensures |r| > 0
    ensures GeoJsonSource.Given(path) ==> r == path.value
    ensures !GeoJsonSource.Given(path) ==> r == DataPath(dataDir, file)
  {
    if GeoJsonSource.Given(path) then path.value else DataPath(dataDir, file)
  }

  /** A URL that a source with a file path never contacts. */
  const NoRemote := GeoJsonSource.Remote(0, None, 0, Ok(Null))

  /** The outcome of `fetch_data` of a `GeoJSONDataSource(file_path=path)`. */
  function GeoJsonFile(path: string, readFile: GeoJsonSource.ReadFile): (r: Result<Value, Error>)
    requires |path| > 0
    ensures r.Ok? ==> GeoJsonSource.Validate(r.value).Ok? && readFile(path) == r
  {
    var src := GeoJsonSource.Source(Some(path), None, GeoJsonSource.DefaultStreamThreshold);
    assert GeoJsonSource.NewSource(Some(path), None, GeoJsonSource.DefaultStreamThreshold) == Ok(src);
    GeoJsonSource.FetchData(src, readFile, NoRemote)
  }

  // ---------------------------------------------------------------------
  // Chicago

  const ChicagoCouncil := "Chicago City Council"

  const ChicagoPhone := Arr([Str("ward_phone"), Str("city_hall_phone")])
  const ChicagoWebsite := Str("website.url")

  const ChicagoMapping: map<string, Value> := map[
    "name" := Str("alderman"),
    "district_code" := Str("ward"),
    "email" := Str("email"),
    "phone" := ChicagoPhone,
    "website" := ChicagoWebsite,
    "address" := Arr([Str("address"), Str("zipcode")])]

  const ChicagoSteps: seq<Step> := [
    Step(Some("Import Chicago City Council jurisdiction"), Str(JurisdictionImporterKey), Null,
         map["name" := Str(ChicagoCouncil),
             "description" := Str("Legislative branch of the City of Chicago government consisting of 50 alderpersons"),
             "level" := Str("city_council")]),
    Step(Some("Import Chicago Wards GeoJSON"), Str(DistrictImporterKey), Str("wards_geojson"),
         map["jurisdiction_name" := Str(ChicagoCouncil),
             "district_name_property" := Str("ward"),
             "district_name_prefix" := Str("Ward ")]),
    Step(Some("Import Chicago Alderpersons"), Str(EntityImporterKey), Str("alderperson_data"),
         map["jurisdiction_name" := Str(ChicagoCouncil),
             "entity_type" := Str("alderperson"),
             "title" := Str("Alderperson"),
             "mapping" := Obj(ChicagoMapping)])]

  /**
   * `ChicagoLocationConfig(geojson_path)` with its importers; the alderperson
   * data source is an outcome supplied from outside.
   */
  function Chicago(env: Env, dataDir: Option<string>, geojsonPath: Option<string>,
                   readFile: GeoJsonSource.ReadFile, alderpersons: Result<Value, Error>): (r: Location<Db>)
    ensures r.steps == ChicagoSteps
    ensures r.wiring.importers.Keys == {JurisdictionImporterKey, DistrictImporterKey, EntityImporterKey}
    ensures r.wiring.sources.Keys == {"alderperson_data", "wards_geojson"}
    ensures r.wiring.sources["wards_geojson"] == GeoJsonFile(PathOr(geojsonPath, dataDir, "chicago-wards.geojson"), readFile)
  {
    Location("Chicago", "City of Chicago with City Council and Wards", ChicagoSteps,
             Wiring(Importers(env),
                    map["alderperson_data" := alderpersons,
                        "wards_geojson" := GeoJsonFile(PathOr(geojsonPath, dataDir, "chicago-wards.geojson"), readFile)]))
  }

  /** The three Chicago steps, in order: the council, the wards, the alderpersons. */
  lemma ChicagoStepOrder()
    ensures StepNames(ChicagoSteps) == ["Import Chicago City Council jurisdiction", "Import Chicago Wards GeoJSON", "Import Chicago Alderpersons"]
    ensures [ChicagoSteps[0].importer, ChicagoSteps[1].importer, ChicagoSteps[2].importer] ==
      [Str(JurisdictionImporterKey), Str(DistrictImporterKey), Str(EntityImporterKey)]
  {
  }

  /** Every Chicago step's importer and data source resolve in its wiring. */
  lemma ChicagoResolves(env: Env, dataDir: Option<string>, geojsonPath: Option<string>,
                        readFile: GeoJsonSource.ReadFile, alderpersons: Result<Value, Error>)
    ensures Resolves(ChicagoSteps, Chicago(env, dataDir, geojsonPath, readFile, alderpersons).wiring)
  {
    ChicagoKeys();
    KeysWithinResolve(ChicagoSteps, Chicago(env, dataDir, geojsonPath, readFile, alderpersons).wiring);
  }

  lemma ChicagoKeys()
    ensures KeysWithin(ChicagoSteps, {JurisdictionImporterKey, DistrictImporterKey, EntityImporterKey},
                       {"alderperson_data", "wards_geojson"})
  {
    var steps := ChicagoSteps;
    assert steps[0].importer == Str(JurisdictionImporterKey) && steps[0].dataSource == Null;
    assert steps[1].importer == Str(DistrictImporterKey) && steps[1].dataSource == Str("wards_geojson");
    assert steps[2].importer == Str(EntityImporterKey) && steps[2].dataSource == Str("alderperson_data");
  }

  /** The wards and alderperson steps name the council that the first step creates. */
  lemma ChicagoCrossReferences()
    ensures JurisdictionsDeclaredFirst(ChicagoSteps)
  {
    var steps := ChicagoSteps;
    assert DeclaresJurisdiction(steps[0], Str(ChicagoCouncil));
    forall i | 0 <= i < |steps| && "jurisdiction_name" in steps[i].config
      ensures exists j :: 0 <= j < i && DeclaresJurisdiction(steps[j], steps[i].config["jurisdiction_name"])
    {
      assert i != 0;
      assert steps[i].config["jurisdiction_name"] == Str(ChicagoCouncil);
    }
  }

  /** Every Chicago step passes its importer's validation once the orchestrator has added `data`. */
  lemma ChicagoValidates()
    ensures forall i :: 0 <= i < |ChicagoSteps| ==> ValidWithData(ChicagoSteps[i])
  {
    var steps := ChicagoSteps;
    forall i | 0 <= i < |steps|
      ensures ValidWithData(steps[i])
    {
      if i == 2 {
        var keys := steps[2].config.Keys + {"data"};
        assert {"jurisdiction_name", "entity_type", "title", "mapping"} <= keys;
        assert "data" in keys;
      }
    }
  }

  /** The Chicago district step's options: the "ward" property and the "Ward " prefix. */
  lemma ChicagoWardOptions()
    ensures DistrictOptions(ChicagoSteps[1].config) == Ok(DistrictImporter.Options("District {code}", "district_number", "ward", "Ward "))
  {
  }

  /** The alderperson phone is the ward phone when that is non-empty, else the city-hall phone. */
  lemma ChicagoPhoneFallback(item: Value)
    requires item.Obj?
    ensures var ward := Get(item.fields, "ward_phone", Null); var hall := Get(item.fields, "city_hall_phone", Null);
      EntityImporter.ExtractValue(item, ChicagoPhone) == Ok(if Truthy(ward) then ward else if Truthy(hall) then hall else Null)
  {
    assert '.' !in "ward_phone" && '.' !in "city_hall_phone";
    assert EntityImporter.ExtractValue(item, Str("ward_phone")) == Ok(Get(item.fields, "ward_phone", Null));
    assert EntityImporter.ExtractValue(item, Str("city_hall_phone")) == Ok(Get(item.fields, "city_hall_phone", Null));
    EntityImporter.ExtractListFallback(item, Str("ward_phone"), Str("city_hall_phone"));
  }

  /** The alderperson website is the `url` inside a non-empty `website` dict, and `None` otherwise. */
  lemma ChicagoWebsiteIsNested(item: Value)
    requires item.Obj?
    ensures var site := Get(item.fields, "website", Null);
      EntityImporter.ExtractValue(item, ChicagoWebsite) == Ok(if site.Obj? && Truthy(site) then Get(site.fields, "url", Null) else Null)
  {
    assert ChicagoWebsite.s == "website" + ['.'] + "url";
    var site := Get(item.fields, "website", Null);
    if site.Obj? && Truthy(site) {
      EntityImporter.DottedPathDescends(item, "website", "url");
    } else if site.Obj? {
      SplitAtFirstDot("website", "url");
    } else {
      EntityImporter.DottedPathStopsAtNonDict(item, "website", "url");
    }
  }

  /** With no path given, the wards file is `chicago-wards.geojson` under the data directory, "data" by default. */
  lemma ChicagoDefaultPath(dataDir: Option<string>)
    ensures PathOr(None, dataDir, "chicago-wards.geojson") ==
      (if GeoJsonSource.Given(dataDir) then dataDir.value else "data") + "/chicago-wards.geojson"
  {
    var base := if GeoJsonSource.Given(dataDir) then dataDir.value else "data";
    assert DataPath(dataDir, "chicago-wards.geojson") == base + "/" + "chicago-wards.geojson";
    assert "/" + "chicago-wards.geojson" == "/chicago-wards.geojson";
  }

  // ---------------------------------------------------------------------
  // Illinois

  const IllinoisHouse := "Illinois House of Representatives"
  const IllinoisSenate := "Illinois State Senate"

  /** Both chambers' entity mapping: list-index paths into `offices` and `links`. */
  const IllinoisPhone := Arr([Str("offices.0.voice"), Str("offices.1.voice")])
  const IllinoisWebsite := Arr([Str("links.0.url"), Str("links.1.url")])
  const IllinoisAddress := Arr([Str("offices.0.address"), Str("offices.1.address")])

  const IllinoisMapping: map<string, Value> := map[
    "name" := Str("name"),
    "district_code" := Str("current_role.district"),
    "email" := Str("email"),
    "phone" := IllinoisPhone,
    "website" := IllinoisWebsite,
    "address" := IllinoisAddress]

  function IllinoisLegislatorsStep(name: string, dataKey: string, jurisdiction: string, entityType: string, title: string): Step {
    Step(Some(name), Str(EntityImporterKey), Str("legislators"),
         map["data_key" := Str(dataKey), "jurisdiction_name" := Str(jurisdiction), "entity_type" := Str(entityType),
             "title" := Str(title), "mapping" := Obj(IllinoisMapping)])
  }

  const IllinoisSteps: seq<Step> := [
    Step(Some("Import Illinois House jurisdiction"), Str(JurisdictionImporterKey), Null,
         map["name" := Str(IllinoisHouse),
             "description" := Str("Lower chamber of the Illinois General Assembly consisting of 118 representatives"),
             "level" := Str("state_house")]),
    Step(Some("Import Illinois Senate jurisdiction"), Str(JurisdictionImporterKey), Null,
         map["name" := Str(IllinoisSenate),
             "description" := Str("Upper chamber of the Illinois General Assembly consisting of 59 senators"),
             "level" := Str("state_senate")]),
    Step(Some("Import Illinois House GeoJSON"), Str(DistrictImporterKey), Str("house_geojson"),
         map["jurisdiction_name" := Str(IllinoisHouse), "district_name_property" := Str("Name"),
             "district_name_prefix" := Str("IL House District ")]),
    Step(Some("Import Illinois Senate GeoJSON"), Str(DistrictImporterKey), Str("senate_geojson"),
         map["jurisdiction_name" := Str(IllinoisSenate), "district_name_property" := Str("Name"),
             "district_name_prefix" := Str("IL Senate District ")]),
    IllinoisLegislatorsStep("Import Illinois House Representatives", "house", IllinoisHouse, "state_representative", "State Representative"),
    IllinoisLegislatorsStep("Import Illinois Senators", "senate", IllinoisSenate, "state_senator", "State Senator")]

  /** The API key `IllinoisLocationConfig(...)` keeps: the key passed, or the configured one, must be non-empty. */
  function IllinoisApiKey(apiKey: Option<string>, configuredKey: Option<string>): (r: Result<string, Error>)
    ensures r.Err? <==> !GeoJsonSource.Given(apiKey) && !GeoJsonSource.Given(configuredKey)
    ensures r.Err? ==> r.error == ValueError("OpenStates API key is required")
    ensures r.Ok? ==> |r.value| > 0
    ensures r.Ok? && GeoJsonSource.Given(apiKey) ==> r.value == apiKey.value
    ensures r.Ok? && !GeoJsonSource.Given(apiKey) ==> r.value == configuredKey.value
  {
    var key := if GeoJsonSource.Given(apiKey) then apiKey else configuredKey;
    if !GeoJsonSource.Given(key) then Err(ValueError("OpenStates API key is required"))
    else Ok(key.value)
  }

  /**
   * `get_importers` of an `IllinoisLocationConfig` holding `apiKey`: the
   * legislators source is an Illinois OpenStates source over `server`,
   * which stops by page `last`; the two boundary files default to the 2021
   * maps under the data directory.
   */
  function Illinois(env: Env, apiKey: string, dataDir: Option<string>,
                    housePath: Option<string>, senatePath: Option<string>, readFile: GeoJsonSource.ReadFile,
                    server: OpenStatesSource.Server, last: nat): (r: Location<Db>)
    requires OpenStatesSource.StopsBy(server, 1, last, OpenStatesSource.NoLegislators)
    ensures r.steps == IllinoisSteps
    ensures r.wiring.importers.Keys == {JurisdictionImporterKey, DistrictImporterKey, EntityImporterKey}
    ensures r.wiring.sources.Keys == {"legislators", "house_geojson", "senate_geojson"}
    ensures r.wiring.sources["house_geojson"] == GeoJsonFile(PathOr(housePath, dataDir, "il_2020_state_lower_2021-09-24.json"), readFile)
    ensures r.wiring.sources["senate_geojson"] == GeoJsonFile(PathOr(senatePath, dataDir, "il_2020_state_upper_2021-09-24.json"), readFile)
  {
    var legislators := OpenStatesSource.NewIllinoisSource(apiKey, OpenStatesSource.DefaultBaseUrl, None);
    IllinoisLocation(env, Ok(OpenStatesSource.FetchData(legislators, server, last).1),
                     GeoJsonFile(PathOr(housePath, dataDir, "il_2020_state_lower_2021-09-24.json"), readFile),
                     GeoJsonFile(PathOr(senatePath, dataDir, "il_2020_state_upper_2021-09-24.json"), readFile))
  }

  /** The Illinois configuration over the three fetched data sources. */
  function IllinoisLocation(env: Env, legislators: Result<Value, Error>, house: Result<Value, Error>, senate: Result<Value, Error>)
    : (r: Location<Db>)
    ensures r.steps == IllinoisSteps
    ensures r.wiring.importers.Keys == {JurisdictionImporterKey, DistrictImporterKey, EntityImporterKey}
    ensures r.wiring.sources.Keys == {"legislators", "house_geojson", "senate_geojson"}
    ensures r.wiring.sources["house_geojson"] == house && r.wiring.sources["senate_geojson"] == senate
  {
    Location("Illinois", "State of Illinois with House and Senate districts and legislators", IllinoisSteps,
             Wiring(Importers(env), map["legislators" := legislators, "house_geojson" := house, "senate_geojson" := senate]))
  }

  /** Every Illinois step's importer and data source resolve in its wiring. */
  lemma IllinoisResolves(env: Env, legislators: Result<Value, Error>, house: Result<Value, Error>, senate: Result<Value, Error>)
    ensures Resolves(IllinoisSteps, IllinoisLocation(env, legislators, house, senate).wiring)
  {
    IllinoisKeys();
    KeysWithinResolve(IllinoisSteps, IllinoisLocation(env, legislators, house, senate).wiring);
  }

  lemma IllinoisKeys()
    ensures KeysWithin(IllinoisSteps, {JurisdictionImporterKey, DistrictImporterKey, EntityImporterKey},
                       {"legislators", "house_geojson", "senate_geojson"})
  {
    var steps := IllinoisSteps;
    forall i | 0 <= i < |steps|
      ensures steps[i].importer.Str? && steps[i].importer.s in {JurisdictionImporterKey, DistrictImporterKey, EntityImporterKey}
      ensures Truthy(steps[i].importer)
      ensures steps[i].dataSource == Null || (steps[i].dataSource.Str? && steps[i].dataSource.s in {"legislators", "house_geojson", "senate_geojson"})
    {
      if i < 2 {
        assert steps[i].importer == Str(JurisdictionImporterKey) && steps[i].dataSource == Null;
      } else if i < 4 {
        assert steps[i].importer == Str(DistrictImporterKey);
      } else {
        assert steps[i] == IllinoisLegislatorsStep(StepName(steps[i]), if i == 4 then "house" else "senate",
          if i == 4 then IllinoisHouse else IllinoisSenate, if i == 4 then "state_representative" else "state_senator",
          if i == 4 then "State Representative" else "State Senator");
      }
    }
  }

  /** Six steps; each district and legislator step names a chamber that an earlier step creates. */
  lemma IllinoisCrossReferences()
    ensures |IllinoisSteps| == 6
    ensures JurisdictionsDeclaredFirst(IllinoisSteps)
  {
    var steps := IllinoisSteps;
    assert DeclaresJurisdiction(steps[0], Str(IllinoisHouse));
    assert DeclaresJurisdiction(steps[1], Str(IllinoisSenate));
    forall i | 0 <= i < |steps| && "jurisdiction_name" in steps[i].config
      ensures exists j :: 0 <= j < i && DeclaresJurisdiction(steps[j], steps[i].config["jurisdiction_name"])
    {
      assert i >= 2;
      if i == 2 || i == 4 {
        assert steps[i].config["jurisdiction_name"] == Str(IllinoisHouse);
      } else {
        assert steps[i].config["jurisdiction_name"] == Str(IllinoisSenate);
      }
    }
  }

  /** Every Illinois step passes its importer's validation once the orchestrator has added `data`. */
  lemma IllinoisValidates()
    ensures forall i :: 0 <= i < |IllinoisSteps| ==> ValidWithData(IllinoisSteps[i])
  {
    var steps := IllinoisSteps;
    forall i | 0 <= i < |steps|
      ensures ValidWithData(steps[i])
    {
      if i >= 4 {
        var keys := steps[i].config.Keys + {"data"};
        assert {"jurisdiction_name", "entity_type", "title", "mapping"} <= keys;
        assert "data" in keys;
      }
    }
  }

  /** The legislator steps carry `data_key`, so without data their validation fails. */
  lemma IllinoisLegislatorStepsNeedData()
    ensures forall i :: 4 <= i < |IllinoisSteps| ==> !EntityImporter.ValidateEntityImport(IllinoisSteps[i].config.Keys)
  {
    forall i | 4 <= i < |IllinoisSteps|
      ensures !EntityImporter.ValidateEntityImport(IllinoisSteps[i].config.Keys)
    {
      assert "data_key" in IllinoisSteps[i].config.Keys;
      assert "data" !in IllinoisSteps[i].config.Keys;
    }
  }

  /**
   * The data keys of the legislator steps, "house" and "senate", select
   * lists in whatever the OpenStates source returns on a first fetch.
   */
  lemma IllinoisDataKeysMatchSource(src: OpenStatesSource.Source, server: OpenStatesSource.Server, last: nat)
    requires OpenStatesSource.StopsBy(server, 1, last, OpenStatesSource.NoLegislators) && src.cache.None?
    ensures var data := OpenStatesSource.FetchData(src, server, last).1;
      && EntityImporter.ActualItems(data, IllinoisSteps[4].config["data_key"]).Ok?
      && EntityImporter.ActualItems(data, IllinoisSteps[5].config["data_key"]).Ok?
  {
    var data := OpenStatesSource.FetchData(src, server, last).1;
    IllinoisDataKeys();
    assert data.Obj? && "house" in data.fields && "senate" in data.fields;
    assert EntityImporter.ActualItems(data, Str("house")).Ok?;
    assert EntityImporter.ActualItems(data, Str("senate")).Ok?;
  }

  /** The legislator steps select "house" and "senate". */
  lemma IllinoisDataKeys()
    ensures IllinoisSteps[4].config["data_key"] == Str("house") && IllinoisSteps[5].config["data_key"] == Str("senate")
  {
    var house := IllinoisLegislatorsStep("Import Illinois House Representatives", "house", IllinoisHouse, "state_representative", "State Representative");
    var senate := IllinoisLegislatorsStep("Import Illinois Senators", "senate", IllinoisSenate, "state_senator", "State Senator");
    assert IllinoisSteps[4] == house && IllinoisSteps[5] == senate;
  }

  /** Two dotted paths through the same non-dict value both come out `None`, and so does the list of them. */
  lemma PathPairThroughNonDict(item: Value, head: string, first: string, second: string)
    requires item.Obj? && '.' !in head && !Get(item.fields, head, Null).Obj?
    ensures EntityImporter.ExtractValue(item, Arr([Str(head + ['.'] + first), Str(head + ['.'] + second)])) == Ok(Null)
  {
    EntityImporter.DottedPathStopsAtNonDict(item, head, first);
    EntityImporter.DottedPathStopsAtNonDict(item, head, second);
    EntityImporter.ExtractListFallback(item, Str(head + ['.'] + first), Str(head + ['.'] + second));
  }

  /**
   * OpenStates lists a legislator's offices and links as lists, and
   * `_extract_value` descends only into dicts, so the phone, website and
   * address of an Illinois legislator always come out `None`.
   */
  lemma IllinoisContactPathsNeverResolve(item: Value)
    requires item.Obj?
    requires Get(item.fields, "offices", Null).Arr? && Get(item.fields, "links", Null).Arr?
    ensures EntityImporter.ExtractValue(item, IllinoisPhone) == Ok(Null)
    ensures EntityImporter.ExtractValue(item, IllinoisWebsite) == Ok(Null)
    ensures EntityImporter.ExtractValue(item, IllinoisAddress) == Ok(Null)
  {
    assert '.' !in "offices" && '.' !in "links";
    assert "offices.0.voice" == "offices" + ['.'] + "0.voice";
    assert "offices.1.voice" == "offices" + ['.'] + "1.voice";
    assert "links.0.url" == "links" + ['.'] + "0.url";
    assert "links.1.url" == "links" + ['.'] + "1.url";
    assert "offices.0.address" == "offices" + ['.'] + "0.address";
    assert "offices.1.address" == "offices" + ['.'] + "1.address";
    PathPairThroughNonDict(item, "offices", "0.voice", "1.voice");
    PathPairThroughNonDict(item, "links", "0.url", "1.url");
    PathPairThroughNonDict(item, "offices", "0.address", "1.address");
  }
}
