/**
 * The command-line import runner: an orchestrator variant with a dry-run
 * mode, whose importers return fixed mock results instead of writing, and
 * the `test_import` driver that turns a list of wanted steps into skip
 * flags for all the others.
 */
module ImportData {
  import opened Wrappers
  import opened PyJson
  import opened Models
  import opened Orchestrator

  // ---------------------------------------------------------------------
  // The variant's config preparation

  /**
   * The runner's config: a `geojson_data` flag that is exactly `True` is
   * set to the data and then deleted, so no data reaches the importer under
   * that key; otherwise data that is not `None` goes under "data".
   */
  function RunnerRoute(config: map<string, Value>, data: Value): (r: map<string, Value>)
    ensures forall p :: p != "data" && p != "geojson_data" ==> (p in r <==> p in config) && (p in r ==> r[p] == config[p])
    ensures "geojson_data" in config && config["geojson_data"] == Bool(true) ==>
      "geojson_data" !in r && ("data" in r <==> "data" in config) && ("data" in r ==> r["data"] == config["data"])
    ensures !("geojson_data" in config && config["geojson_data"] == Bool(true)) && data != Null ==>
      "data" in r && r["data"] == data && ("geojson_data" in r <==> "geojson_data" in config) &&
      ("geojson_data" in r ==> r["geojson_data"] == config["geojson_data"])
    ensures !("geojson_data" in config && config["geojson_data"] == Bool(true)) && data == Null ==> r == config
  {
    if "geojson_data" in config && config["geojson_data"] == Bool(true) then
      config["geojson_data" := data] - {"geojson_data"}
    else if data != Null then config["data" := data]
    else config
  }

  function RunnerConfig(step: Step, importerKey: string, data: Value, kwargs: Kwargs): map<string, Value> {
    ApplyOverrides(RunnerRoute(step.config, data), StepName(step), kwargs)
  }

  // ---------------------------------------------------------------------
  // Dry-run importers

  /** The `id` of the mock jurisdiction stands for the `uuid4()` drawn at the call. */
  function MockJurisdiction(config: map<string, Value>, mockId: Value): Value {
    Obj(map["id" := mockId,
            "name" := Get(config, "name", Str("Mock Jurisdiction")),
            "level" := Get(config, "level", Str("mock"))])
  }

  const DryRunDistricts: Value := Obj(map[
    "districts_created" := Int(5), "districts_updated" := Int(2), "districts_error" := Int(0),
    "districts_total" := Int(7), "dry_run" := Bool(true), "districts" := Arr([])])

  const DryRunEntities: Value := Obj(map[
    "entities_created" := Int(10), "entities_updated" := Int(3), "entities_error" := Int(0),
    "entities_total" := Int(13), "dry_run" := Bool(true), "entities" := Arr([])])

  /** What a dry-run `import_data` returns, chosen by the words in the importer key, first match wins. */
  function DryRunResult(importerKey: string, config: map<string, Value>, mockId: Value): (r: Value)
    ensures ContainsSub(importerKey, "jurisdiction") ==>
      r == Obj(map["operation" := Str("dry_run"), "jurisdiction" := MockJurisdiction(config, mockId)])
    ensures !ContainsSub(importerKey, "jurisdiction") && ContainsSub(importerKey, "district") ==> r == DryRunDistricts
    ensures !ContainsSub(importerKey, "jurisdiction") && !ContainsSub(importerKey, "district") && ContainsSub(importerKey, "entity") ==>
      r == DryRunEntities
    ensures !ContainsSub(importerKey, "jurisdiction") && !ContainsSub(importerKey, "district") && !ContainsSub(importerKey, "entity") ==>
      r == Obj(map["dry_run" := Bool(true)])
  {
    if ContainsSub(importerKey, "jurisdiction") then
      Obj(map["operation" := Str("dry_run"), "jurisdiction" := MockJurisdiction(config, mockId)])
    else if ContainsSub(importerKey, "district") then DryRunDistricts
    else if ContainsSub(importerKey, "entity") then DryRunEntities
    else Obj(map["dry_run" := Bool(true)])
  }

  /** Every importer keeps its validation, and its import returns the mock result without touching the store. */
  function DryRunWiring<S(!new)>(w: Wiring<S>, mockId: Value): (r: Wiring<S>)
    ensures r.sources == w.sources
    ensures r.importers.Keys == w.importers.Keys
    ensures forall k :: k in r.importers ==> r.importers[k].validate == w.importers[k].validate
    ensures ReadOnly(r)
  {
    Wiring(map k | k in w.importers :: Importer(w.importers[k].validate, (s: S, c: map<string, Value>) => (s, Ok(DryRunResult(k, c, mockId)))),
           w.sources)
  }

  /** No importer's import changes the store. */
  ghost predicate ReadOnly<S(!new)>(w: Wiring<S>) {
    forall k, s: S, c :: k in w.importers ==> w.importers[k].run(s, c).0 == s
  }

  /** A step never changes the store when no importer does. */
  lemma ReadOnlyStep<S(!new)>(s: S, step: Step, w: Wiring<S>, kwargs: Kwargs, prepare: Prepare)
    requires ReadOnly(w)
    ensures RunStep(s, step, w, kwargs, prepare).0 == s
  {
  }

  /** The step loop never changes the store when no importer does. */
  lemma {:induction false} ReadOnlySteps<S(!new)>(s: S, steps: seq<Step>, w: Wiring<S>, kwargs: Kwargs, prepare: Prepare)
    requires ReadOnly(w)
    ensures RunSteps(s, steps, w, kwargs, prepare).0 == s
  {
    if |steps| > 0 {
      ReadOnlySteps(s, steps[..|steps| - 1], w, kwargs, prepare);
      ReadOnlyStep(s, steps[|steps| - 1], w, kwargs, prepare);
    }
  }

  /** The runner's `import_location` result: the orchestrator's dict plus the echoed `dry_run`. */
  datatype RunnerSummary = RunnerSummary(summary: Summary, dryRun: bool)

  /** The runner's `import_location`: in dry-run mode the store is left as it was. */
  function RunnerImportLocation<S(!new)>(s: S, reg: Registry<S>, key: string, dryRun: bool, kwargs: Kwargs, mockId: Value)
    : (r: Result<(S, RunnerSummary), Error>)
    ensures Find(reg, key).None? ==> r == Err(ValueError("Unknown location: " + key))
    ensures Find(reg, key).Some? && Find(reg, key).value.Err? ==> r == Err(Find(reg, key).value.error)
    ensures r.Ok? ==> r.value.1.dryRun == dryRun
    ensures r.Ok? && dryRun ==> r.value.0 == s
    ensures r.Ok? ==> var loc := Find(reg, key).value.value;
      && r.value.1.summary.stepsTotal == |loc.steps|
      && r.value.1.summary.succeeded + r.value.1.summary.failed == |r.value.1.summary.results| == |NonSkipped(loc.steps, kwargs)|
  {
    match Find(reg, key)
    case None => Err(ValueError("Unknown location: " + key))
    case Some(Err(e)) => Err(e)
    case Some(Ok(loc)) =>
      var w := if dryRun then DryRunWiring(loc.wiring, mockId) else loc.wiring;
      assert dryRun ==> RunSteps(s, loc.steps, w, kwargs, RunnerConfig).0 == s by {
        if dryRun {
          ReadOnlySteps(s, loc.steps, w, kwargs, RunnerConfig);
        }
      }
      var (s', summary) := Summarize(s, key, loc, w, kwargs, RunnerConfig);
      Ok((s', RunnerSummary(summary, dryRun)))
  }

  // ---------------------------------------------------------------------
  // test_import

  /** `override_params`: a skip flag for every step not asked for, and none at all when no step is asked for. */
  function SkipFlags(allSteps: seq<string>, stepsToRun: seq<string>): (r: Kwargs)
    ensures |stepsToRun| == 0 ==> r == []
    ensures |r| <= |allSteps|
  {
    if |stepsToRun| == 0 || |allSteps| == 0 then []
    else
      var rest := SkipFlags(allSteps[..|allSteps| - 1], stepsToRun);
      var n := allSteps[|allSteps| - 1];
      if n !in stepsToRun then rest + [(n + ".skip", Bool(true))] else rest
  }

  /** Appending the same suffix to two strings keeps them apart. */
  lemma SuffixCancels(a: string, b: string, suffix: string)
    requires a + suffix == b + suffix
    ensures a == b
  {
    assert a == (a + suffix)[..|a|];
    assert b == (b + suffix)[..|b|];
  }

  /** The skip flag of a step name is set, to `True`, exactly for the listed steps that were not asked for. */
  lemma {:induction false} SkipFlagsLookup(allSteps: seq<string>, stepsToRun: seq<string>, n: string)
    ensures Lookup(SkipFlags(allSteps, stepsToRun), n + ".skip") ==
      if |stepsToRun| > 0 && n in allSteps && n !in stepsToRun then Some(Bool(true)) else None
  {
    if |stepsToRun| > 0 && |allSteps| > 0 {
      var prefix := allSteps[..|allSteps| - 1];
      var rest := SkipFlags(prefix, stepsToRun);
      var m := allSteps[|allSteps| - 1];
      SkipFlagsLookup(prefix, stepsToRun, n);
      assert allSteps == prefix + [m];
      assert n in allSteps <==> n in prefix || n == m;
      if m !in stepsToRun {
        var r := rest + [(m + ".skip", Bool(true))];
        assert r[..|r| - 1] == rest;
        if m + ".skip" == n + ".skip" {
          SuffixCancels(m, n, ".skip");
        }
      }
    }
  }

  /** With a non-empty selection, a named step is skipped exactly when it was not selected; with none, no step is. */
  lemma SelectedStepsRun(allSteps: seq<string>, stepsToRun: seq<string>, step: Step)
    requires step.name.Some? && step.name.value in allSteps
    ensures Skipped(step, SkipFlags(allSteps, stepsToRun)) <==> |stepsToRun| > 0 && step.name.value !in stepsToRun
  {
    SkipFlagsLookup(allSteps, stepsToRun, step.name.value);
  }

  /** What `test_import` comes to: an early return, an escaping constructor error, or a run whose errors are logged. */
  datatype TestOutcome<!S> = UnknownLocation | ConstructorFailed(error: Error) | Ran(store: S, result: Result<RunnerSummary, Error>)

  /** `test_import`: registers "chicago" and "illinois", builds the skip flags from the step names and runs the import. */
  function TestImport<S(!new)>(s: S, chicago: Result<Location<S>, Error>, illinois: Result<Location<S>, Error>,
                         key: string, stepsToRun: seq<string>, dryRun: bool, mockId: Value): (r: TestOutcome<S>)
    ensures key != "chicago" && key != "illinois" ==> r == UnknownLocation
    ensures key == "chicago" && chicago.Err? ==> r == ConstructorFailed(chicago.error)
    ensures key == "illinois" && illinois.Err? ==> r == ConstructorFailed(illinois.error)
    ensures r.Ran? && dryRun ==> r.store == s
    ensures r.Ran? ==> r.result.Ok? && r.result.value.dryRun == dryRun
  {
    var reg := RegisterLocation(RegisterLocation([], "chicago", chicago), "illinois", illinois);
    match Find(reg, key)
    case None => UnknownLocation
    case Some(Err(e)) => ConstructorFailed(e)
    case Some(Ok(loc)) =>
      // `step["name"]` would raise KeyError for a nameless step; the
      // "Unnamed step" default stands in for it. Every step of
      // `Locations.ChicagoSteps` and `Locations.IllinoisSteps` has a name,
      // so with the two real configurations that path is not reached.
      var allSteps := StepNames(loc.steps);
      match RunnerImportLocation(s, reg, key, dryRun, SkipFlags(allSteps, stepsToRun), mockId)
      case Err(e) => Ran(s, Err(e))
      case Ok((s', summary)) => Ran(s', Ok(summary))
  }
}
