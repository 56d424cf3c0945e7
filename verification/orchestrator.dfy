/**
 * The import orchestrator: a registry of location configurations and the
 * step loop of `import_location`, which runs a location's import steps in
 * order and turns every failure of a step into an "error" entry instead of
 * aborting the run.
 *
 * Importers and data sources are opaque here: an importer is a validation
 * function plus an import function over some store `S`, a data source is
 * the outcome of its `fetch_data` call.
 */
module Orchestrator {
  import opened Wrappers
  import opened PyJson
  import opened Models

  // ---------------------------------------------------------------------
  // Locations and the registry

  /** One entry of `import_steps`. An absent `importer` or `data_source` is `Null`. */
  datatype Step = Step(name: Option<string>, importer: Value, dataSource: Value, config: map<string, Value>)

  /** `step.get("name", "Unnamed step")`. */
  function StepName(step: Step): string {
    if step.name.Some? then step.name.value else "Unnamed step"
  }

  /** `[step["name"] for step in import_steps]`. */
  function StepNames(steps: seq<Step>): (r: seq<string>)
    ensures |r| == |steps|
    ensures forall i :: 0 <= i < |steps| ==> r[i] == StepName(steps[i])
  {
    if |steps| == 0 then [] else StepNames(steps[..|steps| - 1]) + [StepName(steps[|steps| - 1])]
  }

  /** An importer: `validate_import(**config)` and `import_data(**config)`, the latter over a store. */
  datatype Importer<!S> = Importer(
    validate: map<string, Value> -> Result<bool, Error>,
    run: (S, map<string, Value>) -> (S, Result<Value, Error>))

  /** What `get_importers` returns: importers by key, and the outcome of `fetch_data` of each data source by key. */
  datatype Wiring<!S> = Wiring(importers: map<string, Importer<S>>, sources: map<string, Result<Value, Error>>)

  /** An instantiated location configuration. */
  datatype Location<!S> = Location(name: string, description: string, steps: seq<Step>, wiring: Wiring<S>)

  /**
   * `available_locations`, in insertion order. Each entry holds the outcome
   * of calling the registered class with no arguments, since a constructor
   * may raise.
   */
  type Registry<!S> = seq<(string, Result<Location<S>, Error>)>

  /** The position of `key` in the registry. */
  function KeyIndex<S>(reg: Registry<S>, key: string): (r: Option<nat>)
    ensures r.None? <==> forall i :: 0 <= i < |reg| ==> reg[i].0 != key
    ensures r.Some? ==> r.value < |reg| && reg[r.value].0 == key && forall i :: 0 <= i < r.value ==> reg[i].0 != key
  {
    if |reg| == 0 then None
    else if reg[0].0 == key then Some(0)
    else match KeyIndex(reg[1..], key)
      case None => None
      case Some(k) => Some(k + 1)
  }

  /** `location_key in self.available_locations` and the class stored under it. */
  function Find<S>(reg: Registry<S>, key: string): Option<Result<Location<S>, Error>> {
    match KeyIndex(reg, key)
    case None => None
    case Some(i) => Some(reg[i].1)
  }

  /** Registries with the same keys in the same places find every key in the same place. */
  lemma {:induction false} SameKeysSameIndex<S>(a: Registry<S>, b: Registry<S>, key: string)
    requires |a| == |b|
    requires forall i :: 0 <= i < |a| ==> a[i].0 == b[i].0
    ensures KeyIndex(a, key) == KeyIndex(b, key)
  {
    if |a| > 0 && a[0].0 != key {
      SameKeysSameIndex(a[1..], b[1..], key);
    }
  }

  predicate DistinctKeys<S>(reg: Registry<S>) {
    forall i, j :: 0 <= i < j < |reg| ==> reg[i].0 != reg[j].0
  }

  /** Appending a new key leaves every other key where it was and finds the new one last. */
  lemma {:induction false} AppendedKeyIndex<S>(reg: Registry<S>, key: string, c: Result<Location<S>, Error>)
    requires KeyIndex(reg, key).None?
    ensures KeyIndex(reg + [(key, c)], key) == Some(|reg|)
    ensures forall k :: k != key ==> KeyIndex(reg + [(key, c)], k) == KeyIndex(reg, k)
  {
    if |reg| > 0 {
      AppendedKeyIndex(reg[1..], key, c);
      assert (reg + [(key, c)])[1..] == reg[1..] + [(key, c)];
    }
  }

  /** `register_location`: a new key is appended, an existing key keeps its place and gets the new class. */
  function RegisterLocation<S>(reg: Registry<S>, key: string, c: Result<Location<S>, Error>): (r: Registry<S>)
    ensures Find(r, key) == Some(c)
    ensures forall k :: k != key ==> Find(r, k) == Find(reg, k)
    ensures KeyIndex(reg, key).Some? ==> |r| == |reg|
    ensures KeyIndex(reg, key).None? ==> |r| == |reg| + 1
    ensures forall i :: 0 <= i < |reg| ==> r[i].0 == reg[i].0
    ensures DistinctKeys(reg) ==> DistinctKeys(r)
  {
    match KeyIndex(reg, key)
    case None =>
      var r := reg + [(key, c)];
      AppendedKeyIndex(reg, key, c);
      r
    case Some(i) =>
      var r := reg[i := (key, c)];
      forall k {
        SameKeysSameIndex(r, reg, k);
      }
      r
  }

  /** One entry of `get_available_locations`. */
  datatype LocationInfo = LocationInfo(key: string, name: string, description: string, steps: nat)

  /** `get_available_locations`: one entry per registered key, in registration order; a failing constructor propagates. */
  function AvailableLocations<S>(reg: Registry<S>): (r: Result<seq<LocationInfo>, Error>)
    ensures r.Ok? <==> forall i :: 0 <= i < |reg| ==> reg[i].1.Ok?
    ensures r.Ok? ==> |r.value| == |reg|
    ensures r.Ok? ==> forall i :: 0 <= i < |reg| ==>
      r.value[i] == LocationInfo(reg[i].0, reg[i].1.value.name, reg[i].1.value.description, |reg[i].1.value.steps|)
  {
    if |reg| == 0 then Ok([])
    else
      var rest :- AvailableLocations(reg[..|reg| - 1]);
      var (key, c) := reg[|reg| - 1];
      match c
      case Err(e) => Err(e)
      case Ok(loc) => Ok(rest + [LocationInfo(key, loc.name, loc.description, |loc.steps|)])
  }

  // ---------------------------------------------------------------------
  // Keyword arguments

  /** The keyword arguments of an `import_location` call, in call order. */
  type Kwargs = seq<(string, Value)>

  /** `kwargs[key]` when the key is present (the last binding, should a key repeat). */
  function Lookup(kwargs: Kwargs, key: string): (r: Option<Value>)
    ensures r.None? <==> forall i :: 0 <= i < |kwargs| ==> kwargs[i].0 != key
    ensures r.Some? ==> exists i :: 0 <= i < |kwargs| && kwargs[i] == (key, r.value)
  {
    if |kwargs| == 0 then None
    else if kwargs[|kwargs| - 1].0 == key then Some(kwargs[|kwargs| - 1].1)
    else Lookup(kwargs[..|kwargs| - 1], key)
  }

  /** `step_skip_key in kwargs and kwargs[step_skip_key]`. */
  predicate Skipped(step: Step, kwargs: Kwargs) {
    var flag := Lookup(kwargs, StepName(step) + ".skip");
    flag.Some? && Truthy(flag.value)
  }

  /**
   * The parameter a keyword argument overrides for the named step: a key
   * that starts with the step name and a dot sets `key.split(".", 1)[1]`,
   * the text after the FIRST dot of the whole key, unless that is "skip".
   */
  function OverrideParam(stepName: string, key: string): Option<string> {
    if StartsWith(key, stepName + ".") then
      match SplitFirst(key, '.')
      case None => None
      case Some((_, param)) => if param != "skip" then Some(param) else None
    else None
  }

  /** For a step name without dots, the key "name.param" sets `param`. */
  lemma OverrideOfPlainStepName(stepName: string, param: string)
    requires '.' !in stepName
    requires param != "skip"
    ensures OverrideParam(stepName, stepName + "." + param) == Some(param)
  {
    var key := stepName + "." + param;
    assert key[..|stepName + "."|] == stepName + ".";
    SplitAtFirstDot(stepName, param);
  }

  /**
   * For a step name that holds a dot, the parameter is what follows the
   * step name's first dot, so "a.b" with the key "a.b.c" sets "b.c", not "c".
   */
  lemma OverrideOfDottedStepName(head: string, tail: string, param: string)
    requires '.' !in head
    requires tail + "." + param != "skip"
    ensures OverrideParam(head + "." + tail, head + "." + tail + "." + param) == Some(tail + "." + param)
  {
    var stepName := head + "." + tail;
    var key := stepName + "." + param;
    assert key[..|stepName + "."|] == stepName + ".";
    assert key == head + ['.'] + (tail + "." + param);
    SplitAtFirstDot(head, tail + "." + param);
  }

  /** An override for parameter `p` is bound at position `i` and at no later position. */
  predicate LastOverrideAt(stepName: string, kwargs: Kwargs, p: string, i: nat) {
    && i < |kwargs|
    && OverrideParam(stepName, kwargs[i].0) == Some(p)
    && forall j :: i < j < |kwargs| ==> OverrideParam(stepName, kwargs[j].0) != Some(p)
  }

  /** No keyword argument overrides parameter `p`. */
  predicate NoOverride(stepName: string, kwargs: Kwargs, p: string) {
    forall i :: 0 <= i < |kwargs| ==> OverrideParam(stepName, kwargs[i].0) != Some(p)
  }

  /**
   * The loop over `kwargs.items()` that merges overrides into a step's
   * config; "skip" is never set. What it does to the other parameters is
   * stated by `OverridesKeepTheRest` and `LastOverrideWins`.
   */
  function ApplyOverrides(config: map<string, Value>, stepName: string, kwargs: Kwargs): (r: map<string, Value>)
    ensures "skip" in r <==> "skip" in config
    ensures "skip" in r ==> r["skip"] == config["skip"]
  {
    if |kwargs| == 0 then config
    else
      var c := ApplyOverrides(config, stepName, kwargs[..|kwargs| - 1]);
      var (key, value) := kwargs[|kwargs| - 1];
      match OverrideParam(stepName, key)
      case None => c
      case Some(p) => c[p := value]
  }

  /** Dropping the last keyword argument keeps every parameter that had no override without an override. */
  lemma NoOverridePrefix(stepName: string, kwargs: Kwargs, p: string)
    requires |kwargs| > 0 && NoOverride(stepName, kwargs, p)
    ensures NoOverride(stepName, kwargs[..|kwargs| - 1], p)
    ensures OverrideParam(stepName, kwargs[|kwargs| - 1].0) != Some(p)
  {
    assert forall i :: 0 <= i < |kwargs| - 1 ==> kwargs[..|kwargs| - 1][i] == kwargs[i];
  }

  /** An override that is the last for its parameter before the final keyword argument stays the last in the prefix. */
  lemma LastOverridePrefix(stepName: string, kwargs: Kwargs, p: string, i: nat)
    requires i < |kwargs| - 1 && LastOverrideAt(stepName, kwargs, p, i)
    ensures LastOverrideAt(stepName, kwargs[..|kwargs| - 1], p, i)
    ensures OverrideParam(stepName, kwargs[|kwargs| - 1].0) != Some(p)
  {
    assert forall j :: 0 <= j < |kwargs| - 1 ==> kwargs[..|kwargs| - 1][j] == kwargs[j];
  }

  /** Parameters nobody overrides keep their value, and only overridden parameters are added. */
  lemma {:induction false} OverridesKeepTheRest(config: map<string, Value>, stepName: string, kwargs: Kwargs)
    ensures var r := ApplyOverrides(config, stepName, kwargs);
      forall p :: p in r ==> p in config || !NoOverride(stepName, kwargs, p)
    ensures var r := ApplyOverrides(config, stepName, kwargs);
      forall p :: p in config && NoOverride(stepName, kwargs, p) ==> p in r && r[p] == config[p]
  {
    if |kwargs| > 0 {
      OverridesKeepTheRest(config, stepName, kwargs[..|kwargs| - 1]);
      forall p | NoOverride(stepName, kwargs, p)
        ensures NoOverride(stepName, kwargs[..|kwargs| - 1], p)
        ensures OverrideParam(stepName, kwargs[|kwargs| - 1].0) != Some(p)
      {
        NoOverridePrefix(stepName, kwargs, p);
      }
    }
  }

  /** The last override of a parameter gives its value. */
  lemma {:induction false} LastOverrideWins(config: map<string, Value>, stepName: string, kwargs: Kwargs)
    ensures var r := ApplyOverrides(config, stepName, kwargs);
      forall p: string, i: nat :: LastOverrideAt(stepName, kwargs, p, i) ==> p in r && r[p] == kwargs[i].1
  {
    if |kwargs| > 0 {
      LastOverrideWins(config, stepName, kwargs[..|kwargs| - 1]);
      forall p: string, i: nat | i < |kwargs| - 1 && LastOverrideAt(stepName, kwargs, p, i)
        ensures LastOverrideAt(stepName, kwargs[..|kwargs| - 1], p, i)
        ensures OverrideParam(stepName, kwargs[|kwargs| - 1].0) != Some(p)
      {
        LastOverridePrefix(stepName, kwargs, p, i);
      }
    }
  }

  // ---------------------------------------------------------------------
  // One step

  /** Why a step ended with status "error". */
  datatype Failure =
    | InvalidImporter(importerKey: Value)
    | InvalidDataSource(sourceKey: Value)
    | FetchError(fetchError: Error)
    | ValidationFailed
    | ImportError(importError: Error)

  /** The "message" of an error entry. */
  function Message(f: Failure): string {
    match f
    case InvalidImporter(k) => "Invalid importer: " + Show(k)
    case InvalidDataSource(k) => "Invalid data source: " + Show(k)
    case FetchError(e) => "Data fetch error: " + Describe(e)
    case ValidationFailed => "Validation failed"
    case ImportError(e) => "Import error: " + Describe(e)
  }

  /** One entry of "results": status "success" with the import result, or status "error". */
  datatype StepResult = Succeeded(step: string, result: Value) | Failed(step: string, failure: Failure)

  /** `not importer_key or importer_key not in importers` fails. */
  predicate ImporterKnown<S>(step: Step, w: Wiring<S>) {
    Truthy(step.importer) && step.importer.Str? && step.importer.s in w.importers
  }

  /** A truthy `data_source` that names no data source. */
  predicate SourceMissing<S>(step: Step, w: Wiring<S>) {
    Truthy(step.dataSource) && !(step.dataSource.Str? && step.dataSource.s in w.sources)
  }

  /** `data`: `None` without a data source, otherwise the outcome of `fetch_data`. */
  function FetchedData<S>(step: Step, w: Wiring<S>): Result<Value, Error>
    requires !SourceMissing(step, w)
  {
    if Truthy(step.dataSource) then w.sources[step.dataSource.s] else Ok(Null)
  }

  /** How a variant of the orchestrator builds the import config from the step, the importer key and the data. */
  type Prepare = (Step, string, Value, Kwargs) -> map<string, Value>

  /**
   * One pass of the step loop: no entry for a skipped step, otherwise
   * exactly one entry, which is an error unless the importer and data
   * source resolve, the fetch succeeds, the validation says yes and the
   * import returns.
   */
  function RunStep<S>(s: S, step: Step, w: Wiring<S>, kwargs: Kwargs, prepare: Prepare): (r: (S, Option<StepResult>))
    ensures r.1.None? <==> Skipped(step, kwargs)
    ensures r.1.Some? ==> r.1.value.step == StepName(step)
    ensures r.1.Some? && !ImporterKnown(step, w) ==> r == (s, Some(Failed(StepName(step), InvalidImporter(step.importer))))
    ensures r.1.Some? && ImporterKnown(step, w) && SourceMissing(step, w) ==>
      r == (s, Some(Failed(StepName(step), InvalidDataSource(step.dataSource))))
    ensures r.1.Some? && ImporterKnown(step, w) && !SourceMissing(step, w) && FetchedData(step, w).Err? ==>
      r == (s, Some(Failed(StepName(step), FetchError(FetchedData(step, w).error))))
    ensures r.1.Some? && r.1.value.Succeeded? ==>
      && ImporterKnown(step, w) && !SourceMissing(step, w) && FetchedData(step, w).Ok?
      && var config := prepare(step, step.importer.s, FetchedData(step, w).value, kwargs);
      && var importer := w.importers[step.importer.s];
      && importer.validate(config) == Ok(true)
      && importer.run(s, config) == (r.0, Ok(r.1.value.result))
    ensures r.1.Some? && r.1.value.Failed? && r.1.value.failure == ValidationFailed ==> r.0 == s
  {
    if Skipped(step, kwargs) then (s, None)
    else
      var name := StepName(step);
      if !ImporterKnown(step, w) then (s, Some(Failed(name, InvalidImporter(step.importer))))
      else if SourceMissing(step, w) then (s, Some(Failed(name, InvalidDataSource(step.dataSource))))
      else match FetchedData(step, w)
        case Err(e) => (s, Some(Failed(name, FetchError(e))))
        case Ok(data) =>
          var importer := w.importers[step.importer.s];
          var config := prepare(step, step.importer.s, data, kwargs);
          match importer.validate(config)
          case Err(e) => (s, Some(Failed(name, ImportError(e))))
          case Ok(false) => (s, Some(Failed(name, ValidationFailed)))
          case Ok(true) =>
            var (s', outcome) := importer.run(s, config);
            match outcome
            case Err(e) => (s', Some(Failed(name, ImportError(e))))
            case Ok(v) => (s', Some(Succeeded(name, v)))
  }

  // ---------------------------------------------------------------------
  // The step loop

  /** The steps that are not skipped, in order. */
  function NonSkipped(steps: seq<Step>, kwargs: Kwargs): (r: seq<Step>)
    ensures |r| <= |steps|
  {
    if |steps| == 0 then []
    else
      var rest := NonSkipped(steps[..|steps| - 1], kwargs);
      if Skipped(steps[|steps| - 1], kwargs) then rest else rest + [steps[|steps| - 1]]
  }

  /** The loop over `import_steps`: one entry per non-skipped step, named after it, in step order. */
  function RunSteps<S>(s: S, steps: seq<Step>, w: Wiring<S>, kwargs: Kwargs, prepare: Prepare): (r: (S, seq<StepResult>))
    ensures |r.1| == |NonSkipped(steps, kwargs)|
    ensures forall j :: 0 <= j < |r.1| ==> r.1[j].step == StepName(NonSkipped(steps, kwargs)[j])
  {
    if |steps| == 0 then (s, [])
    else
      var (s1, rs) := RunSteps(s, steps[..|steps| - 1], w, kwargs, prepare);
      var (s2, one) := RunStep(s1, steps[|steps| - 1], w, kwargs, prepare);
      if one.Some? then (s2, rs + [one.value]) else (s2, rs)
  }

  /** `len([r for r in results if r["status"] == "success"])`. */
  function Successes(rs: seq<StepResult>): (n: nat)
    ensures n <= |rs|
  {
    if |rs| == 0 then 0 else Successes(rs[..|rs| - 1]) + if rs[|rs| - 1].Succeeded? then 1 else 0
  }

  /** `len([r for r in results if r["status"] == "error"])`. */
  function Failures(rs: seq<StepResult>): (n: nat)
    ensures n <= |rs|
  {
    if |rs| == 0 then 0 else Failures(rs[..|rs| - 1]) + if rs[|rs| - 1].Failed? then 1 else 0
  }

  /** Every entry is either a success or an error. */
  lemma {:induction false} SuccessesPlusFailures(rs: seq<StepResult>)
    ensures Successes(rs) + Failures(rs) == |rs|
  {
    if |rs| > 0 {
      SuccessesPlusFailures(rs[..|rs| - 1]);
    }
  }

  /** The dict `import_location` returns. */
  datatype Summary = Summary(location: string, stepsTotal: nat, succeeded: nat, failed: nat, results: seq<StepResult>)

  /** The step loop and the summary built from it, shared by the orchestrator and its dry-run variant. */
  function Summarize<S>(s: S, key: string, loc: Location<S>, w: Wiring<S>, kwargs: Kwargs, prepare: Prepare): (r: (S, Summary))
    ensures r.1.location == key
    ensures r.1.stepsTotal == |loc.steps|
    ensures r.1.succeeded + r.1.failed == |r.1.results| == |NonSkipped(loc.steps, kwargs)| <= r.1.stepsTotal
    ensures forall j :: 0 <= j < |r.1.results| ==> r.1.results[j].step == StepName(NonSkipped(loc.steps, kwargs)[j])
  {
    var (s', results) := RunSteps(s, loc.steps, w, kwargs, prepare);
    SuccessesPlusFailures(results);
    (s', Summary(key, |loc.steps|, Successes(results), Failures(results), results))
  }

  /**
   * Where the live orchestrator puts the fetched data: a FeatureCollection
   * for the district importer under "geojson_data", any other truthy data
   * under "data"; nothing else in the copied config changes.
   */
  function RouteData(config: map<string, Value>, importerKey: string, data: Value): (r: map<string, Value>)
    ensures forall p :: p != "data" && p != "geojson_data" ==> (p in r <==> p in config) && (p in r ==> r[p] == config[p])
    ensures importerKey == "district_importer" && IsFeatureCollection(data) ==>
      "geojson_data" in r && r["geojson_data"] == data && ("data" in r <==> "data" in config) && ("data" in r ==> r["data"] == config["data"])
    ensures !(importerKey == "district_importer" && IsFeatureCollection(data)) && Truthy(data) ==>
      "data" in r && r["data"] == data && ("geojson_data" in r <==> "geojson_data" in config) && ("geojson_data" in r ==> r["geojson_data"] == config["geojson_data"])
    ensures !Truthy(data) ==> r == config
  {
    if importerKey == "district_importer" && Truthy(data) && IsFeatureCollection(data) then config["geojson_data" := data]
    else if Truthy(data) then config["data" := data]
    else config
  }

  /** The live import config: the step's config with the data routed in, then the overrides merged. */
  function LiveConfig(step: Step, importerKey: string, data: Value, kwargs: Kwargs): map<string, Value> {
    ApplyOverrides(RouteData(step.config, importerKey, data), StepName(step), kwargs)
  }

  /** `import_location`: an unknown key or a failing constructor raises; otherwise the summary of the step loop. */
  function ImportLocation<S>(s: S, reg: Registry<S>, key: string, kwargs: Kwargs): (r: Result<(S, Summary), Error>)
    ensures Find(reg, key).None? ==> r == Err(ValueError("Unknown location: " + key))
    ensures Find(reg, key).Some? && Find(reg, key).value.Err? ==> r == Err(Find(reg, key).value.error)
    ensures r.Ok? ==> Find(reg, key).Some? && Find(reg, key).value.Ok?
    ensures r.Ok? ==> var loc := Find(reg, key).value.value;
      && r.value.1.stepsTotal == |loc.steps|
      && r.value.1.succeeded + r.value.1.failed == |r.value.1.results| == |NonSkipped(loc.steps, kwargs)|
  {
    match Find(reg, key)
    case None => Err(ValueError("Unknown location: " + key))
    case Some(Err(e)) => Err(e)
    case Some(Ok(loc)) => Ok(Summarize(s, key, loc, loc.wiring, kwargs, LiveConfig))
  }

  /** A skip flag for every step turns the whole import into a no-op with no results. */
  lemma {:induction false} SkippingEveryStepRunsNothing<S>(s: S, steps: seq<Step>, w: Wiring<S>, kwargs: Kwargs, prepare: Prepare)
    requires forall i :: 0 <= i < |steps| ==> Skipped(steps[i], kwargs)
    ensures RunSteps(s, steps, w, kwargs, prepare) == (s, [])
  {
    if |steps| > 0 {
      SkippingEveryStepRunsNothing(s, steps[..|steps| - 1], w, kwargs, prepare);
    }
  }
}
