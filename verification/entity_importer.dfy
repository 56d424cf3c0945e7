/**
 * `EntityImporter`: the field-spec extractor `_extract_value` and the
 * per-item create-or-update loop of `import_data`.
 */
module EntityImporter {
  import opened Wrappers
  import opened PyJson
  import opened Models
  import opened SqlStore
  import opened Database
  import EntityService
  import DistrictService
  import opened JurisdictionImporter

  // ---------------------------------------------------------------------
  // _extract_value

  /**
   * A string spec: with a dot, split at the first dot and descend only into
   * a truthy dict; without one, `data.get(spec)`. `get` on a value that is
   * not a dict raises AttributeError.
   */
  function ExtractPath(data: Value, spec: string): (r: Result<Value, Error>)
    ensures !data.Obj? ==> r.Err?
    ensures data.Obj? && '.' !in spec ==> r == Ok(Get(data.fields, spec, Null))
    decreases |spec|
  {
    if !data.Obj? then Err(AttributeError("get"))
    else match SplitFirst(spec, '.')
      case None => Ok(Get(data.fields, spec, Null))
      case Some((head, tail)) =>
        var parent := Get(data.fields, head, Null);
        if Truthy(parent) && parent.Obj? then ExtractPath(parent, tail) else Ok(Null)
  }

  /**
   * `_extract_value(data, field_spec)`: `None` gives `None`, a list tries
   * each spec in turn, a string is a path. A dict spec passes the
   * `"." in field_spec` test as a key lookup and then fails: `split` is
   * missing, `get` is missing on data that is not a dict, and a dict key
   * cannot be a dict. Any other spec raises TypeError at that test.
   */
  function ExtractValue(data: Value, spec: Value): (r: Result<Value, Error>)
    ensures spec == Null ==> r == Ok(Null)
    ensures spec.Str? ==> r == ExtractPath(data, spec.s)
    decreases spec, 1, 0
  {
    match spec
    case Null => Ok(Null)
    case Str(s) => ExtractPath(data, s)
    case Arr(specs) => ExtractFirst(data, spec, 0)
    case Obj(keys) =>
      if "." in keys then Err(AttributeError("split"))
      else if !data.Obj? then Err(AttributeError("get"))
      else Err(TypeError("unhashable type: 'dict'"))
    case _ => Err(TypeError("argument of type is not iterable"))
  }

  /** The list case from position `i` on: the first truthy value, or `None`. */
  function ExtractFirst(data: Value, spec: Value, i: nat): Result<Value, Error>
    requires spec.Arr? && i <= |spec.items|
    decreases spec, 0, |spec.items| - i
  {
    if i == |spec.items| then Ok(Null)
    else
      var v :- ExtractValue(data, spec.items[i]);
      if Truthy(v) then Ok(v) else ExtractFirst(data, spec, i + 1)
  }

  /**
   * A list spec yields the value of the first spec whose value is truthy;
   * when there is none, `None`; an error raised on the way ends the scan.
   */
  lemma {:induction false} ExtractListMeaning(data: Value, spec: Value, i: nat)
    requires spec.Arr? && i <= |spec.items|
    ensures var r := ExtractFirst(data, spec, i);
            && (r.Ok? && Truthy(r.value) ==> exists k :: i <= k < |spec.items| && FirstTruthyAt(data, spec.items, i, k) && r == ExtractValue(data, spec.items[k]))
            && (r.Ok? && !Truthy(r.value) ==> r.value == Null && AllFalsyFrom(data, spec.items, i))
            && (r.Err? ==> exists k :: i <= k < |spec.items| && ExtractValue(data, spec.items[k]) == r)
    decreases |spec.items| - i
  {
    if i < |spec.items| {
      ExtractListMeaning(data, spec, i + 1);
      var r := ExtractFirst(data, spec, i);
      var v := ExtractValue(data, spec.items[i]);
      if v.Ok? && !Truthy(v.value) {
        var r' := ExtractFirst(data, spec, i + 1);
        assert r == r';
        if r.Ok? && Truthy(r.value) {
          var k :| i + 1 <= k < |spec.items| && FirstTruthyAt(data, spec.items, i + 1, k) && r' == ExtractValue(data, spec.items[k]);
          assert FirstTruthyAt(data, spec.items, i, k);
        }
      } else if v.Ok? {
        assert FirstTruthyAt(data, spec.items, i, i);
      }
    }
  }

  /** Every spec from `i` on extracts without error to a falsy value. */
  predicate AllFalsyFrom(data: Value, specs: seq<Value>, i: nat)
    requires i <= |specs|
  {
    forall j :: i <= j < |specs| ==> ExtractValue(data, specs[j]).Ok? && !Truthy(ExtractValue(data, specs[j]).value)
  }

  /** `specs[k]` is the first spec from `i` on that extracts a truthy value. */
  predicate FirstTruthyAt(data: Value, specs: seq<Value>, i: nat, k: nat)
    requires i <= k < |specs|
  {
    && ExtractValue(data, specs[k]).Ok? && Truthy(ExtractValue(data, specs[k]).value)
    && forall j :: i <= j < k ==> ExtractValue(data, specs[j]).Ok? && !Truthy(ExtractValue(data, specs[j]).value)
  }

  /** A list spec is a fallback chain: the first spec with a truthy value decides. */
  lemma ExtractListFallback(data: Value, first: Value, second: Value)
    requires ExtractValue(data, first).Ok? && ExtractValue(data, second).Ok?
    ensures Truthy(ExtractValue(data, first).value) ==> ExtractValue(data, Arr([first, second])) == ExtractValue(data, first)
    ensures !Truthy(ExtractValue(data, first).value) && Truthy(ExtractValue(data, second).value) ==>
      ExtractValue(data, Arr([first, second])) == ExtractValue(data, second)
    ensures !Truthy(ExtractValue(data, first).value) && !Truthy(ExtractValue(data, second).value) ==>
      ExtractValue(data, Arr([first, second])) == Ok(Null)
  {
    var spec := Arr([first, second]);
    assert spec.items[0] == first && spec.items[1] == second;
    assert ExtractFirst(data, spec, 2) == Ok(Null);
    if !Truthy(ExtractValue(data, first).value) {
      assert ExtractFirst(data, spec, 0) == ExtractFirst(data, spec, 1);
    }
  }

  /**
   * A dotted path descends only into dicts: when the first segment names
   * anything else (a list, as in "offices.0.voice"), the result is `None`.
   */
  lemma DottedPathStopsAtNonDict(data: Value, head: string, tail: string)
    requires data.Obj? && '.' !in head
    requires !Get(data.fields, head, Null).Obj?
    ensures ExtractValue(data, Str(head + ['.'] + tail)) == Ok(Null)
  {
    SplitAtFirstDot(head, tail);
  }

  /** A dotted path into a dict is the rest of the path on that dict. */
  lemma DottedPathDescends(data: Value, head: string, tail: string)
    requires data.Obj? && '.' !in head
    requires Get(data.fields, head, Null).Obj? && Truthy(Get(data.fields, head, Null))
    ensures ExtractValue(data, Str(head + ['.'] + tail)) == ExtractPath(Get(data.fields, head, Null), tail)
  {
    SplitAtFirstDot(head, tail);
  }

  // ---------------------------------------------------------------------
  // import_data

  /** What one item of the loop came to. */
  datatype Outcome = CreatedEntity(created: Row) | UpdatedEntity(updated: Option<Row>) | Failed

  datatype EntityImportResult = EntityImportResult(created: nat, updated: nat, errors: nat, entities: seq<Option<Row>>)

  /**
   * The constant part of every item: the arguments of `import_data`. The
   * mapping is whatever the caller passed; only a dict has a `get`.
   */
  datatype Settings = Settings(jurisdictionId: Value, entityType: Value, title: Value, mapping: Value)

  /** The mapping's entries, once `mapping.get` has succeeded on it. */
  function MappingFields(s: Settings): map<string, Value> {
    if s.mapping.Obj? then s.mapping.fields else map[]
  }

  const OptionalFields: seq<string> := ["email", "phone", "website", "address"]

  /** The optional fields from `OptionalFields[i..]` that the mapping names and whose value is truthy. */
  function OptionalData(item: Value, mapping: map<string, Value>, i: nat): (r: Result<Row, Error>)
    requires i <= |OptionalFields|
    ensures r.Ok? ==> forall f :: f in r.value ==> f in OptionalFields[i..] && f in mapping && Truthy(r.value[f])
    decreases |OptionalFields| - i
  {
    if i == |OptionalFields| then Ok(map[])
    else
      var rest :- OptionalData(item, mapping, i + 1);
      var f := OptionalFields[i];
      if f in mapping then
        var v :- ExtractValue(item, mapping[f]);
        if Truthy(v) then Ok(rest[f := v]) else Ok(rest)
      else Ok(rest)
  }

  /** The entity fields an item yields once its name is known, without the optional ones. */
  function BaseData(db: Db, s: Settings, name: Value, districtCode: Value): (r: Row)
    ensures Col(r, "name") == name && Col(r, "jurisdiction_id") == s.jurisdictionId
    ensures "district_id" in r <==> Truthy(districtCode) && DistrictService.FindDistrictByCode(db, Show(districtCode), s.jurisdictionId).Some?
  {
    var base := map["name" := name, "entity_type" := s.entityType, "title" := s.title, "jurisdiction_id" := s.jurisdictionId];
    if Truthy(districtCode) then
      match DistrictService.FindDistrictByCode(db, Show(districtCode), s.jurisdictionId)
      case Some(d) => base["district_id" := IdOf(d)]
      case None => base
    else base
  }

  /** The entity of the jurisdiction that the item's name matches first, if any. */
  function ExistingByName(db: Db, s: Settings, name: Value): Option<Row> {
    FirstNamed(EntityService.EntityRows(EntityService.ListEntities(db, s.jurisdictionId)), name)
  }

  /**
   * The `except` handler: it logs `item.get('name', …)`, which raises again
   * (and leaves the loop) when the item is not a dict.
   */
  function Handle(db: Db, item: Value): Result<(Db, Outcome), Error> {
    if item.Obj? then Ok((db, Failed)) else Err(AttributeError("get"))
  }

  /**
   * The item's name, as the mapping's `name` spec (by default "name")
   * extracts it; `mapping.get` raises AttributeError, inside the loop's
   * `try`, when the mapping is not a dict.
   */
  function ItemName(s: Settings, item: Value): Result<Value, Error> {
    if s.mapping.Obj? then ExtractValue(item, Get(s.mapping.fields, "name", Str("name")))
    else Err(AttributeError("get"))
  }

  /** One iteration of the loop: a falsy name is an error and changes nothing; a named item updates its namesake or creates. */
  function ImportItem(db: Db, s: Settings, item: Value, freshId: Value): (r: Result<(Db, Outcome), Error>)
    ensures r.Ok? && r.value.1 == Failed ==> r.value.0 == db
    ensures r.Ok? && r.value.1.CreatedEntity? ==> r.value.0 == db.(entities := db.entities + [r.value.1.created])
    ensures r.Ok? && r.value.1.UpdatedEntity? ==> r.value.0 == db.(entities := r.value.0.entities) && |r.value.0.entities| == |db.entities|
    ensures ItemName(s, item).Ok? && !Truthy(ItemName(s, item).value) ==> r == Ok((db, Failed))
    ensures r.Ok? && !r.value.1.Failed? ==> ItemName(s, item).Ok? && Truthy(ItemName(s, item).value)
    ensures r.Ok? && r.value.1.CreatedEntity? ==> ExistingByName(db, s, ItemName(s, item).value).None?
    ensures r.Ok? && r.value.1.UpdatedEntity? ==> ExistingByName(db, s, ItemName(s, item).value).Some?
  {
    match ItemName(s, item)
    case Err(_) => Handle(db, item)
    case Ok(name) =>
      if !Truthy(name) then Ok((db, Failed))
      else
        match ExtractValue(item, Get(MappingFields(s), "district_code", Null))
        case Err(_) => Handle(db, item)
        case Ok(code) =>
          match OptionalData(item, MappingFields(s), 0)
          case Err(_) => Handle(db, item)
          case Ok(optional) =>
            var data := BaseData(db, s, name, code) + optional;
            match ExistingByName(db, s, name)
            case Some(e) =>
              (match EntityService.UpdateEntity(db, IdOf(e), data)
               case Err(_) => Handle(db, item)
               case Ok((db', row)) => Ok((db', UpdatedEntity(row))))
            case None =>
              (match EntityService.CreateEntity(db, data, freshId)
               case Err(_) => Handle(db, item)
               case Ok((db', row)) => Ok((db', CreatedEntity(row))))
  }

  /** The loop over `items`, in order; item `k` may take `freshId(k)` as its new id. */
  function ImportItems(db: Db, s: Settings, items: seq<Value>, freshId: nat -> Value): (r: Result<(Db, EntityImportResult), Error>)
    ensures r.Ok? ==> r.value.1.created + r.value.1.updated + r.value.1.errors == |items|
    ensures r.Ok? ==> |r.value.1.entities| == r.value.1.created + r.value.1.updated
    ensures r.Ok? ==> |r.value.0.entities| == |db.entities| + r.value.1.created
    decreases |items|
  {
    if |items| == 0 then Ok((db, EntityImportResult(0, 0, 0, [])))
    else
      var n := |items| - 1;
      var (db1, acc) :- ImportItems(db, s, items[..n], freshId);
      var (db2, outcome) :- ImportItem(db1, s, items[n], freshId(n));
      match outcome
      case CreatedEntity(row) => Ok((db2, acc.(created := acc.created + 1, entities := acc.entities + [Some(row)])))
      case UpdatedEntity(row) => Ok((db2, acc.(updated := acc.updated + 1, entities := acc.entities + [row])))
      case Failed => Ok((db2, acc.(errors := acc.errors + 1)))
  }

  /** The items `data_key` selects, or the error raised for a bad data shape. */
  function ActualItems(data: Value, dataKey: Value): (r: Result<seq<Value>, Error>)
    ensures Truthy(dataKey) && !(data.Obj? && dataKey.Str? && dataKey.s in data.fields) ==>
      r == Err(ValueError("Invalid data format: expected dict with key '" + Show(dataKey) + "'"))
    ensures r.Ok? && Truthy(dataKey) ==> data.Obj? && dataKey.Str? && Iterate(data.fields[dataKey.s]) == Some(r.value)
    ensures r.Ok? && !Truthy(dataKey) ==> Iterate(data) == Some(r.value)
    ensures r.Err? && !Truthy(dataKey) ==> r.error.TypeError? && !(data.Arr? || data.Str? || data.Obj?)
  {
    if Truthy(dataKey) && !(data.Obj? && dataKey.Str? && dataKey.s in data.fields) then
      Err(ValueError("Invalid data format: expected dict with key '" + Show(dataKey) + "'"))
    else
      var actual := if Truthy(dataKey) then data.fields[dataKey.s] else data;
      match Iterate(actual)
      case Some(items) => Ok(items)
      case None => Err(TypeError("object is not iterable"))
  }

  /** `import_data`. */
  function ImportEntities(db: Db, data: Value, jurisdictionName: Value, entityType: Value, title: Value,
                          mapping: Value, dataKey: Value, freshId: nat -> Value)
    : (r: Result<(Db, EntityImportResult), Error>)
    ensures JurisdictionIdByName(db, jurisdictionName).Err? ==> r == Err(JurisdictionIdByName(db, jurisdictionName).error)
    ensures JurisdictionIdByName(db, jurisdictionName).Ok? && ActualItems(data, dataKey).Err? ==> r == Err(ActualItems(data, dataKey).error)
    ensures r.Ok? ==> r.value.1.created + r.value.1.updated + r.value.1.errors == |ActualItems(data, dataKey).value|
    ensures r.Ok? ==> |r.value.1.entities| == r.value.1.created + r.value.1.updated
    ensures r.Ok? && !mapping.Obj? ==> r.value.0 == db && r.value.1 == EntityImportResult(0, 0, |ActualItems(data, dataKey).value|, [])
  {
    var jid :- JurisdictionIdByName(db, jurisdictionName);
    var items :- ActualItems(data, dataKey);
    var s := Settings(jid, entityType, title, mapping);
    if !mapping.Obj? then UnusableMappingFailsEveryItem(db, s, items, freshId); ImportItems(db, s, items, freshId)
    else ImportItems(db, s, items, freshId)
  }

  /** On an item that is not a dict, every spec extracts the same thing: `None` or an error. */
  lemma ExtractIgnoresNonDict(a: Value, b: Value, spec: Value)
    requires !a.Obj? && !b.Obj?
    ensures ExtractValue(a, spec) == ExtractValue(b, spec)
    ensures ExtractValue(a, spec).Ok? ==> ExtractValue(a, spec).value == Null
    decreases spec, 1, 0
  {
    if spec.Arr? {
      ExtractFirstIgnoresNonDict(a, b, spec, 0);
    }
  }

  lemma ExtractFirstIgnoresNonDict(a: Value, b: Value, spec: Value, i: nat)
    requires !a.Obj? && !b.Obj? && spec.Arr? && i <= |spec.items|
    ensures ExtractFirst(a, spec, i) == ExtractFirst(b, spec, i)
    ensures ExtractFirst(a, spec, i).Ok? ==> ExtractFirst(a, spec, i).value == Null
    decreases spec, 0, |spec.items| - i
  {
    if i < |spec.items| {
      ExtractIgnoresNonDict(a, b, spec.items[i]);
      ExtractFirstIgnoresNonDict(a, b, spec, i + 1);
    }
  }

  /**
   * An item that is not a dict (a string, a number, a list) never yields a
   * name: it is counted as an error, or the handler's `item.get` raises.
   * Which such item it is makes no difference.
   */
  lemma NonDictItemsAreAlike(db: Db, s: Settings, a: Value, b: Value, freshId: Value)
    requires !a.Obj? && !b.Obj?
    ensures ImportItem(db, s, a, freshId) == ImportItem(db, s, b, freshId)
    ensures ImportItem(db, s, a, freshId) == Ok((db, Failed)) || ImportItem(db, s, a, freshId) == Err(AttributeError("get"))
  {
    if s.mapping.Obj? {
      ExtractIgnoresNonDict(a, b, Get(s.mapping.fields, "name", Str("name")));
    }
  }

  /**
   * A loop over items none of which is a dict changes nothing and creates
   * nothing: it counts every item as an error, or stops at the handler's
   * AttributeError.
   */
  lemma {:induction false} NonDictItemsChangeNothing(db: Db, s: Settings, items: seq<Value>, freshId: nat -> Value)
    requires forall k :: 0 <= k < |items| ==> !items[k].Obj?
    ensures var r := ImportItems(db, s, items, freshId);
      && (r.Ok? ==> r.value == (db, EntityImportResult(0, 0, |items|, [])))
      && (r.Err? ==> r.error == AttributeError("get"))
    decreases |items|
  {
    if |items| > 0 {
      var n := |items| - 1;
      NonDictItemsChangeNothing(db, s, items[..n], freshId);
      NonDictItemsAreAlike(db, s, items[n], items[n], freshId(n));
    }
  }

  /**
   * With a mapping that is not a dict every item fails at `mapping.get`:
   * the loop counts each dict item as an error and stops at the first
   * other item, whose handler raises AttributeError.
   */
  lemma {:induction false} UnusableMappingFailsEveryItem(db: Db, s: Settings, items: seq<Value>, freshId: nat -> Value)
    requires !s.mapping.Obj?
    ensures ImportItems(db, s, items, freshId) ==
      if forall k :: 0 <= k < |items| ==> items[k].Obj? then Ok((db, EntityImportResult(0, 0, |items|, [])))
      else Err(AttributeError("get"))
    decreases |items|
  {
    if |items| > 0 {
      var n := |items| - 1;
      UnusableMappingFailsEveryItem(db, s, items[..n], freshId);
      assert forall k :: 0 <= k < n ==> items[..n][k] == items[k];
    }
  }

  /** `validate_import`. */
  function ValidateEntityImport(kwargs: set<string>): (r: bool)
    ensures r <==> {"jurisdiction_name", "entity_type", "title", "mapping"} <= kwargs && ("data_key" in kwargs ==> "data" in kwargs)
  {
    var required := ["jurisdiction_name", "entity_type", "title", "mapping"] + (if "data_key" in kwargs then ["data"] else []);
    assert required[0] == "jurisdiction_name" && required[1] == "entity_type" && required[2] == "title" && required[3] == "mapping";
    assert "data_key" in kwargs ==> required[4] == "data";
    forall k :: 0 <= k < |required| ==> required[k] in kwargs
  }
}
