/**
 * `JurisdictionImporter`, and the lookup of a jurisdiction by name that
 * every importer starts from.
 */
module JurisdictionImporter {
  import opened Wrappers
  import opened PyJson
  import opened Models
  import opened SqlStore
  import opened Database

  /** The position of the first row of `rows` whose `name` is `name`. */
  function FirstNamedIndex(rows: seq<Row>, name: Value): (r: Option<nat>)
    ensures r.Some? ==> r.value < |rows| && Col(rows[r.value], "name") == name && NoneNamedBefore(rows, r.value, name)
    ensures r.None? ==> NoneNamedBefore(rows, |rows|, name)
    decreases |rows|
  {
    if |rows| == 0 then None
    else if Col(rows[0], "name") == name then Some(0)
    else match FirstNamedIndex(rows[1..], name)
      case None => None
      case Some(k) => Some(k + 1)
  }

  /** The first row of `rows` whose `name` is `name`. */
  function FirstNamed(rows: seq<Row>, name: Value): (r: Option<Row>)
    ensures r.Some? ==> r.value in rows && Col(r.value, "name") == name
    ensures r.None? <==> forall x :: x in rows ==> Col(x, "name") != name
    ensures r.Some? ==> exists i :: 0 <= i < |rows| && rows[i] == r.value && NoneNamedBefore(rows, i, name)
  {
    match FirstNamedIndex(rows, name)
    case None => None
    case Some(i) => Some(rows[i])
  }

  predicate NoneNamedBefore(rows: seq<Row>, i: nat, name: Value)
    requires i <= |rows|
  {
    forall j :: 0 <= j < i ==> Col(rows[j], "name") != name
  }

  /**
   * `_get_jurisdiction_id`: the id of the first jurisdiction with that name
   * among those `list_jurisdictions()` returns, which is the first page.
   */
  function JurisdictionIdByName(db: Db, name: Value): (r: Result<Value, Error>)
    ensures r.Ok? <==> exists j :: j in ListFirstPage(JurisdictionsTable(db)) && Col(j, "name") == name
    ensures r.Ok? ==> exists j :: j in db.jurisdictions && Col(j, "name") == name && IdOf(j) == r.value
    ensures r.Err? ==> r.error == ValueError("Jurisdiction not found with name: " + Show(name))
  {
    match FirstNamed(ListFirstPage(JurisdictionsTable(db)), name)
    case None => Err(ValueError("Jurisdiction not found with name: " + Show(name)))
    case Some(j) => Ok(IdOf(j))
  }

  datatype Operation = Created | Updated

  /** `import_data(name, description, level, id)`: the operation and the stored jurisdiction. */
  function ImportJurisdiction(db: Db, name: Value, description: Value, level: Value, id: Value, freshId: Value)
    : (r: Result<(Db, Operation, Option<Row>), Error>)
    ensures Truthy(id) && HasId(JurisdictionsTable(db), id) ==> r.Ok? ==> r.value.1 == Updated && r.value.0 == db.(jurisdictions := r.value.0.jurisdictions)
    ensures r.Ok? && r.value.1 == Created ==>
      && r.value.2 == Some(NewRow(JurisdictionsSchema, JurisdictionData(name, description, level), freshId))
      && r.value.0 == db.(jurisdictions := db.jurisdictions + [r.value.2.value])
    ensures r.Ok? && r.value.1 == Updated ==> |r.value.0.jurisdictions| == |db.jurisdictions|
  {
    var data := JurisdictionData(name, description, level);
    var byName := FirstNamed(ListFirstPage(JurisdictionsTable(db)), name);
    if Truthy(id) && HasId(JurisdictionsTable(db), id) then
      var (t, row) :- Update(JurisdictionsTable(db), id, data);
      Ok((db.(jurisdictions := t.rows), Updated, row))
    else if !Truthy(id) && byName.Some? then
      var (t, row) :- Update(JurisdictionsTable(db), IdOf(byName.value), data);
      Ok((db.(jurisdictions := t.rows), Updated, row))
    else
      var (t, row) :- Create(JurisdictionsTable(db), data, freshId);
      Ok((db.(jurisdictions := t.rows), Created, Some(row)))
  }

  /** `JurisdictionBase(name=…, description=…, level=…)`. */
  function JurisdictionData(name: Value, description: Value, level: Value): (r: Row)
    ensures r.Keys == {"name", "description", "level"}
  {
    map["name" := name, "description" := description, "level" := level]
  }

  /**
   * The decision table of the importer: an existing id is updated; a given
   * id that does not exist is created afresh whatever the names; without an
   * id, the first jurisdiction of that name is updated; otherwise created.
   */
  lemma ImportJurisdictionRule(db: Db, name: Value, description: Value, level: Value, id: Value, freshId: Value)
    requires ImportJurisdiction(db, name, description, level, id, freshId).Ok?
    ensures ImportJurisdiction(db, name, description, level, id, freshId).value.1 == Updated <==>
      (if Truthy(id) then HasId(JurisdictionsTable(db), id)
       else exists j :: j in ListFirstPage(JurisdictionsTable(db)) && Col(j, "name") == name)
  {
  }

  /** Without an id, the row updated is the first of that name. */
  lemma ImportJurisdictionUpdatesFirstNamed(db: Db, name: Value, description: Value, level: Value, freshId: Value)
    requires Valid(JurisdictionsTable(db))
    requires FirstNamed(ListFirstPage(JurisdictionsTable(db)), name).Some?
    requires ImportJurisdiction(db, name, description, level, Null, freshId).Ok?
    ensures var target := FirstNamed(ListFirstPage(JurisdictionsTable(db)), name).value;
            var r := ImportJurisdiction(db, name, description, level, Null, freshId).value;
            r.1 == Updated && r.2 == Some(Patch(JurisdictionsSchema, target, JurisdictionData(name, description, level)))
  {
    var target := FirstNamed(ListFirstPage(JurisdictionsTable(db)), name).value;
    var t := JurisdictionsTable(db);
    assert target in t.rows;
    assert HasId(t, IdOf(target));
    var i := IndexOfId(t.rows, IdOf(target)).value;
    var k :| 0 <= k < |t.rows| && t.rows[k] == target;
    assert t.rows[i] == target;
  }

  /** `validate_import`. */
  function ValidateJurisdictionImport(kwargs: set<string>): (r: bool)
    ensures r <==> "name" in kwargs && "description" in kwargs && "level" in kwargs
  {
    var required := ["name", "description", "level"];
    assert required[0] == "name" && required[1] == "description" && required[2] == "level";
    forall k :: 0 <= k < |required| ==> required[k] in kwargs
  }
}
