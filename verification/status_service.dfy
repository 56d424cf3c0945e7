/**
 * `StatusService`: stance records of entities on projects. Creating a
 * record for an (entity, project) pair that already has one updates the
 * first such record instead, but the scan sees only the first page that
 * `list()` returns.
 */
module StatusService {
  import opened Wrappers
  import opened PyJson
  import opened Models
  import opened SqlStore
  import opened Database

  /** The (entity, project) pair a record is about. */
  function Pair(r: Row): (Value, Value) {
    (Col(r, "entity_id"), Col(r, "project_id"))
  }

  /** The store invariant the upsert aims at: no pair has two records. */
  predicate AtMostOnePerPair(rows: seq<Row>) {
    forall i, j :: 0 <= i < j < |rows| ==> Pair(rows[i]) != Pair(rows[j])
  }

  /** The position of the first row about `pair`. */
  function FirstWithPair(rows: seq<Row>, pair: (Value, Value)): (r: Option<nat>)
    ensures r.Some? ==> r.value < |rows| && Pair(rows[r.value]) == pair
    ensures r.Some? ==> forall j :: 0 <= j < r.value ==> Pair(rows[j]) != pair
    ensures r.None? <==> forall j :: 0 <= j < |rows| ==> Pair(rows[j]) != pair
    decreases |rows|
  {
    if |rows| == 0 then None
    else if Pair(rows[0]) == pair then Some(0)
    else
      match FirstWithPair(rows[1..], pair)
      case None => None
      case Some(k) => Some(k + 1)
  }

  /** The checks before an upsert: the project first, then the entity. */
  function MissingReference(db: Db, data: Row): (r: Option<string>)
    ensures r == Some("Project not found") <==> !HasId(ProjectsTable(db), Col(data, "project_id"))
    ensures r == Some("Entity not found") <==>
      HasId(ProjectsTable(db), Col(data, "project_id")) && !HasId(EntitiesTable(db), Col(data, "entity_id"))
    ensures r.None? <==> HasId(ProjectsTable(db), Col(data, "project_id")) && HasId(EntitiesTable(db), Col(data, "entity_id"))
  {
    if GetRow(ProjectsTable(db), Col(data, "project_id")).None? then Some("Project not found")
    else if GetRow(EntitiesTable(db), Col(data, "entity_id")).None? then Some("Entity not found")
    else None
  }

  /**
   * The scan-then-write step shared by the service and the route: update
   * the first record of the first page with the same pair, else create one.
   */
  function Upsert(db: Db, data: Row, freshId: Value): (r: Result<(Db, Option<Row>), Error>)
    ensures FirstWithPair(ListFirstPage(StatusRecordsTable(db)), Pair(data)).Some? ==>
      r.Ok? ==> |r.value.0.statusRecords| == |db.statusRecords|
    ensures FirstWithPair(ListFirstPage(StatusRecordsTable(db)), Pair(data)).None? ==>
      r.Ok? ==> r.value.1.Some? && r.value.0.statusRecords == db.statusRecords + [r.value.1.value]
    ensures r.Ok? ==> r.value.0 == db.(statusRecords := r.value.0.statusRecords)
  {
    var t := StatusRecordsTable(db);
    var page := ListFirstPage(t);
    match FirstWithPair(page, Pair(data))
    case Some(i) =>
      var (t', row) :- Update(t, IdOf(page[i]), data);
      Ok((db.(statusRecords := t'.rows), row))
    case None =>
      var (t', row) :- Create(t, data, freshId);
      Ok((db.(statusRecords := t'.rows), Some(row)))
  }

  /** `create_status_record`. */
  function CreateStatusRecord(db: Db, data: Row, freshId: Value): (r: Result<(Db, Option<Row>), Error>)
    ensures MissingReference(db, data).Some? ==> r == Err(ValueError(MissingReference(db, data).value))
    ensures MissingReference(db, data).None? ==> r == Upsert(db, data, freshId)
  {
    match MissingReference(db, data)
    case Some(msg) => Err(ValueError(msg))
    case None => Upsert(db, data, freshId)
  }

  /** Patching a record with data about the same pair keeps the pair. */
  lemma PatchKeepsPair(s: Schema, prev: Row, data: Row)
    requires Pair(prev) == Pair(data)
    ensures Pair(Patch(s, prev, data)) == Pair(prev)
  {
    var r := Patch(s, prev, data);
    assert Col(r, "entity_id") == Col(prev, "entity_id");
    assert Col(r, "project_id") == Col(prev, "project_id");
  }

  /** A created record is about the pair its data names. */
  lemma NewRecordHasDataPair(data: Row, freshId: Value)
    ensures Pair(NewRow(StatusRecordsSchema, data, freshId)) == Pair(data)
  {
    var r := NewRow(StatusRecordsSchema, data, freshId);
    assert "entity_id" in StatusRecordsSchema.columns && "project_id" in StatusRecordsSchema.columns;
    assert "entity_id" !in StatusRecordsSchema.defaults && "project_id" !in StatusRecordsSchema.defaults;
  }

  /**
   * While the whole store fits on the first page, an upsert keeps at most
   * one record per (entity, project) pair.
   */
  lemma UpsertKeepsPairsUnique(db: Db, data: Row, freshId: Value)
    requires Valid(StatusRecordsTable(db))
    requires |db.statusRecords| <= DefaultLimit
    requires AtMostOnePerPair(db.statusRecords)
    requires Upsert(db, data, freshId).Ok?
    ensures AtMostOnePerPair(Upsert(db, data, freshId).value.0.statusRecords)
  {
    var t := StatusRecordsTable(db);
    var rows := db.statusRecords;
    assert ListFirstPage(t) == rows;
    var rows' := Upsert(db, data, freshId).value.0.statusRecords;
    match FirstWithPair(rows, Pair(data))
    case Some(i) =>
      var u := Update(t, IdOf(rows[i]), data);
      assert rows' == u.value.0.rows;
      UpdateAt(t, IdOf(rows[i]), data, i);
      UpsertUpdateKeepsPairs(rows, i, data, t.schema);
    case None =>
      var row := NewRow(StatusRecordsSchema, data, freshId);
      assert rows' == rows + [row];
      NewRecordHasDataPair(data, freshId);
      forall a, b | 0 <= a < b < |rows'| ensures Pair(rows'[a]) != Pair(rows'[b]) {
        if b == |rows| {
          assert Pair(rows[a]) != Pair(data);
        }
      }
  }

  lemma UpsertUpdateKeepsPairs(rows: seq<Row>, k: nat, data: Row, s: Schema)
    requires k < |rows| && AtMostOnePerPair(rows)
    requires Pair(rows[k]) == Pair(data)
    ensures AtMostOnePerPair(rows[k := Patch(s, rows[k], data)])
  {
    PatchKeepsPair(s, rows[k], data);
    var rows' := rows[k := Patch(s, rows[k], data)];
    forall a, b | 0 <= a < b < |rows'| ensures Pair(rows'[a]) != Pair(rows'[b]) {
      assert Pair(rows'[a]) == Pair(rows[a]) && Pair(rows'[b]) == Pair(rows[b]);
    }
  }

  /** With ids distinct, the record updated is the first record of the first page with the pair. */
  lemma UpsertUpdatesFirstMatch(db: Db, data: Row, freshId: Value)
    requires Valid(StatusRecordsTable(db))
    requires FirstWithPair(ListFirstPage(StatusRecordsTable(db)), Pair(data)).Some?
    requires Upsert(db, data, freshId).Ok?
    ensures var i := FirstWithPair(ListFirstPage(StatusRecordsTable(db)), Pair(data)).value;
      && i < |db.statusRecords|
      && Upsert(db, data, freshId).value.0.statusRecords == db.statusRecords[i := Patch(StatusRecordsSchema, db.statusRecords[i], data)]
  {
    var t := StatusRecordsTable(db);
    var page := ListFirstPage(t);
    var i := FirstWithPair(page, Pair(data)).value;
    assert page[i] == db.statusRecords[i];
    UpdateAt(t, IdOf(page[i]), data, i);
  }

  /**
   * Past the first page the upsert is blind: when the only record of the
   * pair sits beyond the first `DefaultLimit` rows, a second one is created.
   */
  lemma UpsertBeyondFirstPageDuplicates(db: Db, data: Row, freshId: Value, j: nat)
    requires |db.statusRecords| > DefaultLimit
    requires DefaultLimit <= j < |db.statusRecords| && Pair(db.statusRecords[j]) == Pair(data)
    requires forall k :: 0 <= k < DefaultLimit ==> Pair(db.statusRecords[k]) != Pair(data)
    requires Upsert(db, data, freshId).Ok?
    ensures !AtMostOnePerPair(Upsert(db, data, freshId).value.0.statusRecords)
  {
    var page := ListFirstPage(StatusRecordsTable(db));
    assert forall k :: 0 <= k < |page| ==> page[k] == db.statusRecords[k];
    var rows' := Upsert(db, data, freshId).value.0.statusRecords;
    var n := |db.statusRecords|;
    NewRecordHasDataPair(data, freshId);
    assert rows'[j] == db.statusRecords[j];
    assert Pair(rows'[n]) == Pair(data);
  }

  /** `list_status_records`: filter_multiple with whichever ids are given, else the first page. */
  function ListStatusRecords(db: Db, projectId: Value, entityId: Value): (r: Result<seq<Row>, Error>)
    ensures !Truthy(projectId) && !Truthy(entityId) ==> r == Ok(ListFirstPage(StatusRecordsTable(db)))
    ensures (Truthy(projectId) || Truthy(entityId)) ==> (r.Err? <==> db.backend == Sql)
    ensures r.Ok? && (Truthy(projectId) || Truthy(entityId)) ==> forall x :: x in r.value <==>
      && x in db.statusRecords
      && (Truthy(projectId) ==> "project_id" in x && x["project_id"] == projectId)
      && (Truthy(entityId) ==> "entity_id" in x && x["entity_id"] == entityId)
  {
    var filters := IdFilters(projectId, entityId);
    if |filters| == 0 then Ok(ListFirstPage(StatusRecordsTable(db)))
    else
      forall x
        ensures Matches(StatusRecordsSchema, x, filters) && MatchesIn(x, map[]) <==>
          && (Truthy(projectId) ==> "project_id" in x && x["project_id"] == projectId)
          && (Truthy(entityId) ==> "entity_id" in x && x["entity_id"] == entityId)
      {
        IdFiltersMatch(projectId, entityId, x);
      }
      FilterMultiple(db.backend, StatusRecordsTable(db), filters, map[])
  }

  /** The filters `list_status_records` passes: the ids that are given. */
  function IdFilters(projectId: Value, entityId: Value): (r: Row)
    ensures |r| == 0 <==> !Truthy(projectId) && !Truthy(entityId)
    ensures r.Keys <= {"project_id", "entity_id"}
    ensures "project_id" in r <==> Truthy(projectId)
    ensures "entity_id" in r <==> Truthy(entityId)
    ensures "project_id" in r ==> r["project_id"] == projectId
    ensures "entity_id" in r ==> r["entity_id"] == entityId
  {
    var r := (if Truthy(projectId) then map["project_id" := projectId] else map[])
      + (if Truthy(entityId) then map["entity_id" := entityId] else map[]);
    assert Truthy(projectId) ==> "project_id" in r;
    assert Truthy(entityId) ==> "entity_id" in r;
    r
  }

  lemma IdFiltersMatch(projectId: Value, entityId: Value, x: Row)
    ensures Matches(StatusRecordsSchema, x, IdFilters(projectId, entityId)) <==>
      && (Truthy(projectId) ==> "project_id" in x && x["project_id"] == projectId)
      && (Truthy(entityId) ==> "entity_id" in x && x["entity_id"] == entityId)
  {
    var filters := IdFilters(projectId, entityId);
    var cols := StatusRecordsSchema.columns;
    assert "project_id" in cols && "entity_id" in cols;
    if && (Truthy(projectId) ==> "project_id" in x && x["project_id"] == projectId)
       && (Truthy(entityId) ==> "entity_id" in x && x["entity_id"] == entityId)
    {
      forall f | f in filters && f in cols
        ensures f in x && x[f] == filters[f]
      {
        assert f == "project_id" || f == "entity_id";
      }
    }
  }

  /** `get_status_record`. */
  function GetStatusRecord(db: Db, recordId: Value): (r: Option<Row>)
    ensures r.None? <==> !HasId(StatusRecordsTable(db), recordId)
    ensures r.Some? ==> r.value in db.statusRecords && IdOf(r.value) == recordId
  {
    GetRow(StatusRecordsTable(db), recordId)
  }

  /** `update_status_record`: `None` and no change for a missing id. */
  function UpdateStatusRecord(db: Db, recordId: Value, data: Row): (r: Result<(Db, Option<Row>), Error>)
    ensures !HasId(StatusRecordsTable(db), recordId) ==> r == Ok((db, None))
    ensures r.Ok? ==> r.value.0 == db.(statusRecords := r.value.0.statusRecords) && |r.value.0.statusRecords| == |db.statusRecords|
    ensures r.Ok? && r.value.1.Some? ==> PatchedAt(StatusRecordsTable(db), recordId, data, r.value.0.statusRecords, r.value.1.value)
  {
    if GetRow(StatusRecordsTable(db), recordId).None? then Ok((db, None))
    else
      var (t, row) :- Update(StatusRecordsTable(db), recordId, data);
      if row.Some? then
        UpdatePatchesAt(StatusRecordsTable(db), recordId, data);
        Ok((db.(statusRecords := t.rows), row))
      else Ok((db.(statusRecords := t.rows), row))
  }

  /** After a successful update, `get` by the record's id returns the patched record. */
  lemma UpdateStatusRecordThenGet(db: Db, recordId: Value, data: Row)
    requires UpdateStatusRecord(db, recordId, data).Ok? && UpdateStatusRecord(db, recordId, data).value.1.Some?
    ensures var (db', row) := (UpdateStatusRecord(db, recordId, data).value.0, UpdateStatusRecord(db, recordId, data).value.1.value);
      GetRow(StatusRecordsTable(db'), IdOf(row)) == Some(row)
  {
    UpdateThenGet(StatusRecordsTable(db), recordId, data);
  }

  /**
   * `delete_status_record`: `False` and no change for a missing id,
   * otherwise the first record with the id is removed and every other table
   * is kept.
   */
  function DeleteStatusRecord(db: Db, recordId: Value): (r: (Db, bool))
    ensures !r.1 <==> !HasId(StatusRecordsTable(db), recordId)
    ensures !r.1 ==> r.0 == db
    ensures r.1 ==> r.0 == db.(statusRecords := r.0.statusRecords)
    ensures r.1 ==> RemovedOnce(db.statusRecords, recordId, r.0.statusRecords)
  {
    if GetRow(StatusRecordsTable(db), recordId).None? then (db, false)
    else
      var (t, deleted) := Delete(StatusRecordsTable(db), recordId);
      DeleteIsRemovedOnce(StatusRecordsTable(db), recordId);
      (db.(statusRecords := t.rows), deleted)
  }

  /** With unique record ids, `get` after a delete finds nothing, and every other record is kept. */
  lemma DeleteStatusRecordThenGet(db: Db, recordId: Value)
    requires Valid(StatusRecordsTable(db))
    ensures var db' := DeleteStatusRecord(db, recordId).0;
      GetRow(StatusRecordsTable(db'), recordId).None? &&
      forall x :: x in db.statusRecords && IdOf(x) != recordId ==> x in db'.statusRecords
  {
    if HasId(StatusRecordsTable(db), recordId) {
      DeleteRemovesExactlyThatRow(StatusRecordsTable(db), recordId);
    }
  }
}
