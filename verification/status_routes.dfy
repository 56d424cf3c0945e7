/**
 * The `/status` routes: the same upsert as the service with 404 responses,
 * and listing that filters the first page in memory.
 */
module StatusRoutes {
  import opened Wrappers
  import opened PyJson
  import opened Models
  import opened SqlStore
  import opened Database
  import opened StatusService

  /** `GET /status/`: the first page, filtered by project and then by entity. */
  function RouteListStatusRecords(db: Db, projectId: Value, entityId: Value): (r: seq<Row>)
    ensures forall x :: x in r <==>
      && x in ListFirstPage(StatusRecordsTable(db))
      && (Truthy(projectId) ==> Col(x, "project_id") == projectId)
      && (Truthy(entityId) ==> Col(x, "entity_id") == entityId)
  {
    var page := ListFirstPage(StatusRecordsTable(db));
    var byProject := if Truthy(projectId) then WithField(page, "project_id", projectId) else page;
    if Truthy(entityId) then WithField(byProject, "entity_id", entityId) else byProject
  }

  /** `POST /status/`: 404 for a missing project, then for a missing entity, else the upsert. */
  function RouteCreateStatusRecord(db: Db, data: Row, freshId: Value): (r: Result<(Db, Option<Row>), Error>)
    ensures !HasId(ProjectsTable(db), Col(data, "project_id")) ==> r == Err(Http(404, "Project not found"))
    ensures HasId(ProjectsTable(db), Col(data, "project_id")) && !HasId(EntitiesTable(db), Col(data, "entity_id")) ==>
      r == Err(Http(404, "Entity not found"))
    ensures MissingReference(db, data).None? ==> r == Upsert(db, data, freshId)
  {
    match MissingReference(db, data)
    case Some(msg) => Err(Http(404, msg))
    case None => Upsert(db, data, freshId)
  }

  /** The route and the service store the same thing and differ only in how a missing reference is reported. */
  lemma RouteAndServiceUpsertAgree(db: Db, data: Row, freshId: Value)
    ensures RouteCreateStatusRecord(db, data, freshId).Ok? <==> CreateStatusRecord(db, data, freshId).Ok?
    ensures RouteCreateStatusRecord(db, data, freshId).Ok? ==> RouteCreateStatusRecord(db, data, freshId) == CreateStatusRecord(db, data, freshId)
    ensures MissingReference(db, data).Some? ==>
      && CreateStatusRecord(db, data, freshId) == Err(ValueError(MissingReference(db, data).value))
      && RouteCreateStatusRecord(db, data, freshId) == Err(Http(404, MissingReference(db, data).value))
  {
  }

  /** `GET /status/{id}`. */
  function RouteGetStatusRecord(db: Db, recordId: Value): (r: Result<Row, Error>)
    ensures r.Err? <==> !HasId(StatusRecordsTable(db), recordId)
    ensures r.Err? ==> r.error == Http(404, "Status record not found")
    ensures r.Ok? ==> r.value in db.statusRecords && IdOf(r.value) == recordId
  {
    match GetRow(StatusRecordsTable(db), recordId)
    case None => Err(Http(404, "Status record not found"))
    case Some(row) => Ok(row)
  }

  /** `PUT /status/{id}`. */
  function RouteUpdateStatusRecord(db: Db, recordId: Value, data: Row): (r: Result<(Db, Option<Row>), Error>)
    ensures !HasId(StatusRecordsTable(db), recordId) ==> r == Err(Http(404, "Status record not found"))
    ensures r.Ok? ==> r.value.1.Some? && r.value.0 == db.(statusRecords := r.value.0.statusRecords)
    ensures r.Ok? ==> PatchedAt(StatusRecordsTable(db), recordId, data, r.value.0.statusRecords, r.value.1.value)
  {
    if GetRow(StatusRecordsTable(db), recordId).None? then Err(Http(404, "Status record not found"))
    else
      var (t, row) :- Update(StatusRecordsTable(db), recordId, data);
      UpdatePatchesAt(StatusRecordsTable(db), recordId, data);
      Ok((db.(statusRecords := t.rows), row))
  }

  /** `DELETE /status/{id}`: 404 for a missing id, otherwise the provider's delete. */
  function RouteDeleteStatusRecord(db: Db, recordId: Value): (r: Result<(Db, bool), Error>)
    ensures !HasId(StatusRecordsTable(db), recordId) ==> r == Err(Http(404, "Status record not found"))
    ensures HasId(StatusRecordsTable(db), recordId) ==> r.Ok? && r.value.1
    ensures r.Ok? ==> r.value.0 == db.(statusRecords := r.value.0.statusRecords)
    ensures r.Ok? ==> RemovedOnce(db.statusRecords, recordId, r.value.0.statusRecords)
  {
    if GetRow(StatusRecordsTable(db), recordId).None? then Err(Http(404, "Status record not found"))
    else
      var (t, deleted) := Delete(StatusRecordsTable(db), recordId);
      DeleteIsRemovedOnce(StatusRecordsTable(db), recordId);
      Ok((db.(statusRecords := t.rows), deleted))
  }

  /** With unique record ids, the route's delete leaves no record with the id and keeps every other record. */
  lemma RouteDeleteStatusRecordRemovesIt(db: Db, recordId: Value)
    requires Valid(StatusRecordsTable(db))
    requires RouteDeleteStatusRecord(db, recordId).Ok?
    ensures var db' := RouteDeleteStatusRecord(db, recordId).value.0;
      GetRow(StatusRecordsTable(db'), recordId).None? &&
      forall x :: x in db.statusRecords && IdOf(x) != recordId ==> x in db'.statusRecords
  {
    DeleteRemovesExactlyThatRow(StatusRecordsTable(db), recordId);
  }
}
