/**
 * The `/projects` routes. They call the repository directly, count with
 * explicit-only semantics over every record of the project (whatever its
 * entity), and apply the status filter to the requested page only.
 */
module ProjectRoutes {
  import opened Wrappers
  import opened PyJson
  import opened Models
  import opened Aggregation
  import opened SqlStore
  import opened Database
  import opened ProjectService

  /** The distribution both routes attach: explicit-only counting over the first page of records. */
  function RouteDistribution(db: Db, projectId: Value): (d: Dist)
    ensures d.total == |WithField(ListFirstPage(StatusRecordsTable(db)), "project_id", projectId)|
    ensures |db.statusRecords| <= DefaultLimit ==> d.total == |WithField(db.statusRecords, "project_id", projectId)|
    ensures BucketSum(d) == d.total
  {
    CountExplicit(RecordsOf(WithField(ListFirstPage(StatusRecordsTable(db)), "project_id", projectId)))
  }

  /** The listed rows, in order, each with the route's distribution. */
  function WithRouteDistributions(db: Db, rows: seq<Row>): (r: seq<ProjectView>)
    ensures RowsOf(r) == rows
    ensures forall i :: 0 <= i < |r| ==> r[i].distribution == Some(RouteDistribution(db, IdOf(r[i].row)))
  {
    var r := seq(|rows|, i requires 0 <= i < |rows| => ProjectView(rows[i], Some(RouteDistribution(db, IdOf(rows[i]))), None));
    assert RowsOf(r) == rows;
    r
  }

  /** `GET /projects/`. */
  function RouteListProjects(db: Db, skip: nat, limit: nat, status: Option<ProjectStatus>): (r: seq<ProjectView>)
    ensures forall p :: p in RowsOf(r) <==>
      p in List(ProjectsTable(db), skip, limit) && (status.Some? ==> Col(p, "status") == Str(ProjectStatusValue(status.value)))
    ensures forall i :: 0 <= i < |r| ==> r[i].distribution == Some(RouteDistribution(db, IdOf(r[i].row)))
  {
    var page := List(ProjectsTable(db), skip, limit);
    WithRouteDistributions(db, if status.Some? then WithField(page, "status", Str(ProjectStatusValue(status.value))) else page)
  }

  /** A project outside the requested page is never listed, whatever its status. */
  lemma RouteListFiltersOnlyThePage(db: Db, skip: nat, limit: nat, status: Option<ProjectStatus>, i: nat)
    requires i < |db.projects| && (i < skip || i >= skip + limit)
    requires forall j :: 0 <= j < |db.projects| && j != i ==> db.projects[j] != db.projects[i]
    ensures db.projects[i] !in RowsOf(RouteListProjects(db, skip, limit, status))
  {
    var page := List(ProjectsTable(db), skip, limit);
    forall k | 0 <= k < |page|
      ensures page[k] != db.projects[i]
    {
      assert page[k] == db.projects[skip + k];
    }
  }

  /** `GET /projects/{id}`. */
  function RouteGetProject(db: Db, projectId: Value): (r: Result<ProjectView, Error>)
    ensures r.Err? <==> !HasId(ProjectsTable(db), projectId)
    ensures r.Err? ==> r.error == Http(404, "Project not found")
    ensures r.Ok? ==> r.value.row in db.projects && IdOf(r.value.row) == projectId
    ensures r.Ok? ==> r.value.distribution == Some(RouteDistribution(db, projectId))
  {
    match GetRow(ProjectsTable(db), projectId)
    case None => Err(Http(404, "Project not found"))
    case Some(p) => Ok(ProjectView(p, Some(RouteDistribution(db, projectId)), None))
  }

  /**
   * The routes count a record of the project whatever its entity, so a
   * record on an entity outside the project's jurisdiction still counts.
   */
  lemma RouteCountsRecordsOutsideJurisdiction(db: Db, projectId: Value, x: Row)
    requires x in ListFirstPage(StatusRecordsTable(db)) && Col(x, "project_id") == projectId
    ensures RouteDistribution(db, projectId).total >= 1
  {
    assert x in WithField(ListFirstPage(StatusRecordsTable(db)), "project_id", projectId);
  }

  /** `POST /projects/`: stored as given, with no check on the group or the jurisdiction. */
  function RouteCreateProject(db: Db, data: Row, freshId: Value): (r: Result<(Db, Row), Error>)
    ensures r.Ok? <==> (
      && !UnknownField(ProjectsSchema, data)
      && !MissingRequired(ProjectsSchema, NewRow(ProjectsSchema, data, freshId))
      && !HasId(ProjectsTable(db), IdOf(NewRow(ProjectsSchema, data, freshId))))
    ensures r.Ok? ==> r.value.0 == db.(projects := db.projects + [r.value.1])
  {
    var (t, row) :- Create(ProjectsTable(db), data, freshId);
    Ok((db.(projects := t.rows), row))
  }

  /** Where the service refuses a missing group, the route stores the project anyway. */
  lemma RouteCreateSkipsRelationChecks(db: Db, data: Row, freshId: Value)
    requires Create(ProjectsTable(db), data, freshId).Ok?
    requires Truthy(Col(data, "group_id")) && !HasId(GroupsTable(db), Col(data, "group_id"))
    ensures RouteCreateProject(db, data, freshId).Ok?
    ensures CreateProject(db, data, freshId) == Err(ValueError("Group not found"))
  {
  }

  /**
   * `PUT /projects/{id}`: 404 for a missing project, otherwise the
   * provider's update, with no group or jurisdiction check.
   */
  function RouteUpdateProject(db: Db, projectId: Value, data: Row): (r: Result<(Db, Option<Row>), Error>)
    ensures !HasId(ProjectsTable(db), projectId) ==> r == Err(Http(404, "Project not found"))
    ensures HasId(ProjectsTable(db), projectId) ==> (r.Ok? <==> UpdateAccepted(ProjectsTable(db), projectId, data))
    ensures HasId(ProjectsTable(db), projectId) && r.Err? ==> r.error.IntegrityError?
    ensures r.Ok? ==> r.value.1.Some? && r.value.0 == db.(projects := r.value.0.projects)
    ensures r.Ok? ==> PatchedAt(ProjectsTable(db), projectId, data, r.value.0.projects, r.value.1.value)
  {
    if GetRow(ProjectsTable(db), projectId).None? then Err(Http(404, "Project not found"))
    else
      var (t, row) :- Update(ProjectsTable(db), projectId, data);
      UpdatePatchesAt(ProjectsTable(db), projectId, data);
      Ok((db.(projects := t.rows), row))
  }

  /** After the route's update, `get` by the project's id, kept or rewritten, returns the patched project. */
  lemma RouteUpdateProjectThenGet(db: Db, projectId: Value, data: Row)
    requires RouteUpdateProject(db, projectId, data).Ok?
    ensures var (db', row) := (RouteUpdateProject(db, projectId, data).value.0, RouteUpdateProject(db, projectId, data).value.1.value);
      GetRow(ProjectsTable(db'), IdOf(row)) == Some(row)
  {
    UpdateThenGet(ProjectsTable(db), projectId, data);
  }

  /** `DELETE /projects/{id}`: 404 for a missing project; a project with status records cannot be deleted. */
  function RouteDeleteProject(db: Db, projectId: Value): (r: Result<(Db, bool), Error>)
    ensures !HasId(ProjectsTable(db), projectId) ==> r == Err(Http(404, "Project not found"))
    ensures HasId(ProjectsTable(db), projectId) && Referenced(db.statusRecords, "project_id", projectId) ==>
      r == Err(IntegrityError("project_id"))
    ensures r.Ok? <==> HasId(ProjectsTable(db), projectId) && !Referenced(db.statusRecords, "project_id", projectId)
    ensures r.Ok? ==> r.value.1 && r.value.0 == db.(projects := r.value.0.projects) &&
                      RemovedOnce(db.projects, projectId, r.value.0.projects)
  {
    if GetRow(ProjectsTable(db), projectId).None? then Err(Http(404, "Project not found"))
    else
      var (t, deleted) :- DeleteParent(ProjectsTable(db), projectId, db.statusRecords, "project_id");
      Ok((db.(projects := t.rows), deleted))
  }
}
