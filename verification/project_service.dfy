/**
 * `ProjectService`: project reads enriched with an implicit-neutral stance
 * distribution and a jurisdiction name, filtered listing, and create,
 * update and delete guarded by checks on the referenced group and
 * jurisdiction.
 */
module ProjectService {
  import opened Wrappers
  import opened PyJson
  import opened Models
  import opened Aggregation
  import opened SqlStore
  import opened Database

  /** An `EntityStatusRecord` row, read as the three fields counting uses. */
  function RecordOf(r: Row): StatusRecord {
    StatusRecord(Col(r, "entity_id"), Col(r, "project_id"), Col(r, "status"))
  }

  function RecordsOf(rows: seq<Row>): (r: seq<StatusRecord>)
    ensures |r| == |rows|
    ensures forall i :: 0 <= i < |rows| ==> r[i] == RecordOf(rows[i])
  {
    seq(|rows|, i requires 0 <= i < |rows| => RecordOf(rows[i]))
  }

  /** A record of project `projectId` whose entity is one of `entityIds`. */
  predicate Relevant(r: Row, projectId: Value, entityIds: seq<Value>) {
    "project_id" in r && r["project_id"] == projectId && "entity_id" in r && r["entity_id"] in entityIds
  }

  /** The in-memory list comprehension of the fallback path, in list order. */
  function SelectRelevant(rows: seq<Row>, projectId: Value, entityIds: seq<Value>): (r: seq<Row>)
    ensures forall x :: x in r <==> x in rows && Relevant(x, projectId, entityIds)
    decreases |rows|
  {
    if |rows| == 0 then []
    else
      var rest := SelectRelevant(rows[1..], projectId, entityIds);
      if Relevant(rows[0], projectId, entityIds) then [rows[0]] + rest else rest
  }

  /**
   * The status records a distribution counts: `filter_multiple` with a
   * project_id filter and an entity_id IN filter where the provider has it,
   * and otherwise the same condition applied to the first page of `list()`.
   */
  function ProjectStatusRecords(db: Db, projectId: Value, entityIds: seq<Value>): (r: seq<Row>)
    ensures forall x :: x in r ==> x in db.statusRecords && Relevant(x, projectId, entityIds)
    ensures db.backend == InMemory ==>
      forall x :: x in r <==> x in db.statusRecords && Relevant(x, projectId, entityIds)
    ensures db.backend == Sql ==>
      forall x :: x in r <==> x in ListFirstPage(StatusRecordsTable(db)) && Relevant(x, projectId, entityIds)
  {
    match FilterMultiple(db.backend, StatusRecordsTable(db), map["project_id" := projectId], map["entity_id" := entityIds])
    case Ok(rows) => rows
    case Err(_) => SelectRelevant(ListFirstPage(StatusRecordsTable(db)), projectId, entityIds)
  }

  /** The project a distribution is computed for: the one passed in, else the stored one. */
  function ProjectFor(db: Db, projectId: Value, project: Option<Row>): (r: Option<Row>)
    ensures project.None? ==> (r.None? <==> !HasId(ProjectsTable(db), projectId))
    ensures project.Some? ==> r == project
  {
    if project.Some? then project else GetRow(ProjectsTable(db), projectId)
  }

  /** The entities of the project's jurisdiction, in storage order. */
  function JurisdictionEntities(db: Db, p: Row): (r: seq<Row>)
    ensures forall e :: e in r <==> e in db.entities && "jurisdiction_id" in e && e["jurisdiction_id"] == Col(p, "jurisdiction_id")
  {
    Filter(EntitiesTable(db), map["jurisdiction_id" := Col(p, "jurisdiction_id")])
  }

  /** `get_project_status_distribution`, counting with implicit neutrals. */
  function Distribution(db: Db, projectId: Value, project: Option<Row>): (d: Dist)
    ensures ProjectFor(db, projectId, project).None? ==> d == ZeroDist
    ensures ProjectFor(db, projectId, project).Some? && |JurisdictionEntities(db, ProjectFor(db, projectId, project).value)| == 0 ==> d == ZeroDist
    ensures BucketSum(d) == d.total
    ensures ProjectFor(db, projectId, project).Some? ==> d.total == |JurisdictionEntities(db, ProjectFor(db, projectId, project).value)|
  {
    var p := ProjectFor(db, projectId, project);
    if p.None? then ZeroDist
    else
      var entities := JurisdictionEntities(db, p.value);
      if |entities| == 0 then ZeroDist
      else WithNeutrals(RecordsOf(ProjectStatusRecords(db, projectId, Ids(entities))), |entities|)
  }

  /** A sequence has at least as many elements as its set of distinct elements. */
  lemma {:induction false} DistinctElementsAtMostLength(s: seq<Value>)
    ensures |set x | x in s| <= |s|
    decreases |s|
  {
    if |s| > 0 {
      DistinctElementsAtMostLength(s[1..]);
      assert (set x | x in s) == {s[0]} + (set x | x in s[1..]);
    }
  }

  /**
   * The entity_id IN filter keeps every counted record on an entity of the
   * jurisdiction, so no bucket of the distribution goes negative.
   */
  lemma DistributionNonNegative(db: Db, projectId: Value, project: Option<Row>)
    ensures forall b :: Count(Distribution(db, projectId, project), b) >= 0
  {
    var p := ProjectFor(db, projectId, project);
    var d := Distribution(db, projectId, project);
    if p.Some? && |JurisdictionEntities(db, p.value)| > 0 {
      var entities := JurisdictionEntities(db, p.value);
      var rs := RecordsOf(ProjectStatusRecords(db, projectId, Ids(entities)));
      assert d == WithNeutrals(rs, |entities|);
      CountedEntitiesWithinJurisdiction(db, projectId, entities);
      WithNeutralsNonNegative(rs, |entities|);
      forall b ensures Count(d, b) >= 0 {
        assert Count(WithNeutrals(rs, |entities|), b) >= 0;
      }
    } else {
      assert d == ZeroDist;
      ZeroDistCountsNothing();
    }
  }

  /** The counted records name at most as many distinct entities as the jurisdiction has. */
  lemma CountedEntitiesWithinJurisdiction(db: Db, projectId: Value, entities: seq<Row>)
    ensures |EntityIds(RecordsOf(ProjectStatusRecords(db, projectId, Ids(entities))))| <= |entities|
  {
    var ids := Ids(entities);
    var rows := ProjectStatusRecords(db, projectId, ids);
    var rs := RecordsOf(rows);
    RelevantRecordsNameListedEntities(rows, projectId, ids);
    DistinctElementsAtMostLength(ids);
    SubsetCardinality(EntityIds(rs), set x | x in ids);
  }

  lemma RelevantRecordsNameListedEntities(rows: seq<Row>, projectId: Value, ids: seq<Value>)
    requires forall x :: x in rows ==> Relevant(x, projectId, ids)
    ensures EntityIds(RecordsOf(rows)) <= set x | x in ids
  {
    var rs := RecordsOf(rows);
    forall e | e in EntityIds(rs) ensures e in ids {
      var i :| 0 <= i < |rs| && rs[i].entityId == e;
      assert rows[i] in rows;
    }
  }

  /**
   * What the distribution counts: the entities of the jurisdiction, each
   * under the last status among its relevant records, and neutral when it
   * has none.
   */
  lemma DistributionCountsEntities(db: Db, projectId: Value, p: Row)
    requires |JurisdictionEntities(db, p)| > 0
    ensures var rs := RecordsOf(ProjectStatusRecords(db, projectId, Ids(JurisdictionEntities(db, p))));
      && (forall b :: b != BNeutral ==> Count(Distribution(db, projectId, Some(p)), b) == |EntitiesIn(Collapse(rs).m, b)|)
      && Count(Distribution(db, projectId, Some(p)), BNeutral) == |JurisdictionEntities(db, p)| - |NonNeutralEntities(Collapse(rs).m)|
  {
    var entities := JurisdictionEntities(db, p);
    var rs := RecordsOf(ProjectStatusRecords(db, projectId, Ids(entities)));
    assert ProjectFor(db, projectId, Some(p)) == Some(p);
    assert Distribution(db, projectId, Some(p)) == WithNeutrals(rs, |entities|);
    WithNeutralsCounts(rs, |entities|);
  }

  // ---------------------------------------------------------------------
  // Enrichment

  /** A project as the service returns it, with the two enriched fields. */
  datatype ProjectView = ProjectView(row: Row, distribution: Option<Dist>, jurisdictionName: Option<Value>)

  /** The name of the project's jurisdiction, when the project has one and it is found with a truthy name. */
  function JurisdictionName(db: Db, p: Row): (r: Option<Value>)
    ensures r.Some? ==> Truthy(r.value) && exists j :: j in db.jurisdictions && IdOf(j) == Col(p, "jurisdiction_id") && Col(j, "name") == r.value
    ensures r.None? && Truthy(Col(p, "jurisdiction_id")) && HasId(JurisdictionsTable(db), Col(p, "jurisdiction_id")) ==>
      !Truthy(Col(GetRow(JurisdictionsTable(db), Col(p, "jurisdiction_id")).value, "name"))
  {
    var jid := Col(p, "jurisdiction_id");
    if !Truthy(jid) then None
    else
      match GetRow(JurisdictionsTable(db), jid)
      case None => None
      case Some(j) => if Truthy(Col(j, "name")) then Some(Col(j, "name")) else None
  }

  /** `get_project_with_details`. */
  function GetProjectWithDetails(db: Db, projectId: Value): (r: Option<ProjectView>)
    ensures r.None? <==> !HasId(ProjectsTable(db), projectId)
    ensures r.Some? ==> r.value.row in db.projects && IdOf(r.value.row) == projectId
    ensures r.Some? ==> r.value.distribution == Some(Distribution(db, projectId, Some(r.value.row)))
    ensures r.Some? ==> r.value.jurisdictionName == JurisdictionName(db, r.value.row)
  {
    match GetRow(ProjectsTable(db), projectId)
    case None => None
    case Some(p) => Some(ProjectView(p, Some(Distribution(db, projectId, Some(p))), JurisdictionName(db, p)))
  }

  function WithJurisdictionName(db: Db, v: ProjectView): ProjectView {
    var n := JurisdictionName(db, v.row);
    if n.Some? then v.(jurisdictionName := n) else v
  }

  /** `enrich_projects_with_status_distributions`: same projects, same order, each with its distribution. */
  function EnrichWithDistributions(db: Db, projects: seq<ProjectView>): (r: seq<ProjectView>)
    ensures |r| == |projects|
    ensures forall i :: 0 <= i < |r| ==> r[i].row == projects[i].row && r[i].jurisdictionName == projects[i].jurisdictionName
    ensures forall i :: 0 <= i < |r| ==> r[i].distribution == Some(Distribution(db, IdOf(projects[i].row), Some(projects[i].row)))
  {
    seq(|projects|, i requires 0 <= i < |projects| =>
      ProjectView(projects[i].row, Some(Distribution(db, IdOf(projects[i].row), Some(projects[i].row))), projects[i].jurisdictionName))
  }

  /** `enrich_projects_with_jurisdiction_name`: the name is set where found and left alone elsewhere. */
  function EnrichWithJurisdictionName(db: Db, projects: seq<ProjectView>): (r: seq<ProjectView>)
    ensures |r| == |projects|
    ensures forall i :: 0 <= i < |r| ==> r[i].row == projects[i].row && r[i].distribution == projects[i].distribution
    ensures forall i :: 0 <= i < |r| ==>
      r[i].jurisdictionName == (if JurisdictionName(db, projects[i].row).Some? then JurisdictionName(db, projects[i].row) else projects[i].jurisdictionName)
  {
    if |projects| == 0 then []
    else seq(|projects|, i requires 0 <= i < |projects| => WithJurisdictionName(db, projects[i]))
  }

  function Plain(rows: seq<Row>): (r: seq<ProjectView>)
    ensures |r| == |rows|
    ensures forall i :: 0 <= i < |rows| ==> r[i] == ProjectView(rows[i], None, None)
  {
    seq(|rows|, i requires 0 <= i < |rows| => ProjectView(rows[i], None, None))
  }

  // ---------------------------------------------------------------------
  // Listing

  /** Every status value except archived, in declaration order. */
  const NonArchivedStatuses: seq<Value> := [Str("draft"), Str("active"), Str("completed")]

  /** The equality filters `list_projects` builds. */
  function ListFilters(status: Option<ProjectStatus>, groupId: Value): Row {
    (if status.Some? then map["status" := Str(ProjectStatusValue(status.value))] else map[])
    + (if Truthy(groupId) then map["group_id" := groupId] else map[])
  }

  /** The IN filters `list_projects` builds: archived projects are hidden unless a status is asked for. */
  function ListInFilters(status: Option<ProjectStatus>): map<string, seq<Value>> {
    if status.Some? then map[] else map["status" := NonArchivedStatuses]
  }

  /** A stored project that the listing filters admit. */
  predicate Listed(p: Row, status: Option<ProjectStatus>, groupId: Value) {
    && "status" in p
    && (if status.Some? then p["status"] == Str(ProjectStatusValue(status.value)) else p["status"] in NonArchivedStatuses)
    && (Truthy(groupId) ==> "group_id" in p && p["group_id"] == groupId)
  }

  /** `list_projects`. */
  function ListProjects(db: Db, skip: nat, limit: nat, status: Option<ProjectStatus>, groupId: Value): (r: Result<seq<ProjectView>, Error>)
    ensures r.Err? <==> db.backend == Sql
    ensures r.Ok? ==> forall p :: p in RowsOf(r.value) <==> p in db.projects && Listed(p, status, groupId)
  {
    var filters := ListFilters(status, groupId);
    var inFilters := ListInFilters(status);
    var found :- FilterMultiple(db.backend, ProjectsTable(db), filters, inFilters);
    ListedMeansFiltered(status, groupId);
    var views := Plain(found);
    if |views| == 0 then Ok(views)
    else
      var r := EnrichWithJurisdictionName(db, EnrichWithDistributions(db, views));
      assert RowsOf(r) == found;
      Ok(r)
  }

  /** Without a status filter no archived project is listed, whatever the other arguments. */
  lemma ListProjectsHidesArchived(db: Db, skip: nat, limit: nat, groupId: Value)
    requires ListProjects(db, skip, limit, None, groupId).Ok?
    ensures forall p :: p in RowsOf(ListProjects(db, skip, limit, None, groupId).value) ==> Col(p, "status") != Str("archived")
  {
    forall p | p in RowsOf(ListProjects(db, skip, limit, None, groupId).value) ensures Col(p, "status") != Str("archived") {
      ListedIsNotArchived(p, groupId);
    }
  }

  lemma ListedIsNotArchived(p: Row, groupId: Value)
    requires Listed(p, None, groupId)
    ensures Col(p, "status") != Str("archived")
  {
    assert p["status"] in NonArchivedStatuses;
  }

  function RowsOf(vs: seq<ProjectView>): (r: seq<Row>)
    ensures |r| == |vs|
    ensures forall i :: 0 <= i < |vs| ==> r[i] == vs[i].row
  {
    seq(|vs|, i requires 0 <= i < |vs| => vs[i].row)
  }

  /** The filters `list_projects` builds select exactly the projects `Listed` describes. */
  lemma ListedMeansFiltered(status: Option<ProjectStatus>, groupId: Value)
    ensures forall p :: Listed(p, status, groupId) <==>
      Matches(ProjectsSchema, p, ListFilters(status, groupId)) && MatchesIn(p, ListInFilters(status))
  {
  }

  /** Some filter is always present, so `list_projects` never reaches the paginated `list()`. */
  lemma ListProjectsIgnoresPagination(db: Db, skip1: nat, limit1: nat, skip2: nat, limit2: nat, status: Option<ProjectStatus>, groupId: Value)
    ensures ListProjects(db, skip1, limit1, status, groupId) == ListProjects(db, skip2, limit2, status, groupId)
    ensures |ListFilters(status, groupId)| > 0 || |ListInFilters(status)| > 0
  {
    if status.None? {
      assert "status" in ListInFilters(status);
    } else {
      assert "status" in ListFilters(status, groupId);
    }
  }

  // ---------------------------------------------------------------------
  // Create, update, delete

  /** The group and jurisdiction checks shared by create and update. */
  function CheckRelations(db: Db, data: Row): (r: Option<Error>)
    ensures r == Some(ValueError("Group not found")) <==> Truthy(Col(data, "group_id")) && !HasId(GroupsTable(db), Col(data, "group_id"))
    ensures r == Some(ValueError("Jurisdiction not found")) <==>
      !(Truthy(Col(data, "group_id")) && !HasId(GroupsTable(db), Col(data, "group_id")))
      && Truthy(Col(data, "jurisdiction_id")) && !HasId(JurisdictionsTable(db), Col(data, "jurisdiction_id"))
    ensures r.None? || r == Some(ValueError("Group not found")) || r == Some(ValueError("Jurisdiction not found"))
  {
    var g := Col(data, "group_id");
    var j := Col(data, "jurisdiction_id");
    if Truthy(g) && GetRow(GroupsTable(db), g).None? then Some(ValueError("Group not found"))
    else if Truthy(j) && GetRow(JurisdictionsTable(db), j).None? then Some(ValueError("Jurisdiction not found"))
    else None
  }

  /** `create_project`. */
  function CreateProject(db: Db, data: Row, freshId: Value): (r: Result<(Db, Row), Error>)
    ensures CheckRelations(db, data).Some? ==> r == Err(CheckRelations(db, data).value)
    ensures r.Ok? ==> r.value.0 == db.(projects := db.projects + [r.value.1])
    ensures r.Ok? ==> r.value.1 == NewRow(ProjectsSchema, data, freshId) && !HasId(ProjectsTable(db), IdOf(r.value.1))
    ensures r.Ok? ==> (Truthy(Col(data, "group_id")) ==> HasId(GroupsTable(db), Col(data, "group_id")))
  {
    match CheckRelations(db, data)
    case Some(e) => Err(e)
    case None =>
      var (t, row) :- Create(ProjectsTable(db), data, freshId);
      Ok((db.(projects := t.rows), row))
  }

  /**
   * A request that sets only the title creates a draft, active project with
   * the fresh id and no group or jurisdiction. `model_dump(exclude_unset=True)`
   * leaves the defaulted fields out, so the ORM column defaults fill them,
   * and they agree with `ProjectBase`'s own defaults.
   */
  lemma TitleOnlyProjectIsDraftAndActive(db: Db, title: string, freshId: Value)
    requires !HasId(ProjectsTable(db), freshId)
    ensures var r := CreateProject(db, map["title" := Str(title)], freshId);
      && r.Ok? && r.value.1["id"] == freshId && r.value.1["title"] == Str(title)
      && r.value.1["status"] == Str(ProjectStatusValue(NewProjectBase(title).status))
      && r.value.1["active"] == Bool(NewProjectBase(title).active)
      && r.value.1["group_id"] == Null && r.value.1["jurisdiction_id"] == Null
  {
    var data := map["title" := Str(title)];
    var row := NewRow(ProjectsSchema, data, freshId);
    assert !UnknownField(ProjectsSchema, data);
    assert !MissingRequired(ProjectsSchema, row);
  }

  /** `update_project`: a missing project is reported before the relations are checked. */
  function UpdateProject(db: Db, projectId: Value, data: Row): (r: Result<(Db, Option<Row>), Error>)
    ensures !HasId(ProjectsTable(db), projectId) ==> r == Ok((db, None))
    ensures HasId(ProjectsTable(db), projectId) && CheckRelations(db, data).Some? ==> r == Err(CheckRelations(db, data).value)
    ensures r.Ok? ==> r.value.0 == db.(projects := r.value.0.projects) && |r.value.0.projects| == |db.projects|
    ensures r.Ok? && r.value.1.Some? ==>
      exists i :: 0 <= i < |db.projects| && IdOf(db.projects[i]) == projectId
        && r.value.1.value == Patch(ProjectsSchema, db.projects[i], data) && r.value.0.projects == db.projects[i := r.value.1.value]
  {
    if GetRow(ProjectsTable(db), projectId).None? then Ok((db, None))
    else
      match CheckRelations(db, data)
      case Some(e) => Err(e)
      case None =>
        var (t, row) :- Update(ProjectsTable(db), projectId, data);
        Ok((db.(projects := t.rows), row))
  }

  /** After a successful update, `get` by the project's id returns the patched row. */
  lemma UpdateProjectThenGet(db: Db, projectId: Value, data: Row)
    requires UpdateProject(db, projectId, data).Ok? && UpdateProject(db, projectId, data).value.1.Some?
    ensures var (db', row) := (UpdateProject(db, projectId, data).value.0, UpdateProject(db, projectId, data).value.1.value);
      GetRow(ProjectsTable(db'), IdOf(row)) == Some(row)
  {
    UpdateThenGet(ProjectsTable(db), projectId, data);
  }

  /**
   * `delete_project`: `False` for a missing project; a project that status
   * records reference cannot be deleted (their NOT NULL `project_id` would
   * be set to NULL).
   */
  function DeleteProject(db: Db, projectId: Value): (r: Result<(Db, bool), Error>)
    ensures r == Ok((db, false)) <==> !HasId(ProjectsTable(db), projectId)
    ensures r.Err? <==> HasId(ProjectsTable(db), projectId) && Referenced(db.statusRecords, "project_id", projectId)
    ensures r.Err? ==> r.error == IntegrityError("project_id")
    ensures r.Ok? ==> r.value.0 == db.(projects := r.value.0.projects)
    ensures r.Ok? && r.value.1 ==> RemovedOnce(db.projects, projectId, r.value.0.projects)
  {
    if GetRow(ProjectsTable(db), projectId).None? then Ok((db, false))
    else
      var (t, deleted) :- DeleteParent(ProjectsTable(db), projectId, db.statusRecords, "project_id");
      Ok((db.(projects := t.rows), deleted))
  }

  /** With unique project ids, a deleted project is gone and every other project, and every other table, is kept. */
  lemma DeleteProjectRemovesIt(db: Db, projectId: Value)
    requires Valid(ProjectsTable(db))
    requires DeleteProject(db, projectId).Ok?
    ensures var db' := DeleteProject(db, projectId).value.0;
      GetRow(ProjectsTable(db'), projectId).None? &&
      forall p :: p in db.projects && IdOf(p) != projectId ==> p in db'.projects
  {
    if HasId(ProjectsTable(db), projectId) {
      DeleteParentRemovesExactlyThatRow(ProjectsTable(db), projectId, db.statusRecords, "project_id");
    }
  }
}
