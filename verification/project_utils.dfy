/**
 * The explicit-only helpers of `utils/project.py`: the same record
 * selection as the service, counted with `calculate_status_distribution`,
 * so entities without a record are not counted at all.
 */
module ProjectUtils {
  import opened Wrappers
  import opened PyJson
  import opened Models
  import opened Aggregation
  import opened SqlStore
  import opened Database
  import opened ProjectService

  /**
   * The project the helper works on: the one passed in, else the stored one
   * when a projects provider is passed (`hasProjectsProvider`), else none.
   */
  function HelperProject(db: Db, projectId: Value, project: Option<Row>, hasProjectsProvider: bool): (r: Option<Row>)
    ensures project.Some? ==> r == project
    ensures project.None? && !hasProjectsProvider ==> r.None?
    ensures project.None? && hasProjectsProvider ==> (r.None? <==> !HasId(ProjectsTable(db), projectId))
  {
    if project.None? && hasProjectsProvider then GetRow(ProjectsTable(db), projectId) else project
  }

  /** The records the helper counts: none when the project or its entities are missing. */
  function CountedRecords(db: Db, projectId: Value, project: Option<Row>, hasProjectsProvider: bool): (r: seq<Row>)
    ensures HelperProject(db, projectId, project, hasProjectsProvider).None? ==> r == []
    ensures forall x :: x in r ==> x in db.statusRecords && "project_id" in x && x["project_id"] == projectId
  {
    match HelperProject(db, projectId, project, hasProjectsProvider)
    case None => []
    case Some(p) =>
      var ids := Ids(JurisdictionEntities(db, p));
      if |ids| == 0 then [] else ProjectStatusRecords(db, projectId, ids)
  }

  /** `get_project_status_distribution` of `utils/project.py`. */
  function ExplicitDistribution(db: Db, projectId: Value, project: Option<Row>, hasProjectsProvider: bool): (d: Dist)
    ensures HelperProject(db, projectId, project, hasProjectsProvider).None? ==> d == ZeroDist
    ensures d.total == |CountedRecords(db, projectId, project, hasProjectsProvider)|
    ensures BucketSum(d) == d.total
  {
    CountExplicit(RecordsOf(CountedRecords(db, projectId, project, hasProjectsProvider)))
  }

  /**
   * Side by side on one project whose jurisdiction has entities: the
   * service's total is the number of entities, the helper's the number of
   * counted records, and both draw on the same records.
   */
  lemma VariantTotals(db: Db, projectId: Value, p: Row)
    requires |JurisdictionEntities(db, p)| > 0
    ensures Distribution(db, projectId, Some(p)).total == |JurisdictionEntities(db, p)|
    ensures ExplicitDistribution(db, projectId, Some(p), false).total
      == |ProjectStatusRecords(db, projectId, Ids(JurisdictionEntities(db, p)))|
  {
    assert HelperProject(db, projectId, Some(p), false) == Some(p);
  }

  /** With no records, the helper reports nothing while the service reports every entity neutral. */
  lemma NoRecordsVariantsDiffer(db: Db, projectId: Value, p: Row)
    requires |JurisdictionEntities(db, p)| > 0
    requires ProjectStatusRecords(db, projectId, Ids(JurisdictionEntities(db, p))) == []
    ensures ExplicitDistribution(db, projectId, Some(p), false) == ZeroDist
    ensures Distribution(db, projectId, Some(p)) == AllNeutral(|JurisdictionEntities(db, p)|)
  {
    assert HelperProject(db, projectId, Some(p), false) == Some(p);
    var n := |JurisdictionEntities(db, p)|;
    var rs := RecordsOf(ProjectStatusRecords(db, projectId, Ids(JurisdictionEntities(db, p))));
    assert rs == [];
    assert Distribution(db, projectId, Some(p)) == WithNeutrals(rs, n);
    WithNeutralsOfNoRecords(n);
  }

  /** `enrich_projects_with_status_distributions` of `utils/project.py`. */
  function EnrichExplicit(db: Db, projects: seq<ProjectView>): (r: seq<ProjectView>)
    ensures |projects| == 0 ==> r == []
    ensures |r| == |projects|
    ensures forall i :: 0 <= i < |r| ==> r[i].row == projects[i].row && r[i].jurisdictionName == projects[i].jurisdictionName
    ensures forall i :: 0 <= i < |r| ==>
      r[i].distribution == Some(ExplicitDistribution(db, IdOf(projects[i].row), Some(projects[i].row), false))
  {
    if |projects| == 0 then []
    else seq(|projects|, i requires 0 <= i < |projects| => WithExplicitDistribution(db, projects[i]))
  }

  /** One project with its explicit-only distribution attached. */
  function WithExplicitDistribution(db: Db, v: ProjectView): (r: ProjectView)
    ensures r.row == v.row && r.jurisdictionName == v.jurisdictionName
    ensures r.distribution == Some(ExplicitDistribution(db, IdOf(v.row), Some(v.row), false))
  {
    v.(distribution := Some(ExplicitDistribution(db, IdOf(v.row), Some(v.row), false)))
  }
}
