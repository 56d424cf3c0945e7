/**
 * The application database: one table per ORM model, each with the schema
 * its model declares, and the repository implementation the services use.
 */
module Database {
  import opened Wrappers
  import opened PyJson
  import opened Models
  import opened SqlStore

  datatype Db = Db(
    backend: Backend,
    groups: seq<Row>,
    projects: seq<Row>,
    jurisdictions: seq<Row>,
    districts: seq<Row>,
    entities: seq<Row>,
    statusRecords: seq<Row>,
    users: seq<Row>)

  /** A column value, with NULL for a column the row lacks. */
  function Col(r: Row, c: string): Value {
    Get(r, c, Null)
  }

  /** `[row.id for row in rows]`. */
  function Ids(rows: seq<Row>): (r: seq<Value>)
    ensures |r| == |rows|
    ensures forall i :: 0 <= i < |rows| ==> r[i] == IdOf(rows[i])
  {
    seq(|rows|, i requires 0 <= i < |rows| => IdOf(rows[i]))
  }

  const GroupsSchema := Schema({"id", "name", "description"}, {"name"}, map[])

  const ProjectsSchema := Schema(
    {"id", "title", "description", "status", "active", "link", "preferred_status",
     "template_response", "created_by", "vote_count", "jurisdiction_id", "group_id"},
    {"title", "status", "preferred_status"},
    map["status" := Str("draft"), "active" := Bool(true),
        "preferred_status" := Str("solid_approval"), "vote_count" := Int(0)])

  const JurisdictionsSchema := Schema({"id", "name", "description", "level"}, {"name", "level"}, map[])

  const DistrictsSchema := Schema({"id", "name", "code", "jurisdiction_id", "boundary"}, {"name", "jurisdiction_id"}, map[])

  const EntitiesSchema := Schema(
    {"id", "name", "title", "entity_type", "jurisdiction_id", "district_id", "image_url",
     "email", "phone", "website", "address"},
    {"name", "entity_type", "jurisdiction_id", "district_id"},
    map[])

  const StatusRecordsSchema := Schema(
    {"id", "entity_id", "project_id", "status", "notes", "updated_by"},
    {"entity_id", "project_id", "status", "updated_by"},
    map["status" := Str("neutral")])

  const UsersSchema := Schema(
    {"id", "email", "name", "hashed_password", "role", "group_id", "is_active", "last_login"},
    {"email", "hashed_password", "role"},
    map["is_active" := Bool(true)])

  function GroupsTable(db: Db): Table { Table(GroupsSchema, db.groups) }
  function ProjectsTable(db: Db): Table { Table(ProjectsSchema, db.projects) }
  function JurisdictionsTable(db: Db): Table { Table(JurisdictionsSchema, db.jurisdictions) }
  function DistrictsTable(db: Db): Table { Table(DistrictsSchema, db.districts) }
  function EntitiesTable(db: Db): Table { Table(EntitiesSchema, db.entities) }
  function StatusRecordsTable(db: Db): Table { Table(StatusRecordsSchema, db.statusRecords) }
  function UsersTable(db: Db): Table { Table(UsersSchema, db.users) }

  ghost predicate ValidDb(db: Db) {
    && Valid(GroupsTable(db))
    && Valid(ProjectsTable(db))
    && Valid(JurisdictionsTable(db))
    && Valid(DistrictsTable(db))
    && Valid(EntitiesTable(db))
    && Valid(StatusRecordsTable(db))
    && Valid(UsersTable(db))
  }

  // ---------------------------------------------------------------------
  // Filtering fetched rows in Python

  /** `[x for x in rows if x.c == v]`: the rows whose column `c` equals `v`, in order. */
  function WithField(rows: seq<Row>, c: string, v: Value): (r: seq<Row>)
    ensures forall x :: x in r <==> x in rows && Col(x, c) == v
    ensures |r| <= |rows|
    decreases |rows|
  {
    if |rows| == 0 then []
    else
      var rest := WithField(rows[1..], c, v);
      if Col(rows[0], c) == v then [rows[0]] + rest else rest
  }

  /** Filtering keeps the order: the filter of a concatenation is the concatenation of the filters. */
  lemma {:induction false} WithFieldAppend(a: seq<Row>, b: seq<Row>, c: string, v: Value)
    ensures WithField(a + b, c, v) == WithField(a, c, v) + WithField(b, c, v)
    decreases |a|
  {
    if |a| == 0 {
      assert a + b == b;
    } else {
      assert (a + b)[1..] == a[1..] + b;
      assert (a + b)[0] == a[0];
      WithFieldAppend(a[1..], b, c, v);
    }
  }

  // ---------------------------------------------------------------------
  // Deleting a referenced row

  /** Some row holds `id` in column `fk`. */
  predicate Referenced(children: seq<Row>, fk: string, id: Value) {
    exists i :: 0 <= i < |children| && Col(children[i], fk) == id
  }

  /** `rows'` is `rows` without the first row with the id, the others kept in order. */
  predicate RemovedOnce(rows: seq<Row>, id: Value, rows': seq<Row>) {
    exists i :: 0 <= i < |rows| && IdOf(rows[i]) == id && (forall k :: 0 <= k < i ==> IdOf(rows[k]) != id) &&
                rows' == rows[..i] + rows[i + 1..]
  }

  /** A plain `delete` that finds the id removes exactly the first row with it. */
  lemma DeleteIsRemovedOnce(t: Table, id: Value)
    requires Delete(t, id).1
    ensures RemovedOnce(t.rows, id, Delete(t, id).0.rows)
  {
    var i := IndexOfId(t.rows, id).value;
    assert Delete(t, id).0.rows == t.rows[..i] + t.rows[i + 1..];
  }

  /**
   * `provider.delete(id)` on a table whose rows the `children` reference
   * through the NOT NULL foreign key `fk`. The ORM relationship has no
   * delete cascade, so the flush sets that key to NULL in every referencing
   * child and the commit fails. A missing id is `False` with nothing
   * changed.
   */
  function DeleteParent(t: Table, id: Value, children: seq<Row>, fk: string): (r: Result<(Table, bool), Error>)
    ensures r == Ok((t, false)) <==> !HasId(t, id)
    ensures r.Err? <==> HasId(t, id) && Referenced(children, fk, id)
    ensures r.Err? ==> r.error == IntegrityError(fk)
    ensures r.Ok? && r.value.1 ==> r.value.0.schema == t.schema && RemovedOnce(t.rows, id, r.value.0.rows)
  {
    match IndexOfId(t.rows, id)
    case None => Ok((t, false))
    case Some(i) =>
      if Referenced(children, fk, id) then Err(IntegrityError(fk))
      else Ok((Table(t.schema, RemoveAt(t.rows, i)), true))
  }

  /** In a table with unique ids, a delete that goes through leaves no row with the id and keeps every other row. */
  lemma DeleteParentRemovesExactlyThatRow(t: Table, id: Value, children: seq<Row>, fk: string)
    requires Valid(t)
    requires DeleteParent(t, id, children, fk).Ok? && DeleteParent(t, id, children, fk).value.1
    ensures var t' := DeleteParent(t, id, children, fk).value.0;
      !HasId(t', id) && Valid(t') && forall x :: x in t.rows && IdOf(x) != id ==> x in t'.rows
  {
    assert DeleteParent(t, id, children, fk).value.0 == Delete(t, id).0;
    DeleteRemovesExactlyThatRow(t, id);
  }
}
