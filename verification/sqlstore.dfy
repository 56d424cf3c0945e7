/**
 * `SQLProvider`, the generic repository every service is built on, as a
 * table held in memory: a schema and the stored rows in storage order.
 *
 * A row maps each column name to its value. Reads come back in storage
 * order (the queries carry no ORDER BY). A primary-key lookup finds at most
 * one row because `Valid` keeps ids distinct.
 */
module SqlStore {
  import opened Wrappers
  import opened PyJson
  import opened Models

  type Row = map<string, Value>

  /**
   * The columns of an ORM model, those declared `nullable=False`, and the
   * column defaults applied when a create leaves a column unset.
   */
  datatype Schema = Schema(columns: set<string>, required: set<string>, defaults: map<string, Value>)

  datatype Table = Table(schema: Schema, rows: seq<Row>)

  /** Which repository implementation backs a service. Only the in-memory one has `filter_multiple`. */
  datatype Backend = Sql | InMemory

  const DefaultLimit: nat := 100

  function IdOf(r: Row): Value {
    Get(r, "id", Null)
  }

  ghost predicate Valid(t: Table) {
    && "id" in t.schema.columns
    && (forall i :: 0 <= i < |t.rows| ==> t.rows[i].Keys == t.schema.columns)
    && (forall i, j :: 0 <= i < j < |t.rows| ==> IdOf(t.rows[i]) != IdOf(t.rows[j]))
  }

  predicate HasId(t: Table, id: Value) {
    exists i :: 0 <= i < |t.rows| && IdOf(t.rows[i]) == id
  }

  /** The position of the first row with the given id. */
  function IndexOfId(rows: seq<Row>, id: Value): (r: Option<nat>)
    ensures r.Some? ==> r.value < |rows| && IdOf(rows[r.value]) == id
    ensures r.Some? ==> forall j :: 0 <= j < r.value ==> IdOf(rows[j]) != id
    ensures r.None? <==> forall j :: 0 <= j < |rows| ==> IdOf(rows[j]) != id
    decreases |rows|
  {
    if |rows| == 0 then None
    else if IdOf(rows[0]) == id then Some(0)
    else match IndexOfId(rows[1..], id)
      case None => None
      case Some(k) => Some(k + 1)
  }

  // ---------------------------------------------------------------------
  // get / list / count

  /** `get(id)`: the row with that primary key, or `None`. */
  function GetRow(t: Table, id: Value): (r: Option<Row>)
    ensures r.None? <==> !HasId(t, id)
    ensures r.Some? ==> r.value in t.rows && IdOf(r.value) == id
  {
    match IndexOfId(t.rows, id)
    case None => None
    case Some(i) => Some(t.rows[i])
  }

  function Min(a: int, b: int): int {
    if a <= b then a else b
  }

  /** `list(skip, limit)`: OFFSET `skip` LIMIT `limit` over storage order. */
  function List(t: Table, skip: nat, limit: nat): (r: seq<Row>)
    ensures |r| == if skip >= |t.rows| then 0 else Min(limit, |t.rows| - skip)
    ensures forall k :: 0 <= k < |r| ==> r[k] == t.rows[skip + k]
  {
    var n := |t.rows|;
    t.rows[Min(skip, n)..Min(skip + limit, n)]
  }

  /** `list()` with its defaults: the first `DefaultLimit` rows. */
  function ListFirstPage(t: Table): (r: seq<Row>)
    ensures |t.rows| <= DefaultLimit ==> r == t.rows
    ensures |t.rows| > DefaultLimit ==> r == t.rows[..DefaultLimit]
    ensures forall x :: x in r ==> x in t.rows
  {
    List(t, 0, DefaultLimit)
  }

  function CountRows(t: Table): nat {
    |t.rows|
  }

  /** A page as large as the table holds every row, so `count` is the number of rows `list` can return. */
  lemma CountIsNumberOfListedRows(t: Table)
    ensures List(t, 0, CountRows(t)) == t.rows
    ensures forall skip: nat, limit: nat :: |List(t, skip, limit)| <= CountRows(t)
  {
  }

  // ---------------------------------------------------------------------
  // create

  /**
   * The row `orm_model(**data)` turns into once committed and refreshed:
   * given values for the columns the data names, the column default (or
   * NULL) for the rest, and the generated id unless the data supplies one.
   */
  function NewRow(s: Schema, data: Row, freshId: Value): (r: Row)
    ensures r.Keys == s.columns
    ensures forall c :: c in s.columns && c in data && c != "id" ==> r[c] == data[c]
    ensures forall c :: c in s.columns && c !in data && c != "id" ==> r[c] == Get(s.defaults, c, Null)
  {
    var id := if "id" in data && data["id"] != Null then data["id"] else freshId;
    map c | c in s.columns :: if c == "id" then id else if c in data then data[c] else Get(s.defaults, c, Null)
  }

  predicate UnknownField(s: Schema, data: Row) {
    exists k :: k in data && k !in s.columns
  }

  predicate MissingRequired(s: Schema, r: Row) {
    exists c :: c in s.required && c in r && r[c] == Null
  }

  /**
   * `create(obj_in)`: an unknown keyword is a TypeError, a NULL in a
   * non-nullable column or a clashing id an IntegrityError; otherwise
   * exactly one row is appended.
   */
  function Create(t: Table, data: Row, freshId: Value): (r: Result<(Table, Row), Error>)
    ensures UnknownField(t.schema, data) ==> r.Err?
    ensures r.Ok? ==> r.value.0 == Table(t.schema, t.rows + [r.value.1])
    ensures r.Ok? ==> r.value.1 == NewRow(t.schema, data, freshId)
    ensures r.Ok? ==> !MissingRequired(t.schema, r.value.1) && !HasId(t, IdOf(r.value.1))
    ensures r.Err? ==> UnknownField(t.schema, data) || MissingRequired(t.schema, NewRow(t.schema, data, freshId))
                       || HasId(t, IdOf(NewRow(t.schema, data, freshId))) || !("id" in t.schema.columns)
  {
    if UnknownField(t.schema, data) then Err(TypeError("unexpected keyword argument"))
    else if "id" !in t.schema.columns then Err(IntegrityError("id"))
    else
      var row := NewRow(t.schema, data, freshId);
      if MissingRequired(t.schema, row) then Err(IntegrityError("not null"))
      else if HasId(t, IdOf(row)) then Err(IntegrityError("id"))
      else Ok((Table(t.schema, t.rows + [row]), row))
  }

  lemma CreatePreservesValid(t: Table, data: Row, freshId: Value)
    requires Valid(t)
    requires Create(t, data, freshId).Ok?
    ensures Valid(Create(t, data, freshId).value.0)
    ensures CountRows(Create(t, data, freshId).value.0) == CountRows(t) + 1
  {
    var row := Create(t, data, freshId).value.1;
    var rows' := t.rows + [row];
    forall i, j | 0 <= i < j < |rows'|
      ensures IdOf(rows'[i]) != IdOf(rows'[j])
    {
      if j == |t.rows| {
        assert rows'[i] == t.rows[i];
      }
    }
  }

  // ---------------------------------------------------------------------
  // update

  /** `setattr` for every field of the input the model has; all other fields keep their value. */
  function Patch(s: Schema, prev: Row, data: Row): (r: Row)
    ensures r.Keys == prev.Keys
    ensures forall c :: c in prev && c in data && c in s.columns ==> r[c] == data[c]
    ensures forall c :: c in prev && !(c in data && c in s.columns) ==> r[c] == prev[c]
  {
    map c | c in prev :: if c in data && c in s.columns then data[c] else prev[c]
  }

  /** No other row carries `id`. */
  predicate IdFreeExcept(rows: seq<Row>, i: nat, id: Value) {
    forall j :: 0 <= j < |rows| && j != i ==> IdOf(rows[j]) != id
  }

  /**
   * `update(id, obj_in)`: `None` and no change for a missing id; otherwise
   * the row is patched in place, and the commit fails on a NULL in a
   * non-nullable column or an id that another row already has.
   */
  function Update(t: Table, id: Value, data: Row): (r: Result<(Table, Option<Row>), Error>)
    ensures !HasId(t, id) ==> r == Ok((t, None))
    ensures r.Ok? && r.value.1.Some? ==>
      exists i :: 0 <= i < |t.rows| && IdOf(t.rows[i]) == id
        && r.value.1.value == Patch(t.schema, t.rows[i], data)
        && r.value.0 == Table(t.schema, t.rows[i := r.value.1.value])
    ensures r.Ok? ==> |r.value.0.rows| == |t.rows|
    ensures r.Ok? && r.value.1.None? ==> r.value.0 == t
    ensures HasId(t, id) ==> var i := IndexOfId(t.rows, id).value; var row := Patch(t.schema, t.rows[i], data);
      (r.Ok? <==> !MissingRequired(t.schema, row) && IdFreeExcept(t.rows, i, IdOf(row))) &&
      (r.Ok? ==> r.value.1 == Some(row))
    ensures r.Err? ==> r.error.IntegrityError?
  {
    match IndexOfId(t.rows, id)
    case None => Ok((t, None))
    case Some(i) =>
      var row := Patch(t.schema, t.rows[i], data);
      if MissingRequired(t.schema, row) then Err(IntegrityError("not null"))
      else if !IdFreeExcept(t.rows, i, IdOf(row)) then Err(IntegrityError("id"))
      else Ok((Table(t.schema, t.rows[i := row]), Some(row)))
  }

  /** The update of an existing id goes through: its patch of the first row with the id leaves no NOT NULL column empty and takes no other row's id. */
  predicate UpdateAccepted(t: Table, id: Value, data: Row) {
    match IndexOfId(t.rows, id)
    case None => false
    case Some(i) =>
      var row := Patch(t.schema, t.rows[i], data);
      !MissingRequired(t.schema, row) && IdFreeExcept(t.rows, i, IdOf(row))
  }

  /** `rows'` is the table's rows with the first row carrying `id` replaced by `row`, its patch by `data`. */
  predicate PatchedAt(t: Table, id: Value, data: Row, rows': seq<Row>, row: Row) {
    exists i :: 0 <= i < |t.rows| && IdOf(t.rows[i]) == id && (forall k :: 0 <= k < i ==> IdOf(t.rows[k]) != id) &&
                row == Patch(t.schema, t.rows[i], data) && rows' == t.rows[i := row]
  }

  /** A successful update patches the first row with the id and nothing else. */
  lemma UpdatePatchesAt(t: Table, id: Value, data: Row)
    requires Update(t, id, data).Ok? && Update(t, id, data).value.1.Some?
    ensures PatchedAt(t, id, data, Update(t, id, data).value.0.rows, Update(t, id, data).value.1.value)
  {
    var i := IndexOfId(t.rows, id).value;
    assert Update(t, id, data).value.0.rows == t.rows[i := Patch(t.schema, t.rows[i], data)];
  }

  /** After a successful update, `get` by the row's id, kept or rewritten, returns the patched row. */
  lemma UpdateThenGet(t: Table, id: Value, data: Row)
    requires Update(t, id, data).Ok? && Update(t, id, data).value.1.Some?
    ensures GetRow(Update(t, id, data).value.0, IdOf(Update(t, id, data).value.1.value)) == Some(Update(t, id, data).value.1.value)
  {
    var i := IndexOfId(t.rows, id).value;
    var row := Patch(t.schema, t.rows[i], data);
    var t' := Update(t, id, data).value.0;
    assert t'.rows == t.rows[i := row];
    assert IdFreeExcept(t.rows, i, IdOf(row));
    assert forall j :: 0 <= j < |t'.rows| && j != i ==> IdOf(t'.rows[j]) != IdOf(row);
    assert IdOf(t'.rows[i]) == IdOf(row);
    var found := IndexOfId(t'.rows, IdOf(row));
    assert found.Some?;
    assert found.value == i;
  }

  /** With distinct ids, a successful update of the id of row `i` patches exactly that row. */
  lemma UpdateAt(t: Table, id: Value, data: Row, i: nat)
    requires Valid(t) && i < |t.rows| && IdOf(t.rows[i]) == id
    requires Update(t, id, data).Ok?
    ensures Update(t, id, data).value ==
      (Table(t.schema, t.rows[i := Patch(t.schema, t.rows[i], data)]), Some(Patch(t.schema, t.rows[i], data)))
  {
    assert IndexOfId(t.rows, id) == Some(i);
  }

  /** A successful update touches one row and, within it, only the fields the input names. */
  lemma UpdateChangesOnlyNamedFields(t: Table, id: Value, data: Row, c: string)
    requires Valid(t)
    requires Update(t, id, data).Ok? && Update(t, id, data).value.1.Some?
    requires !(c in data && c in t.schema.columns)
    ensures var i := IndexOfId(t.rows, id).value;
            var t' := Update(t, id, data).value.0;
            && (forall j :: 0 <= j < |t.rows| && j != i ==> t'.rows[j] == t.rows[j])
            && (c in t.rows[i] ==> t'.rows[i][c] == t.rows[i][c])
    ensures Valid(Update(t, id, data).value.0)
  {
    var i := IndexOfId(t.rows, id).value;
    var row := Patch(t.schema, t.rows[i], data);
    var rows' := t.rows[i := row];
    forall a, b | 0 <= a < b < |rows'|
      ensures IdOf(rows'[a]) != IdOf(rows'[b])
    {
    }
  }

  // ---------------------------------------------------------------------
  // delete

  function RemoveAt(rows: seq<Row>, i: nat): (r: seq<Row>)
    requires i < |rows|
    ensures |r| == |rows| - 1
  {
    rows[..i] + rows[i + 1..]
  }

  /** `delete(id)`: `False` and no change for a missing id, otherwise that row is removed. */
  function Delete(t: Table, id: Value): (r: (Table, bool))
    ensures !r.1 <==> !HasId(t, id)
    ensures !r.1 ==> r.0 == t
    ensures r.1 ==> r.0.schema == t.schema && |r.0.rows| == |t.rows| - 1
  {
    match IndexOfId(t.rows, id)
    case None => (t, false)
    case Some(i) => (Table(t.schema, RemoveAt(t.rows, i)), true)
  }

  lemma RemoveAtIndex(rows: seq<Row>, i: nat, k: nat)
    requires i < |rows| && k < |rows| - 1
    ensures RemoveAt(rows, i)[k] == if k < i then rows[k] else rows[k + 1]
  {
  }

  /** After a successful delete no row has the id, and every other row is kept in order. */
  lemma DeleteRemovesExactlyThatRow(t: Table, id: Value)
    requires Valid(t)
    requires Delete(t, id).1
    ensures !HasId(Delete(t, id).0, id)
    ensures forall r :: r in t.rows && IdOf(r) != id ==> r in Delete(t, id).0.rows
    ensures Valid(Delete(t, id).0)
  {
    var i := IndexOfId(t.rows, id).value;
    var rows' := RemoveAt(t.rows, i);
    assert Delete(t, id).0.rows == rows';
    forall k | 0 <= k < |rows'|
      ensures IdOf(rows'[k]) != id
    {
      RemoveAtIndex(t.rows, i, k);
    }
    forall r | r in t.rows && IdOf(r) != id
      ensures r in rows'
    {
      var k :| 0 <= k < |t.rows| && t.rows[k] == r;
      if k < i {
        RemoveAtIndex(t.rows, i, k);
      } else {
        RemoveAtIndex(t.rows, i, k - 1);
      }
    }
    forall a, b | 0 <= a < b < |rows'|
      ensures IdOf(rows'[a]) != IdOf(rows'[b])
    {
      RemoveAtIndex(t.rows, i, a);
      RemoveAtIndex(t.rows, i, b);
    }
    forall k | 0 <= k < |rows'|
      ensures rows'[k].Keys == t.schema.columns
    {
      RemoveAtIndex(t.rows, i, k);
    }
  }

  // ---------------------------------------------------------------------
  // filter

  /** A row satisfies `filter(**filters)`: equality on every filter field the model has. */
  predicate Matches(s: Schema, r: Row, filters: Row) {
    forall f :: f in filters && f in s.columns ==> f in r && r[f] == filters[f]
  }

  function FilterRows(s: Schema, rows: seq<Row>, filters: Row): (r: seq<Row>)
    ensures |r| <= |rows|
    ensures forall x :: x in r <==> x in rows && Matches(s, x, filters)
    ensures |r| > 0 ==> exists i :: 0 <= i < |rows| && rows[i] == r[0] && forall j :: 0 <= j < i ==> !Matches(s, rows[j], filters)
    decreases |rows|
  {
    if |rows| == 0 then []
    else
      var rest := FilterRows(s, rows[1..], filters);
      if Matches(s, rows[0], filters) then [rows[0]] + rest
      else if |rest| > 0 then FirstMatchShifts(s, rows, filters, rest[0]); rest
      else rest
  }

  /** A first match among all rows but the first, when the first does not match, is a first match among all. */
  lemma FirstMatchShifts(s: Schema, rows: seq<Row>, filters: Row, x: Row)
    requires |rows| > 0 && !Matches(s, rows[0], filters)
    requires exists i :: 0 <= i < |rows| - 1 && rows[1..][i] == x && forall j :: 0 <= j < i ==> !Matches(s, rows[1..][j], filters)
    ensures exists i :: 0 <= i < |rows| && rows[i] == x && forall j :: 0 <= j < i ==> !Matches(s, rows[j], filters)
  {
    var i :| 0 <= i < |rows| - 1 && rows[1..][i] == x && forall j :: 0 <= j < i ==> !Matches(s, rows[1..][j], filters);
    assert rows[i + 1] == x;
    forall j | 0 <= j < i + 1
      ensures !Matches(s, rows[j], filters)
    {
      if j > 0 {
        assert rows[j] == rows[1..][j - 1];
      }
    }
  }

  /** `filter(**filters)`: the matching rows in storage order. */
  function Filter(t: Table, filters: Row): (r: seq<Row>)
    ensures |r| <= |t.rows|
    ensures forall x :: x in r <==> x in t.rows && Matches(t.schema, x, filters)
    ensures |r| > 0 ==> exists i :: 0 <= i < |t.rows| && t.rows[i] == r[0] && forall j :: 0 <= j < i ==> !Matches(t.schema, t.rows[j], filters)
  {
    FilterRows(t.schema, t.rows, filters)
  }

  /** Filter fields the model does not have are ignored. */
  lemma FilterIgnoresUnknownFields(t: Table, filters: Row)
    ensures Filter(t, filters) == Filter(t, map f | f in filters && f in t.schema.columns :: filters[f])
  {
    var known := map f | f in filters && f in t.schema.columns :: filters[f];
    FilterRowsSameMatches(t.schema, t.rows, filters, known);
  }

  lemma {:induction false} FilterRowsSameMatches(s: Schema, rows: seq<Row>, f1: Row, f2: Row)
    requires forall r :: Matches(s, r, f1) <==> Matches(s, r, f2)
    ensures FilterRows(s, rows, f1) == FilterRows(s, rows, f2)
    decreases |rows|
  {
    if |rows| > 0 {
      FilterRowsSameMatches(s, rows[1..], f1, f2);
    }
  }

  /** The first matching row, as `results[0] if results else None` reads it. */
  function FirstMatch(t: Table, filters: Row): (r: Option<Row>)
    ensures r.None? <==> forall x :: x in t.rows ==> !Matches(t.schema, x, filters)
    ensures r.Some? ==> r.value in t.rows && Matches(t.schema, r.value, filters)
    ensures r.Some? ==> exists i :: 0 <= i < |t.rows| && t.rows[i] == r.value && forall j :: 0 <= j < i ==> !Matches(t.schema, t.rows[j], filters)
  {
    var found := Filter(t, filters);
    if |found| == 0 then None
    else
      assert found[0] in found;
      Some(found[0])
  }

  /**
   * `filter_multiple(filters, in_filters)`, which only the in-memory
   * provider defines: on the SQL provider the call raises AttributeError.
   */
  function FilterMultiple(backend: Backend, t: Table, filters: Row, inFilters: map<string, seq<Value>>): (r: Result<seq<Row>, Error>)
    ensures backend == Sql <==> r.Err?
    ensures r.Ok? ==> forall x :: x in r.value <==>
      x in t.rows && Matches(t.schema, x, filters) && MatchesIn(x, inFilters)
  {
    if backend == Sql then Err(AttributeError("filter_multiple"))
    else Ok(FilterInRows(t.schema, t.rows, filters, inFilters))
  }

  predicate MatchesIn(r: Row, inFilters: map<string, seq<Value>>) {
    forall f :: f in inFilters ==> f in r && r[f] in inFilters[f]
  }

  function FilterInRows(s: Schema, rows: seq<Row>, filters: Row, inFilters: map<string, seq<Value>>): (r: seq<Row>)
    ensures forall x :: x in r <==> x in rows && Matches(s, x, filters) && MatchesIn(x, inFilters)
    decreases |rows|
  {
    if |rows| == 0 then []
    else
      var rest := FilterInRows(s, rows[1..], filters, inFilters);
      if Matches(s, rows[0], filters) && MatchesIn(rows[0], inFilters) then [rows[0]] + rest else rest
  }
}
