/**
 * The Illinois district boundary script: it creates the House and Senate
 * jurisdictions under their fixed ids when they are absent, then reads one
 * GeoJSON file per chamber and, for every feature with a "Name", creates
 * the district "IL House District {Name}" (or Senate) unless that chamber
 * already has it, and hands the feature to the geo provider as the
 * district's boundary.
 *
 * The provider stores a boundary through a session of its own, while the
 * script's session commits only after both files. A district the script
 * has just created is therefore not found by the provider and gets no
 * boundary in that run; and once the script has flushed a new district it
 * holds SQLite's write lock, so the provider's commit for an existing
 * district fails and ends that file's loop.
 *
 * The `uuid4()` ids of new districts come from a function of the feature's
 * position in its file.
 */
module IllinoisGeoJson {
  import opened Wrappers
  import opened PyJson
  import opened Models
  import opened ScriptGeoJson

  /** `IL_HOUSE_ID`, e47ac10b-58cc-4372-a567-0e02b2c3d480. */
  const IlHouseId: Value := Uuid(0xe47ac10b_58cc_4372_a567_0e02b2c3d480)

  /** `IL_SENATE_ID`, f47ac10b-58cc-4372-a567-0e02b2c3d481. */
  const IlSenateId: Value := Uuid(0xf47ac10b_58cc_4372_a567_0e02b2c3d481)

  const HouseRow: JurisdictionRow := JurisdictionRow(
    IlHouseId, "Illinois House of Representatives",
    "Lower chamber of the Illinois General Assembly consisting of 118 representatives", "state_house", Null)

  const SenateRow: JurisdictionRow := JurisdictionRow(
    IlSenateId, "Illinois State Senate",
    "Upper chamber of the Illinois General Assembly consisting of 59 senators", "state_senate", Null)

  /** Adds `row` unless a jurisdiction with its id exists. */
  function AddIfAbsent(js: seq<JurisdictionRow>, row: JurisdictionRow): (r: seq<JurisdictionRow>)
    ensures HasJurisdiction(js, row.id) ==> r == js
    ensures !HasJurisdiction(js, row.id) ==> r == js + [row]
    ensures HasJurisdiction(r, row.id)
  {
    if HasJurisdiction(js, row.id) then js
    else
      assert (js + [row])[|js|] == row;
      js + [row]
  }

  /**
   * `create_il_legislature_jurisdictions`: afterwards both chambers exist;
   * the rows already there are kept as they are, and only the missing
   * chambers are added, House first.
   */
  function CreateChambers(js: seq<JurisdictionRow>): (r: seq<JurisdictionRow>)
    ensures HasJurisdiction(r, IlHouseId) && HasJurisdiction(r, IlSenateId)
    ensures js <= r
    ensures |r| == |js| <==> HasJurisdiction(js, IlHouseId) && HasJurisdiction(js, IlSenateId)
    ensures forall k :: |js| <= k < |r| ==> r[k] == HouseRow || r[k] == SenateRow
  {
    var withHouse := AddIfAbsent(js, HouseRow);
    HasJurisdictionSnoc(js, HouseRow, IlSenateId);
    var r := AddIfAbsent(withHouse, SenateRow);
    HasJurisdictionSnoc(withHouse, SenateRow, IlHouseId);
    r
  }

  /** A row appended to the table is found by its id, and every id found before still is. */
  lemma HasJurisdictionSnoc(js: seq<JurisdictionRow>, row: JurisdictionRow, id: Value)
    ensures HasJurisdiction(js + [row], id) <==> HasJurisdiction(js, id) || row.id == id
  {
    if HasJurisdiction(js, id) {
      var k :| 0 <= k < |js| && js[k].id == id;
      assert (js + [row])[k] == js[k];
    }
    if row.id == id {
      assert (js + [row])[|js|] == row;
    }
    if HasJurisdiction(js + [row], id) && row.id != id {
      var k :| 0 <= k < |js + [row]| && (js + [row])[k].id == id;
      assert k < |js| && (js + [row])[k] == js[k];
    }
  }

  /** Running the jurisdiction step a second time changes nothing. */
  lemma CreateChambersIdempotent(js: seq<JurisdictionRow>)
    ensures CreateChambers(CreateChambers(js)) == CreateChambers(js)
  {
  }

  // ---------------------------------------------------------------------
  // Districts

  /** The districts of jurisdiction `jid` named `name`: what the `select(District).where(...)` returns. */
  function Named(ds: seq<DistrictRow>, name: string, jid: Value): (r: seq<DistrictRow>)
    ensures forall d :: d in r <==> d in ds && d.name == name && d.jurisdictionId == jid
    ensures |r| == 0 <==> forall k :: 0 <= k < |ds| ==> ds[k].name != name || ds[k].jurisdictionId != jid
    ensures |r| <= |ds|
  {
    if |ds| == 0 then []
    else
      var rest := Named(ds[1..], name, jid);
      assert forall d :: d in ds <==> d == ds[0] || d in ds[1..];
      if ds[0].name == name && ds[0].jurisdictionId == jid then [ds[0]] + rest else rest
  }

  /** Appending a row adds it to the lookup exactly when it matches. */
  lemma {:induction false} NamedSnoc(ds: seq<DistrictRow>, x: DistrictRow, name: string, jid: Value)
    ensures Named(ds + [x], name, jid) ==
            Named(ds, name, jid) + (if x.name == name && x.jurisdictionId == jid then [x] else [])
  {
    if |ds| == 0 {
      assert ds + [x] == [x];
      assert [x][1..] == [];
    } else {
      assert (ds + [x])[1..] == ds[1..] + [x];
      NamedSnoc(ds[1..], x, name, jid);
    }
  }

  /** No two districts of one jurisdiction share a name. */
  predicate UniqueNames(ds: seq<DistrictRow>) {
    forall a, b :: 0 <= a < b < |ds| ==> ds[a].name != ds[b].name || ds[a].jurisdictionId != ds[b].jurisdictionId
  }

  /** With unique names, the lookup finds at most one district. */
  lemma {:induction false} UniqueNamesFindAtMostOne(ds: seq<DistrictRow>, name: string, jid: Value)
    requires UniqueNames(ds)
    ensures |Named(ds, name, jid)| <= 1
  {
    if |ds| > 0 {
      assert UniqueNames(ds[1..]) by {
        forall a, b | 0 <= a < b < |ds[1..]|
          ensures ds[1..][a].name != ds[1..][b].name || ds[1..][a].jurisdictionId != ds[1..][b].jurisdictionId
        {
          assert ds[1..][a] == ds[a + 1] && ds[1..][b] == ds[b + 1];
        }
      }
      UniqueNamesFindAtMostOne(ds[1..], name, jid);
      if ds[0].name == name && ds[0].jurisdictionId == jid {
        forall b | 0 <= b < |ds[1..]|
          ensures ds[1..][b].name != name || ds[1..][b].jurisdictionId != jid
        {
          assert ds[1..][b] == ds[b + 1];
        }
      }
    }
  }

  /** The chamber a file is imported into: the name prefix and the jurisdiction id. */
  datatype Chamber = Chamber(prefix: string, jurisdictionId: Value)

  /** `feature.get("properties", {}).get("Name")`: a feature or properties value that is not a dict has no `get`. */
  function NameOf(feature: Value): (r: Result<Value, Error>)
    ensures r.Ok? <==> feature.Obj? && Get(feature.fields, "properties", Obj(map[])).Obj?
    ensures r.Ok? ==> r.value == Get(Get(feature.fields, "properties", Obj(map[])).fields, "Name", Null)
    ensures r.Err? ==> r.error == AttributeError("get")
  {
    if !feature.Obj? then Err(AttributeError("get"))
    else
      var p := Get(feature.fields, "properties", Obj(map[]));
      if !p.Obj? then Err(AttributeError("get")) else Ok(Get(p.fields, "Name", Null))
  }

  /** The name of the district a feature describes. */
  function ChamberDistrictName(c: Chamber, n: Value): string {
    c.prefix + Show(n)
  }

  /** Whether some district of the chamber is named after `n`. */
  predicate HasDistrict(ds: seq<DistrictRow>, c: Chamber, n: Value) {
    exists d :: d in ds && d.name == ChamberDistrictName(c, n) && d.jurisdictionId == c.jurisdictionId
  }

  /** A district of the chamber named after `n` whose stored boundary is `feature`. */
  predicate HasBoundary(s: Store, c: Chamber, n: Value, feature: Value) {
    exists d :: d in s.districts && d.name == ChamberDistrictName(c, n) && d.jurisdictionId == c.jurisdictionId &&
                d.id in s.districtBoundaries && s.districtBoundaries[d.id] == feature
  }

  /** Whether some district has the id `id`: a new row under it fails the primary key at the flush. */
  predicate IdTaken(ds: seq<DistrictRow>, id: Value) {
    exists k :: 0 <= k < |ds| && ds[k].id == id
  }

  /**
   * Whether a session other than the script's sees the district `id`: the
   * first `committed` rows were committed before the script's session
   * began, the rest are only flushed in it.
   */
  predicate Visible(ds: seq<DistrictRow>, committed: nat, id: Value) {
    exists k :: 0 <= k < committed && k < |ds| && ds[k].id == id
  }

  /** Whether the boundary stored under `id` differs between two boundary tables. */
  predicate BoundaryWritten(before: map<Value, Value>, after: map<Value, Value>, id: Value) {
    id in after && (id !in before || after[id] != before[id])
  }

  /** What the provider's commit raises while the script's session holds SQLite's write lock. */
  const DatabaseLocked: Error := Exception("database is locked")

  /**
   * One iteration of the feature loop, in a session whose first `committed`
   * districts were committed before it began. A falsy "Name" skips the
   * feature; `scalar_one_or_none` raises when several districts of the
   * chamber have the name. `store_district_boundary` opens a session of its
   * own: a district the script has only flushed is not found there, so
   * nothing is stored; a committed one gets the feature as its boundary,
   * unless the script has already flushed a new district and so holds the
   * database's write lock, and then the provider's commit fails. With no
   * district of the name, one with code `str(Name)` is added under
   * `freshId` (a taken id fails the flush) and, being only flushed, gets no
   * boundary.
   */
  function UpsertDistrict(s: Store, c: Chamber, feature: Value, freshId: Value, committed: nat): (r: Result<Store, Error>)
    ensures NameOf(feature).Err? ==> r == Err(NameOf(feature).error)
    ensures NameOf(feature).Ok? && !Truthy(NameOf(feature).value) ==> r == Ok(s)
    ensures r.Err? <==>
      NameOf(feature).Err? ||
      (Truthy(NameOf(feature).value) &&
       var m := Named(s.districts, ChamberDistrictName(c, NameOf(feature).value), c.jurisdictionId);
       || |m| > 1
       || (|m| == 1 && Visible(s.districts, committed, m[0].id) && |s.districts| > committed)
       || (|m| == 0 && IdTaken(s.districts, freshId)))
    ensures r.Ok? ==> s.districts <= r.value.districts && |r.value.districts| <= |s.districts| + 1 &&
                      r.value.jurisdictions == s.jurisdictions && r.value.jurisdictionBoundaries == s.jurisdictionBoundaries
    ensures r.Ok? && Truthy(NameOf(feature).value) ==> HasDistrict(r.value.districts, c, NameOf(feature).value)
    ensures r.Ok? && r.value.districtBoundaries != s.districtBoundaries ==>
      r.value.districts == s.districts && |s.districts| <= committed && HasBoundary(r.value, c, NameOf(feature).value, feature)
    ensures r.Ok? ==> forall id :: BoundaryWritten(s.districtBoundaries, r.value.districtBoundaries, id) ==>
      Visible(s.districts, committed, id)
    ensures r.Ok? ==> s.districtBoundaries.Keys <= r.value.districtBoundaries.Keys
    ensures r.Ok? && |r.value.districts| > |s.districts| ==>
      var n := NameOf(feature).value;
      && r.value.districts[|s.districts|] == DistrictRow(freshId, ChamberDistrictName(c, n), Show(n), c.jurisdictionId)
      && |Named(s.districts, ChamberDistrictName(c, n), c.jurisdictionId)| == 0
      && !IdTaken(s.districts, freshId)
      && r.value.districtBoundaries == s.districtBoundaries
  {
    match NameOf(feature)
    case Err(e) => Err(e)
    case Ok(n) =>
      if !Truthy(n) then Ok(s)
      else
        var name := ChamberDistrictName(c, n);
        var m := Named(s.districts, name, c.jurisdictionId);
        if |m| > 1 then Err(Exception("MultipleResultsFound"))
        else if |m| == 1 then
          assert m[0] in m;
          if !Visible(s.districts, committed, m[0].id) then Ok(s)
          else if |s.districts| > committed then Err(DatabaseLocked)
          else Ok(s.(districtBoundaries := s.districtBoundaries[m[0].id := feature]))
        else if IdTaken(s.districts, freshId) then Err(IntegrityError("id"))
        else
          var d := DistrictRow(freshId, name, Show(n), c.jurisdictionId);
          assert d in s.districts + [d];
          Ok(s.(districts := s.districts + [d]))
  }

  /** Upserting a feature keeps district names unique within each jurisdiction. */
  lemma UpsertKeepsUniqueNames(s: Store, c: Chamber, feature: Value, freshId: Value, committed: nat)
    requires UniqueNames(s.districts) && UpsertDistrict(s, c, feature, freshId, committed).Ok?
    ensures UniqueNames(UpsertDistrict(s, c, feature, freshId, committed).value.districts)
  {
    var r := UpsertDistrict(s, c, feature, freshId, committed).value;
    if |r.districts| > |s.districts| {
      var n := NameOf(feature).value;
      var d := r.districts[|s.districts|];
      assert r.districts == s.districts + [d];
      forall a | 0 <= a < |s.districts|
        ensures s.districts[a].name != d.name || s.districts[a].jurisdictionId != d.jurisdictionId
      {
        assert s.districts[a] in s.districts;
      }
    }
  }

  /**
   * Within one session whose committed districts lead the table, upserting
   * the same feature a second time changes nothing, whatever id it would
   * be given.
   */
  lemma UpsertIsIdempotent(s: Store, c: Chamber, feature: Value, id1: Value, id2: Value, committed: nat)
    requires committed <= |s.districts| && UpsertDistrict(s, c, feature, id1, committed).Ok?
    ensures UpsertDistrict(UpsertDistrict(s, c, feature, id1, committed).value, c, feature, id2, committed)
         == UpsertDistrict(s, c, feature, id1, committed)
  {
    var r := UpsertDistrict(s, c, feature, id1, committed).value;
    if Truthy(NameOf(feature).value) {
      if |r.districts| > |s.districts| {
        RepeatAfterCreate(s, c, feature, id1, id2, committed);
      } else {
        RepeatAfterFound(s, c, feature, id1, id2, committed);
      }
    }
  }

  /**
   * With no district of the name and a free id, the upsert appends a
   * district named after the feature, with code `str(Name)`, and stores no
   * boundary.
   */
  lemma UpsertDistrictCreates(s: Store, c: Chamber, feature: Value, freshId: Value, committed: nat)
    requires NameOf(feature).Ok? && Truthy(NameOf(feature).value)
    requires |Named(s.districts, ChamberDistrictName(c, NameOf(feature).value), c.jurisdictionId)| == 0
    requires !IdTaken(s.districts, freshId)
    ensures var n := NameOf(feature).value;
      UpsertDistrict(s, c, feature, freshId, committed) ==
      Ok(s.(districts := s.districts + [DistrictRow(freshId, ChamberDistrictName(c, n), Show(n), c.jurisdictionId)]))
  {
  }

  /**
   * With exactly one district of the name: a district no other session
   * sees is left without a boundary; a committed one gets the feature,
   * unless the session holds a flushed district, and then the provider's
   * commit fails.
   */
  lemma UpsertDistrictFindsOne(s: Store, c: Chamber, feature: Value, freshId: Value, committed: nat)
    requires NameOf(feature).Ok? && Truthy(NameOf(feature).value)
    requires |Named(s.districts, ChamberDistrictName(c, NameOf(feature).value), c.jurisdictionId)| == 1
    ensures var d := Named(s.districts, ChamberDistrictName(c, NameOf(feature).value), c.jurisdictionId)[0];
      && (!Visible(s.districts, committed, d.id) ==> UpsertDistrict(s, c, feature, freshId, committed) == Ok(s))
      && (Visible(s.districts, committed, d.id) && |s.districts| > committed ==>
            UpsertDistrict(s, c, feature, freshId, committed) == Err(DatabaseLocked))
      && (Visible(s.districts, committed, d.id) && |s.districts| <= committed ==>
            UpsertDistrict(s, c, feature, freshId, committed) == Ok(s.(districtBoundaries := s.districtBoundaries[d.id := feature])))
  {
  }

  /** The second upsert after a creation finds the created district alone, which no other session sees yet. */
  lemma RepeatAfterCreate(s: Store, c: Chamber, feature: Value, id1: Value, id2: Value, committed: nat)
    requires committed <= |s.districts|
    requires UpsertDistrict(s, c, feature, id1, committed).Ok? && Truthy(NameOf(feature).value)
    requires |UpsertDistrict(s, c, feature, id1, committed).value.districts| > |s.districts|
    ensures UpsertDistrict(UpsertDistrict(s, c, feature, id1, committed).value, c, feature, id2, committed)
         == UpsertDistrict(s, c, feature, id1, committed)
  {
    var n := NameOf(feature).value;
    var name := ChamberDistrictName(c, n);
    var d := DistrictRow(id1, name, Show(n), c.jurisdictionId);
    UpsertDistrictCreates(s, c, feature, id1, committed);
    var r := s.(districts := s.districts + [d]);
    NamedSnoc(s.districts, d, name, c.jurisdictionId);
    assert Named(r.districts, name, c.jurisdictionId) == [d];
    assert !Visible(r.districts, committed, id1);
    UpsertDistrictFindsOne(r, c, feature, id2, committed);
  }

  /** The second upsert after a found district finds the same district again, and stores what is already there. */
  lemma RepeatAfterFound(s: Store, c: Chamber, feature: Value, id1: Value, id2: Value, committed: nat)
    requires UpsertDistrict(s, c, feature, id1, committed).Ok? && Truthy(NameOf(feature).value)
    requires |UpsertDistrict(s, c, feature, id1, committed).value.districts| == |s.districts|
    ensures UpsertDistrict(UpsertDistrict(s, c, feature, id1, committed).value, c, feature, id2, committed)
         == UpsertDistrict(s, c, feature, id1, committed)
  {
    var r := UpsertDistrict(s, c, feature, id1, committed).value;
    assert r.districts == s.districts;
    var m := Named(s.districts, ChamberDistrictName(c, NameOf(feature).value), c.jurisdictionId);
    if Visible(s.districts, committed, m[0].id) {
      assert r.districtBoundaries[m[0].id := feature] == r.districtBoundaries;
    }
  }

  /**
   * Once the session that upserted a feature has committed, the next run
   * (a fresh session, so every district is committed) finds the feature's
   * district and stores the feature as its boundary: a district created in
   * one run gets its boundary from the next.
   */
  lemma NextRunStoresBoundary(s: Store, c: Chamber, feature: Value, id1: Value, id2: Value, committed: nat)
    requires UpsertDistrict(s, c, feature, id1, committed).Ok? && Truthy(NameOf(feature).value)
    ensures var r := UpsertDistrict(s, c, feature, id1, committed).value;
      var r2 := UpsertDistrict(r, c, feature, id2, |r.districts|);
      r2.Ok? && r2.value.districts == r.districts && HasBoundary(r2.value, c, NameOf(feature).value, feature)
  {
    var n := NameOf(feature).value;
    var name := ChamberDistrictName(c, n);
    var r := UpsertDistrict(s, c, feature, id1, committed).value;
    if |r.districts| > |s.districts| {
      var d := r.districts[|s.districts|];
      assert r.districts == s.districts + [d];
      NamedSnoc(s.districts, d, name, c.jurisdictionId);
    }
    var m := Named(r.districts, name, c.jurisdictionId);
    assert |m| == 1;
    assert m[0] in m;
    var k :| 0 <= k < |r.districts| && r.districts[k] == m[0];
    assert Visible(r.districts, |r.districts|, m[0].id);
    UpsertDistrictFindsOne(r, c, feature, id2, |r.districts|);
    var r2 := r.(districtBoundaries := r.districtBoundaries[m[0].id := feature]);
    assert m[0] in r2.districts && r2.districtBoundaries[m[0].id] == feature;
  }

  /**
   * The feature loop from position `i`: processing stops at the first
   * exception, which the script's `except` logs; the work done before it
   * stays in the session and is committed.
   */
  function ProcessFeatures(s: Store, c: Chamber, features: seq<Value>, ids: nat -> Value, committed: nat, i: nat)
    : (r: (Store, Option<Error>))
    requires i <= |features|
    ensures s.districts <= r.0.districts
    ensures r.0.jurisdictions == s.jurisdictions && r.0.jurisdictionBoundaries == s.jurisdictionBoundaries
    decreases |features| - i
  {
    if i == |features| then (s, None)
    else match UpsertDistrict(s, c, features[i], ids(i), committed)
      case Err(e) => (s, Some(e))
      case Ok(s') => ProcessFeatures(s', c, features, ids, committed, i + 1)
  }

  /** Starting from unique names, the loop keeps them unique. */
  lemma {:induction false} ProcessKeepsUniqueNames(s: Store, c: Chamber, features: seq<Value>, ids: nat -> Value, committed: nat, i: nat)
    requires i <= |features| && UniqueNames(s.districts)
    ensures UniqueNames(ProcessFeatures(s, c, features, ids, committed, i).0.districts)
    decreases |features| - i
  {
    if i < |features| {
      var u := UpsertDistrict(s, c, features[i], ids(i), committed);
      if u.Ok? {
        UpsertKeepsUniqueNames(s, c, features[i], ids(i), committed);
        ProcessKeepsUniqueNames(u.value, c, features, ids, committed, i + 1);
      }
    }
  }

  /**
   * From unique names the lookup never finds several districts, so the loop
   * stops only at a feature whose "Name" cannot be read, at the provider's
   * failed commit, or at a taken id.
   */
  lemma {:induction false} ProcessNeverFindsSeveral(s: Store, c: Chamber, features: seq<Value>, ids: nat -> Value, committed: nat, i: nat)
    requires i <= |features| && UniqueNames(s.districts)
    ensures var r := ProcessFeatures(s, c, features, ids, committed, i);
      && (r.1.None? ==> forall k :: i <= k < |features| ==> NameOf(features[k]).Ok?)
      && (r.1.Some? ==> r.1.value == AttributeError("get") || r.1.value == DatabaseLocked || r.1.value == IntegrityError("id"))
    decreases |features| - i
  {
    if i < |features| {
      var u := UpsertDistrict(s, c, features[i], ids(i), committed);
      if NameOf(features[i]).Ok? && Truthy(NameOf(features[i]).value) {
        UniqueNamesFindAtMostOne(s.districts, ChamberDistrictName(c, NameOf(features[i]).value), c.jurisdictionId);
      }
      if u.Ok? {
        UpsertKeepsUniqueNames(s, c, features[i], ids(i), committed);
        ProcessNeverFindsSeveral(u.value, c, features, ids, committed, i + 1);
      }
    }
  }

  /**
   * When the loop runs to the end, every feature with a "Name" has its
   * district in the chamber afterwards.
   */
  lemma {:induction false} EveryNamedFeatureHasDistrict(s: Store, c: Chamber, features: seq<Value>, ids: nat -> Value, committed: nat, i: nat, k: nat)
    requires i <= k < |features|
    requires ProcessFeatures(s, c, features, ids, committed, i).1.None?
    ensures NameOf(features[k]).Ok?
    ensures Truthy(NameOf(features[k]).value) ==>
      HasDistrict(ProcessFeatures(s, c, features, ids, committed, i).0.districts, c, NameOf(features[k]).value)
    decreases |features| - i
  {
    var u := UpsertDistrict(s, c, features[i], ids(i), committed);
    assert u.Ok?;
    var r := ProcessFeatures(u.value, c, features, ids, committed, i + 1);
    if k == i {
      if Truthy(NameOf(features[k]).value) {
        var d :| d in u.value.districts && d.name == ChamberDistrictName(c, NameOf(features[k]).value) &&
                 d.jurisdictionId == c.jurisdictionId;
        assert u.value.districts <= r.0.districts;
        assert d in r.0.districts;
      }
    } else {
      EveryNamedFeatureHasDistrict(u.value, c, features, ids, committed, i + 1, k);
    }
  }

  /**
   * The loop writes boundaries only for districts committed before the
   * session began: none of the districts it creates gets one.
   */
  lemma {:induction false} LoopWritesOnlyCommittedBoundaries(s: Store, c: Chamber, features: seq<Value>, ids: nat -> Value, committed: nat, i: nat)
    requires i <= |features| && committed <= |s.districts|
    ensures var r := ProcessFeatures(s, c, features, ids, committed, i).0;
      forall id :: BoundaryWritten(s.districtBoundaries, r.districtBoundaries, id) ==> Visible(s.districts, committed, id)
    ensures s.districtBoundaries.Keys <= ProcessFeatures(s, c, features, ids, committed, i).0.districtBoundaries.Keys
    decreases |features| - i
  {
    if i < |features| {
      var u := UpsertDistrict(s, c, features[i], ids(i), committed);
      if u.Ok? {
        var r := ProcessFeatures(u.value, c, features, ids, committed, i + 1).0;
        LoopWritesOnlyCommittedBoundaries(u.value, c, features, ids, committed, i + 1);
        forall id | BoundaryWritten(s.districtBoundaries, r.districtBoundaries, id)
          ensures Visible(s.districts, committed, id)
        {
          if BoundaryWritten(u.value.districtBoundaries, r.districtBoundaries, id) {
            var k :| 0 <= k < committed && k < |u.value.districts| && u.value.districts[k].id == id;
            assert u.value.districts[k] == s.districts[k];
          } else {
            assert BoundaryWritten(s.districtBoundaries, u.value.districtBoundaries, id);
          }
        }
      }
    }
  }

  /**
   * Importing one chamber's file in a session whose first `committed`
   * districts were committed before it began: a missing or unreadable
   * file, a value that is not a FeatureCollection, or a `features` member
   * that cannot be iterated leaves everything as it was; otherwise the
   * feature loop runs.
   */
  function ImportChamber(s: Store, c: Chamber, file: GeoFile, ids: nat -> Value, committed: nat): (r: Store)
    ensures !file.Loaded? || !IsFeatureCollection(file.data) ==> r == s
    ensures file.Loaded? && IsFeatureCollection(file.data) && IterateFeatures(FeaturesValue(file.data)).Err? ==> r == s
    ensures file.Loaded? && IsFeatureCollection(file.data) && IterateFeatures(FeaturesValue(file.data)).Ok? ==>
      r == ProcessFeatures(s, c, IterateFeatures(FeaturesValue(file.data)).value, ids, committed, 0).0
    ensures s.districts <= r.districts && r.jurisdictions == s.jurisdictions
  {
    if !file.Loaded? || !IsFeatureCollection(file.data) then s
    else match IterateFeatures(FeaturesValue(file.data))
      case Err(_) => s
      case Ok(features) => ProcessFeatures(s, c, features, ids, committed, 0).0
  }

  const HouseChamber := Chamber("IL House District ", IlHouseId)
  const SenateChamber := Chamber("IL Senate District ", IlSenateId)

  /**
   * `import_geojson_districts`: the House file, then the Senate file, each
   * into the jurisdiction given for it, in one session that commits only
   * at the end; whatever happens it commits and returns True.
   */
  function ImportDistricts(s: Store, houseFile: GeoFile, senateFile: GeoFile, houseId: Value, senateId: Value,
                           houseIds: nat -> Value, senateIds: nat -> Value): (r: (Store, bool))
    ensures r.1
    ensures s.districts <= r.0.districts && r.0.jurisdictions == s.jurisdictions
    ensures (!houseFile.Loaded? || !IsFeatureCollection(houseFile.data)) &&
              (!senateFile.Loaded? || !IsFeatureCollection(senateFile.data)) ==>
            r.0 == s
  {
    var afterHouse := ImportChamber(s, Chamber(HouseChamber.prefix, houseId), houseFile, houseIds, |s.districts|);
    (ImportChamber(afterHouse, Chamber(SenateChamber.prefix, senateId), senateFile, senateIds, |s.districts|), true)
  }

  /** One chamber's import writes boundaries only for districts committed before the session began. */
  lemma ChamberWritesOnlyCommittedBoundaries(s: Store, c: Chamber, file: GeoFile, ids: nat -> Value, committed: nat)
    requires committed <= |s.districts|
    ensures var r := ImportChamber(s, c, file, ids, committed);
      && (forall id :: BoundaryWritten(s.districtBoundaries, r.districtBoundaries, id) ==> Visible(s.districts, committed, id))
      && s.districtBoundaries.Keys <= r.districtBoundaries.Keys
  {
    if file.Loaded? && IsFeatureCollection(file.data) && IterateFeatures(FeaturesValue(file.data)).Ok? {
      LoopWritesOnlyCommittedBoundaries(s, c, IterateFeatures(FeaturesValue(file.data)).value, ids, committed, 0);
    }
  }

  /**
   * A run of the script stores boundaries only for districts that existed
   * before it: every district it creates is left without a boundary.
   */
  lemma ImportWritesOnlyExistingBoundaries(s: Store, houseFile: GeoFile, senateFile: GeoFile, houseId: Value, senateId: Value,
                                           houseIds: nat -> Value, senateIds: nat -> Value)
    ensures var r := ImportDistricts(s, houseFile, senateFile, houseId, senateId, houseIds, senateIds).0;
      forall id :: BoundaryWritten(s.districtBoundaries, r.districtBoundaries, id) ==> IdTaken(s.districts, id)
  {
    var n := |s.districts|;
    var house := Chamber(HouseChamber.prefix, houseId);
    var afterHouse := ImportChamber(s, house, houseFile, houseIds, n);
    var r := ImportDistricts(s, houseFile, senateFile, houseId, senateId, houseIds, senateIds).0;
    ChamberWritesOnlyCommittedBoundaries(s, house, houseFile, houseIds, n);
    ChamberWritesOnlyCommittedBoundaries(afterHouse, Chamber(SenateChamber.prefix, senateId), senateFile, senateIds, n);
    forall id | BoundaryWritten(s.districtBoundaries, r.districtBoundaries, id)
      ensures IdTaken(s.districts, id)
    {
      if BoundaryWritten(afterHouse.districtBoundaries, r.districtBoundaries, id) {
        var k :| 0 <= k < n && k < |afterHouse.districts| && afterHouse.districts[k].id == id;
        assert afterHouse.districts[k] == s.districts[k];
      } else {
        assert BoundaryWritten(s.districtBoundaries, afterHouse.districtBoundaries, id);
        var k :| 0 <= k < n && k < |s.districts| && s.districts[k].id == id;
      }
    }
  }

  /**
   * The whole script on its default chambers: the jurisdictions first,
   * then both files into them.
   */
  function SetupDistrictData(s: Store, houseFile: GeoFile, senateFile: GeoFile,
                             houseIds: nat -> Value, senateIds: nat -> Value): (r: Store)
    ensures HasJurisdiction(r.jurisdictions, IlHouseId) && HasJurisdiction(r.jurisdictions, IlSenateId)
    ensures s.districts <= r.districts
  {
    var withChambers := s.(jurisdictions := CreateChambers(s.jurisdictions));
    ImportDistricts(withChambers, houseFile, senateFile, IlHouseId, IlSenateId, houseIds, senateIds).0
  }
}

/**
 * The boundary script and the legislator script name the same two chamber
 * jurisdictions, so once the boundary script has run, the legislator
 * script's jurisdiction check passes.
 */
module IllinoisChambersAgree {
  import opened Wrappers
  import opened PyJson
  import opened ScriptGeoJson
  import IllinoisGeoJson
  import IllinoisLegislators

  /** The ids of a jurisdiction table. */
  function Ids(js: seq<JurisdictionRow>): set<Value> {
    set k | 0 <= k < |js| :: js[k].id
  }

  /** After the chambers are created, `verify_jurisdictions` returns both ids. */
  lemma ChambersPassLegislatorCheck(js: seq<JurisdictionRow>)
    ensures IllinoisLegislators.VerifyJurisdictions(Ids(IllinoisGeoJson.CreateChambers(js)))
         == (Some(IllinoisLegislators.IlHouseId), Some(IllinoisLegislators.IlSenateId))
  {
    var r := IllinoisGeoJson.CreateChambers(js);
    var h :| 0 <= h < |r| && r[h].id == IllinoisGeoJson.IlHouseId;
    var s :| 0 <= s < |r| && r[s].id == IllinoisGeoJson.IlSenateId;
    assert r[h].id in Ids(r) && r[s].id in Ids(r);
  }
}
