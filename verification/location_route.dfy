/**
 * `POST /location/lookup`: geocode the address, ask the geo provider which
 * jurisdictions contain the point, and return each one found with its
 * entities.
 */
module LocationRoute {
  import opened Wrappers
  import opened PyJson
  import opened Models
  import opened SqlStore
  import opened Database
  import opened GeoProvider

  datatype JurisdictionWithEntities = JurisdictionWithEntities(
    id: Value, name: Value, level: Value, description: Value, entities: seq<Row>)

  /** `coordinates` is `(latitude, longitude)`. */
  datatype AddressLookupResponse = AddressLookupResponse(
    address: string, coordinates: (real, real), jurisdictions: seq<JurisdictionWithEntities>)

  /** The ids whose jurisdiction is found, in the order given. */
  function Resolvable(db: Db, ids: seq<Value>): (r: seq<Value>)
    ensures forall x :: x in r <==> x in ids && HasId(JurisdictionsTable(db), x)
    decreases |ids|
  {
    if |ids| == 0 then []
    else
      var n := |ids| - 1;
      assert forall x :: x in ids <==> x in ids[..n] || x == ids[n];
      Resolvable(db, ids[..n]) + (if HasId(JurisdictionsTable(db), ids[n]) then [ids[n]] else [])
  }

  /**
   * An entry lists exactly the entity rows whose `jurisdiction_id` is the
   * entry's id: `filter(jurisdiction_id=jid)` drops none of them.
   */
  predicate ListsEntitiesOf(db: Db, entities: seq<Row>, jid: Value) {
    && (forall e :: e in entities ==> e in db.entities && "jurisdiction_id" in e && e["jurisdiction_id"] == jid)
    && (forall e :: e in db.entities && "jurisdiction_id" in e && e["jurisdiction_id"] == jid ==> e in entities)
  }

  /** The response entry for one found jurisdiction. */
  function Entry(db: Db, j: Row, jid: Value): (r: JurisdictionWithEntities)
    ensures r.id == IdOf(j)
    ensures ListsEntitiesOf(db, r.entities, jid)
  {
    var filters := map["jurisdiction_id" := jid];
    var es := Filter(EntitiesTable(db), filters);
    assert "jurisdiction_id" in filters && "jurisdiction_id" in EntitiesTable(db).schema.columns;
    JurisdictionWithEntities(IdOf(j), Col(j, "name"), Col(j, "level"), Col(j, "description"), es)
  }

  /** Every entry lists exactly the entity rows of its jurisdiction. */
  predicate EntitiesBelong(db: Db, js: seq<JurisdictionWithEntities>) {
    forall k :: 0 <= k < |js| ==> ListsEntitiesOf(db, js[k].entities, js[k].id)
  }

  /** The loop over the returned ids; an id without a jurisdiction is skipped. */
  function Entries(db: Db, ids: seq<Value>): (r: seq<JurisdictionWithEntities>)
    ensures |r| == |Resolvable(db, ids)|
    ensures forall k :: 0 <= k < |r| ==> r[k].id == Resolvable(db, ids)[k]
    ensures EntitiesBelong(db, r)
    decreases |ids|
  {
    if |ids| == 0 then []
    else
      var n := |ids| - 1;
      var rest := Entries(db, ids[..n]);
      assert Resolvable(db, ids) == Resolvable(db, ids[..n]) + (if HasId(JurisdictionsTable(db), ids[n]) then [ids[n]] else []);
      match GetRow(JurisdictionsTable(db), ids[n])
      case None => rest
      case Some(j) =>
        var last := Entry(db, j, ids[n]);
        assert forall k :: 0 <= k < |rest| ==> (rest + [last])[k] == rest[k];
        rest + [last]
  }

  /**
   * `lookup_representatives` as written. The provider dependency is built
   * before the handler runs: under PostgreSQL that raises TypeError. The
   * SQLite provider has no `point_in_jurisdictions`, so once the address is
   * geocoded the handler raises AttributeError. No request succeeds.
   */
  function LookupRepresentatives(db: Db, address: string, databaseProvider: string, sqlite: Provider, geocode: Geocode): (r: Result<AddressLookupResponse, Error>)
    ensures r.Err?
    ensures GetGeoProvider(databaseProvider, sqlite).Err? ==> r.error.TypeError?
    ensures GetGeoProvider(databaseProvider, sqlite).Ok? && geocode(address).Err? ==> r == Err(geocode(address).error)
    ensures GetGeoProvider(databaseProvider, sqlite).Ok? && geocode(address).Ok? ==> r == Err(AttributeError("point_in_jurisdictions"))
  {
    var _ :- GetGeoProvider(databaseProvider, sqlite);
    var _ :- geocode(address);
    Err(AttributeError("point_in_jurisdictions"))
  }

  /**
   * The lookup as evidently intended: `pointInJurisdictions` answers which
   * jurisdictions contain the point, as the PostGIS query would.
   */
  function LookupRepresentativesVia(db: Db, address: string, pointInJurisdictions: (real, real) -> seq<Value>, geocode: Geocode): (r: Result<AddressLookupResponse, Error>)
    ensures geocode(address).Err? ==> r == Err(geocode(address).error)
    ensures geocode(address).Ok? ==> r.Ok? && r.value.address == address && r.value.coordinates == geocode(address).value
    ensures r.Ok? ==> |r.value.jurisdictions| == |Resolvable(db, pointInJurisdictions(geocode(address).value.0, geocode(address).value.1))|
    ensures r.Ok? ==> forall k :: 0 <= k < |r.value.jurisdictions| ==>
      r.value.jurisdictions[k].id == Resolvable(db, pointInJurisdictions(geocode(address).value.0, geocode(address).value.1))[k]
    ensures r.Ok? ==> EntitiesBelong(db, r.value.jurisdictions)
  {
    var (lat, lon) :- geocode(address);
    var ids := pointInJurisdictions(lat, lon);
    if |ids| == 0 then Ok(AddressLookupResponse(address, (lat, lon), []))
    else Ok(AddressLookupResponse(address, (lat, lon), Entries(db, ids)))
  }

  /**
   * The intended lookup lists a jurisdiction exactly when the query returns
   * its id and the jurisdiction is stored.
   */
  lemma {:induction false} LookupViaListsExactlyStoredMatches(db: Db, address: string, pointInJurisdictions: (real, real) -> seq<Value>, geocode: Geocode, x: Value)
    requires geocode(address).Ok?
    ensures var r := LookupRepresentativesVia(db, address, pointInJurisdictions, geocode);
      var ids := pointInJurisdictions(geocode(address).value.0, geocode(address).value.1);
      r.Ok? && ((exists k :: 0 <= k < |r.value.jurisdictions| && r.value.jurisdictions[k].id == x) <==> x in ids && HasId(JurisdictionsTable(db), x))
  {
    var r := LookupRepresentativesVia(db, address, pointInJurisdictions, geocode);
    var ids := pointInJurisdictions(geocode(address).value.0, geocode(address).value.1);
    var res := Resolvable(db, ids);
    if x in ids && HasId(JurisdictionsTable(db), x) {
      var k :| 0 <= k < |res| && res[k] == x;
      assert r.value.jurisdictions[k].id == x;
    }
    if exists k :: 0 <= k < |r.value.jurisdictions| && r.value.jurisdictions[k].id == x {
      var k :| 0 <= k < |r.value.jurisdictions| && r.value.jurisdictions[k].id == x;
      assert res[k] == x;
    }
  }
}
