/**
 * The geo provider a deployment is configured with, and the geocoder.
 * The abstract `GeoProvider` requires `districts_containing_point` and
 * `store_district_boundary`. `SQLiteGeoProvider` defines exactly those two.
 * `PostgresGeoProvider` defines neither (it has `point_in_jurisdictions`
 * and `store_jurisdiction_boundary` instead), so it cannot be instantiated:
 * the factory raises TypeError when the database provider is PostgreSQL.
 * A provider that exists is therefore always the SQLite one, and a call to
 * a method it does not define raises AttributeError.
 */
module GeoProvider {
  import opened Wrappers
  import opened PyJson
  import opened Models
  import opened GeoSqlite

  /** `SQLiteGeoProvider`, with what it needs from outside the program. */
  datatype Provider = SqliteGeo(loads: Loads, dumps: Dumps, contains: Contains)

  /** `geocode_address(address)`: `(lat, lon)` or the error it raises. */
  type Geocode = string -> Result<(real, real), Error>

  /** Instantiating `PostgresGeoProvider`: it leaves abstract methods undefined. */
  const AbstractPostgres: Error := TypeError("Can't instantiate abstract class PostgresGeoProvider")

  /** `settings.DATABASE_PROVIDER.lower() == "postgres"`. */
  predicate PostgresConfigured(databaseProvider: string) {
    Lower(databaseProvider) == "postgres"
  }

  /**
   * `get_geo_provider()` for the configured `DATABASE_PROVIDER`: "postgres",
   * in any case, fails; every other setting gives the SQLite provider.
   */
  function GetGeoProvider(databaseProvider: string, sqlite: Provider): (r: Result<Provider, Error>)
    ensures r.Err? <==> PostgresConfigured(databaseProvider)
    ensures r.Err? ==> r.error.TypeError?
    ensures r.Ok? ==> r.value == sqlite
  {
    if PostgresConfigured(databaseProvider) then Err(AbstractPostgres) else Ok(sqlite)
  }
}
