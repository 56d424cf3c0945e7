# open-advocacy backend core, modelled in Dafny

open-advocacy tracks where elected officials stand on advocacy projects. A
*project* belongs to a *group* and a *jurisdiction*. Each *entity* (an
alderperson, a state representative, a senator) sits in a *district* of a
jurisdiction and has one *status record* per project. The status scale runs
from `solid_approval` to `solid_disapproval`. The backend:

- aggregates those records into per-project status distributions and
  alignment counts;
- looks representatives up by address, through a geocoder and district
  boundaries;
- imports jurisdictions, districts and entities from GeoJSON files and the
  OpenStates API, through a configurable step orchestrator and per-location
  configurations (Chicago, Illinois);
- runs a handful of setup scripts that seed Chicago's city council and
  Illinois' legislature, their ward and chamber boundaries, and the ADU
  opt-in project.

The model keeps the program's structure: one Dafny module per source module.
Its fixed points:

- **Python values.** The dicts, lists and strings the Python code passes
  around are `PyJson.Value`: `Null`, `Bool`, `Int`, `Str`, `Arr`, `Obj` or
  `Uuid`. Python built-ins the code relies on (`dict.get`, truthiness,
  `str()`, `int()`, `lower()`, `split`) are written out once, in `PyJson`.
- **Tables.** A table of the SQLAlchemy-backed provider is a
  `SqlStore.Store`: a column schema plus a sequence of rows in storage order.
  `create`, `get`, `list`, `update`, `delete`, `filter` and `filter_multiple`
  are pure functions over it that return `Result` values. The error paths are
  modelled: missing ids, non-null violations, and the in-memory-only
  `filter_multiple`.
- **Outside the program.** What lies outside the program becomes a parameter:
  - fresh ids (`uuid4`), the clock and random draws;
  - the geocoder (an address to coordinates or an error);
  - polygon containment (`contains(geometry, point)`, `None` when shapely
    raises);
  - the JSON codec, password verification and JWT decoding;
  - what an HTTP server or a file read returns.
- **Scripts.** A setup script's session and provider are one record of the
  rows it reads and writes, together with the boundary GeoJSON stored per id.

Several behaviours of the code are easy to misread. The model follows the code in each of them:

- The tabular district import skips an item only when the code text is
  empty. The branch is reachable for an item whose code field is the empty
  string (`DistrictImporter`).
- `list_status_records` without filters returns only the first page of the
  table (default limit 100), not every record.
- `backend/app/models/pydantic/models.py` does not define ten classes that
  the services, routes, importers and scripts import from it:
  `StatusDistribution`, `EntityStatus`, `EntityStatusRecord`, `Jurisdiction`,
  `JurisdictionBase`, `District`, `DistrictBase`, `User`, `UserRole` and
  `UserCreate`. They are modelled from their uses. Where a use does not fix a
  value, the model assumes one and says so under "## Left out" (the role
  values, see `Models.ParseUserRole`).
- The classes that `backend/app/models/pydantic/models.py` does define
  (`ProjectBase`, `Project`, `EntityCreate`) lack fields that their callers
  read and set. The model takes those field sets from the ORM columns, and
  "## Left out" names each member where the code as written would fail.
- The district importer's created/updated counters are passed by value, so
  the summary it reports always counts 0.
- The PostGIS geo provider leaves the abstract `districts_containing_point`
  and `store_district_boundary` undefined, so it cannot be instantiated: under
  PostgreSQL the geo provider factory raises `TypeError`. Every member that
  takes a `GeoProvider.Provider` therefore models the SQLite provider.
- The SQLite geo provider has no `point_in_jurisdictions` and no
  `store_jurisdiction_boundary`. A call to either raises `AttributeError`, so
  the address lookup route never succeeds and the ward-jurisdiction script
  stops at its first ward (see Findings).
- `UserService` does not define `get_users_in_group`, `update_user_role` or
  `update_user_password`, which the user-administration routes call. A
  request that their permission rules let through ends in `AttributeError`
  (`AdminUsers`).

## Model

| member | source | states |
|---|---|---|
| SqlStore.IndexOfId | backend/app/db/sql.py:30 | the position of the first row with the id, and none exactly when no row has it |
| SqlStore.GetRow | backend/app/db/sql.py:27-33 | None exactly for a missing id; otherwise the stored row with that id |
| SqlStore.List | backend/app/db/sql.py:35-41 | the slice `[skip, skip+limit)` of the rows in storage order, cut at the end of the table |
| SqlStore.ListFirstPage | backend/app/db/sql.py:35 | the whole table when it has at most 100 rows, else its first 100 |
| SqlStore.CountIsNumberOfListedRows | backend/app/db/sql.py:43-48 | `count` is the number of rows: a page that large lists the whole table, and no page is longer |
| SqlStore.NewRow | backend/app/db/sql.py:50-64 | every column is present: the given value where the data names it, else the column default or NULL, and the generated id unless one is given |
| SqlStore.Create | backend/app/db/sql.py:50-64 | an unknown keyword or a NULL in a required column fails; otherwise exactly one row, built from the data, is appended |
| SqlStore.CreatePreservesValid | backend/app/db/sql.py:50-64 | a successful create keeps ids unique and rows complete, and adds one to the count |
| SqlStore.Patch | backend/app/db/sql.py:79-82 | fields the input names and the model has take the input's value; every other field keeps its value |
| SqlStore.Update | backend/app/db/sql.py:66-86 | None and no change for a missing id; otherwise the first row with the id is patched in place, keeping the row count, and the update succeeds exactly when the patched row has no NULL in a required column and its id is on no other row; a failure is an integrity error |
| SqlStore.UpdatePatchesAt | backend/app/db/sql.py:66-86 | a successful update replaces the first row with the id by its patch and changes no other row |
| SqlStore.UpdateThenGet | backend/app/db/sql.py:27-33 | after a successful update, `get` by the row's id, kept or rewritten, returns the patched row |
| SqlStore.UpdateChangesOnlyNamedFields | backend/app/db/sql.py:66-86 | a successful update touches one row, and within it only the fields the input names |
| SqlStore.Delete | backend/app/db/sql.py:88-97 | for a row no other row references: False and no change exactly for a missing id; otherwise one row fewer |
| SqlStore.DeleteRemovesExactlyThatRow | backend/app/db/sql.py:88-97 | afterwards no row has the id and every other row is kept |
| Database.DeleteIsRemovedOnce | backend/app/db/sql.py:88-97 | a delete that finds the id removes exactly the first row with it and keeps the others in order |
| Database.DeleteParent | backend/app/db/sql.py:88-97 | deleting a row that children reference through a NOT NULL foreign key (backend/app/models/orm/models.py:55, :88, :113 declare no cascade) fails with IntegrityError, and only then; a missing id is False with nothing changed; otherwise the first row with the id is removed |
| Database.DeleteParentRemovesExactlyThatRow | backend/app/db/sql.py:88-97 | with unique ids, a delete that goes through leaves no row with the id and keeps every other row |
| SqlStore.FilterRows | backend/app/db/sql.py:99-111 | exactly the rows matching every known filter field, in storage order |
| SqlStore.Filter | backend/app/db/sql.py:99-111 | exactly the matching rows, in storage order |
| SqlStore.FilterIgnoresUnknownFields | backend/app/db/sql.py:105-107 | filter fields the model lacks are ignored |
| SqlStore.FirstMatch | backend/app/db/sql.py:99-111 | the first matching row in storage order, none exactly when no row matches |
| SqlStore.FilterMultiple | backend/app/services/project_service.py:62-79 | the services call `filter_multiple(filters, in_filters)`, which the SQL provider does not define, so the call raises AttributeError there; on the in-memory provider, whose semantics are assumed, exactly the rows matching every equality filter and every IN filter |
| Models.ParseProjectStatus | backend/app/models/pydantic/models.py:7-11 | a parsed status has the given text as its value |
| Models.ProjectStatusEnumeration | backend/app/models/pydantic/models.py:7-11 | four members with distinct values, each parsed back from its value |
| Models.ParseUserRole | backend/app/api/routes/admin/users.py:54-58 | `UserRole(text)` succeeds exactly when the text is the value of some role, and then gives that role; any other text is the ValueError the route turns into 400 (the role values are assumed) |
| Models.UserRoleRoundTrip | backend/app/api/routes/admin/users.py:54 | every role is parsed back from its value (the role values are assumed) |
| Models.ClassifyMeaning | backend/app/scripts/chicago_city_council_setup.py:423-429 | a value naming one of the five statuses falls into its bucket, and into unknown exactly when it names none |
| Models.ZeroDistCountsNothing | backend/app/models/pydantic/models.py:39-56 | the default distribution has every counter at zero |
| Models.AddTo | backend/app/utils/status.py:16-27 | raising one counter adds to the bucket sum and keeps `total` |
| Models.AddToCount | backend/app/utils/status.py:16-27 | raising one counter leaves every other counter as it was |
| Aggregation.CountExplicit | backend/app/utils/status.py:8-29 | `total` is the number of records, the six buckets sum to it, and no records give the zero distribution |
| Aggregation.CountExplicitCountsEachBucket | backend/app/utils/status.py:14-27 | every bucket, neutral included, holds exactly the records whose status falls into it, and unrecognised values land in unknown |
| Aggregation.ExplicitCountsRepeatedEntity | backend/app/utils/status.py:14-15 | no deduplication: a second record for an entity adds one to `total` and to its bucket |
| Aggregation.Collapse | backend/app/services/project_service.py:260 | the dict has one key per distinct entity id of the records |
| Aggregation.CollapseLastRecordWins | backend/app/services/project_service.py:260 | an entity's status in the dict is that of its last record |
| Aggregation.Step | backend/app/services/project_service.py:263-280 | one loop iteration keeps `total` and the bucket sum |
| Aggregation.StepCount | backend/app/services/project_service.py:263-280 | neutral is a no-op; any other status moves one from neutral to its own bucket, unknown for values outside the five |
| Aggregation.WithNeutrals | backend/app/services/project_service.py:239-282 | `total` is the entity count and the buckets sum to it, whatever the records |
| Aggregation.WithNeutralsOfNoRecords | backend/app/services/project_service.py:253-257 | without records every entity is neutral |
| Aggregation.ApplyStatusesCounts | backend/app/services/project_service.py:262-280 | after the loop each non-neutral bucket has grown by the values falling into it, and neutral has shrunk by the non-neutral values |
| Aggregation.WithNeutralsCounts | backend/app/services/project_service.py:253-280 | each non-neutral bucket holds the distinct entities whose last status falls into it; neutral holds the entity count less the entities with a non-neutral last status |
| Aggregation.WithNeutralsDependsOnlyOnLastStatus | backend/app/services/project_service.py:260 | two record lists with the same last status per entity give the same distribution |
| Aggregation.WithNeutralsNonNegative | backend/app/services/project_service.py:253-280 | no bucket goes negative while the records name at most the entity count of distinct entities |
| Aggregation.CollapseSnocNewEntity | backend/app/services/project_service.py:260-263 | a record for a new entity appends its status to the dict's values |
| Aggregation.ExplicitNeutralIsNoOp | backend/app/services/project_service.py:264-265 | a first, explicitly neutral record for a new entity changes nothing |
| Aggregation.VariantsAgreeOnDistinctEntities | backend/app/utils/status.py:14-27 | with one record per entity the two variants agree on every non-neutral bucket, and differ in `total`: records for one, entities for the other |
| ProjectService.SelectRelevant | backend/app/services/project_service.py:180-186 | the fallback comprehension keeps exactly the records with this project_id whose entity_id is one of the jurisdiction's entities |
| ProjectService.ProjectStatusRecords | backend/app/services/project_service.py:174-186 | every record counted belongs to the project and to an entity of the jurisdiction, on the `filter_multiple` path and on the `list()` fallback, which sees only the first page |
| ProjectService.ProjectFor | backend/app/services/project_service.py:153-159 | a supplied project is used as is; otherwise the stored one, and none when the id is not stored |
| ProjectService.JurisdictionEntities | backend/app/services/project_service.py:161-165 | exactly the stored entities whose jurisdiction_id is the project's |
| ProjectService.Distribution | backend/app/services/project_service.py:139-190 | zero distribution for a missing project or a jurisdiction without entities; otherwise the buckets sum to `total` and `total` is the number of the jurisdiction's entities |
| ProjectService.DistributionNonNegative | backend/app/services/project_service.py:170-188 | the IN filter on entity ids keeps every bucket non-negative |
| ProjectService.CountedEntitiesWithinJurisdiction | backend/app/services/project_service.py:172-186 | the counted records name no more distinct entities than the jurisdiction has |
| ProjectService.RelevantRecordsNameListedEntities | backend/app/services/project_service.py:182-186 | every record the filter keeps names one of the listed entity ids |
| ProjectService.DistributionCountsEntities | backend/app/services/project_service.py:161-190 | the distribution equals counting each jurisdiction entity once, under the last status among its records, neutral when it has none |
| ProjectService.JurisdictionName | backend/app/services/project_service.py:39-45 | a name is set only from a found jurisdiction with a truthy name, and is set whenever one is found |
| ProjectService.GetProjectWithDetails | backend/app/services/project_service.py:33-52 | None exactly for a missing id; otherwise the stored project with its jurisdiction name and its implicit-neutral distribution |
| ProjectService.EnrichWithDistributions | backend/app/services/project_service.py:192-212 | the same projects in the same order (none for none), each with its distribution |
| ProjectService.EnrichWithJurisdictionName | backend/app/services/project_service.py:214-237 | the same projects in the same order; the name is set where the jurisdiction is found with a name and left alone elsewhere |
| ProjectService.ListProjects | backend/app/services/project_service.py:54-88 | fails on the SQL provider, which lacks `filter_multiple`; otherwise lists exactly the stored projects the filters select |
| ProjectService.ListProjectsHidesArchived | backend/app/services/project_service.py:64-72 | without a status filter no archived project is listed |
| ProjectService.ListedMeansFiltered | backend/app/services/project_service.py:62-75 | the filters built select exactly: the given status, or any status but archived, and the given group |
| ProjectService.ListProjectsIgnoresPagination | backend/app/services/project_service.py:77-81 | some filter is always present, so skip and limit never change the result |
| ProjectService.CheckRelations | backend/app/services/project_service.py:92-103 | "Group not found" exactly for a truthy group_id that is not stored; "Jurisdiction not found" for a missing jurisdiction once the group passed |
| ProjectService.CreateProject | backend/app/services/project_service.py:90-105 | a failed relation check is raised; otherwise exactly one new row, built from the data, is appended |
| ProjectService.TitleOnlyProjectIsDraftAndActive | backend/app/services/project_service.py:90-105 | a request naming only the title creates a draft, active project with the fresh id and no group or jurisdiction: the column defaults agree with `ProjectBase`'s |
| ProjectService.UpdateProject | backend/app/services/project_service.py:107-129 | a missing project gives None before the relations are checked; a failed check is raised; otherwise the first project with the id is patched in place and no other table changes |
| ProjectService.UpdateProjectThenGet | backend/app/services/project_service.py:107-129 | after a successful update, `get` by the project's id returns the patched row |
| ProjectService.DeleteProject | backend/app/services/project_service.py:131-137 | False and no change exactly for a missing id; IntegrityError exactly when status records reference the project; otherwise the first row with the id is removed, the other projects keep their order, and no other table changes |
| ProjectService.DeleteProjectRemovesIt | backend/app/services/project_service.py:131-137 | with unique project ids, a delete that goes through leaves no project with the id and keeps every other project |
| ProjectUtils.HelperProject | backend/app/utils/project.py:29-38 | a supplied project is used; otherwise the stored one when a projects provider is passed, and none when it is missing or no provider is passed |
| ProjectUtils.CountedRecords | backend/app/utils/project.py:40-62 | no records without a project; every counted record is stored and has this project_id |
| ProjectUtils.ExplicitDistribution | backend/app/utils/project.py:9-64 | zero distribution without a project; `total` is the number of counted records and the buckets sum to it |
| ProjectUtils.VariantTotals | backend/app/utils/project.py:64 | on the same project the service's `total` is the number of entities and the helper's the number of counted records |
| ProjectUtils.NoRecordsVariantsDiffer | backend/app/utils/project.py:47-64 | with no records the helper reports zero everywhere while the service reports every entity neutral |
| ProjectUtils.EnrichExplicit | backend/app/utils/project.py:67-94 | [] for no projects; otherwise the same projects in the same order, each with its explicit-only distribution |
| ProjectRoutes.RouteDistribution | backend/app/api/routes/projects.py:29-37 | `total` is the number of the project's records on the first page of `list()`, all of them when the table fits one page, and the buckets sum to it |
| ProjectRoutes.RouteListProjects | backend/app/api/routes/projects.py:13-39 | lists exactly the rows of the requested page with the requested status, each with its route distribution |
| ProjectRoutes.RouteListFiltersOnlyThePage | backend/app/api/routes/projects.py:21-24 | a project outside the requested page is never listed, whatever its status |
| ProjectRoutes.RouteGetProject | backend/app/api/routes/projects.py:50-67 | 404 exactly for a missing id; otherwise the stored project with its route distribution |
| ProjectRoutes.RouteCountsRecordsOutsideJurisdiction | backend/app/api/routes/projects.py:61-65 | a record of the project counts even when its entity is outside the project's jurisdiction |
| ProjectRoutes.RouteCreateProject | backend/app/api/routes/projects.py:42-47 | the project is appended as given, with no check on its group or jurisdiction |
| ProjectRoutes.RouteCreateSkipsRelationChecks | backend/app/api/routes/projects.py:42-47 | where the service refuses a missing group, the route stores the project anyway |
| ProjectRoutes.RouteUpdateProject | backend/app/api/routes/projects.py:70-81 | 404 for a missing id; otherwise the update goes through exactly when its patch leaves no NOT NULL column empty and takes no other row's id (else an integrity error); then the first project with the id is patched in place and every other table is unchanged, with no group or jurisdiction check |
| ProjectRoutes.RouteUpdateProjectThenGet | backend/app/api/routes/projects.py:70-81 | after the route's update, `get` by the project's id returns the patched project |
| ProjectRoutes.RouteDeleteProject | backend/app/api/routes/projects.py:84-93 | 404 for a missing id; IntegrityError when status records reference the project; it succeeds exactly otherwise, removing that row and changing no other table |
| StatusService.FirstWithPair | backend/app/services/status_service.py:60-64 | the position of the first row about the pair, no row before it is about the pair, and none exactly when no row is |
| StatusService.MissingReference | backend/app/services/status_service.py:48-56 | "Project not found" exactly for a missing project, checked before the entity; "Entity not found" exactly for a found project and a missing entity |
| StatusService.Upsert | backend/app/services/status_service.py:58-71 | with a first-page record about the pair, that record is updated and the record count is unchanged; otherwise exactly one record is created; nothing but the records changes |
| StatusService.CreateStatusRecord | backend/app/services/status_service.py:44-71 | a missing reference is raised as ValueError; otherwise the upsert |
| StatusService.PatchKeepsPair | backend/app/services/status_service.py:66-68 | updating a record with data about its own pair keeps the pair |
| StatusService.NewRecordHasDataPair | backend/app/services/status_service.py:71 | a created record is about the pair its data names |
| StatusService.UpsertKeepsPairsUnique | backend/app/services/status_service.py:58-71 | while the store fits on the first page, an upsert keeps at most one record per (entity, project) pair |
| StatusService.UpsertUpdateKeepsPairs | backend/app/services/status_service.py:66-68 | updating the matching record in place keeps the pairs unique |
| StatusService.UpsertUpdatesFirstMatch | backend/app/services/status_service.py:60-69 | the record updated is the first first-page record with the pair |
| StatusService.UpsertBeyondFirstPageDuplicates | backend/app/services/status_service.py:59 | when the only record of the pair lies beyond the first 100 rows, a second one is created |
| StatusService.ListStatusRecords | backend/app/services/status_service.py:18-38 | no ids give the first page of `list()`; otherwise exactly the records matching every given id, and an error on the SQL provider |
| StatusService.GetStatusRecord | backend/app/services/status_service.py:40-42 | None exactly for a missing id; otherwise the stored record with that id |
| StatusService.UpdateStatusRecord | backend/app/services/status_service.py:73-81 | None and no change for a missing id; otherwise the first record with the id is patched in place and no other table changes |
| StatusService.UpdateStatusRecordThenGet | backend/app/services/status_service.py:73-81 | after a successful update, `get` by the record's id returns the patched record |
| StatusService.DeleteStatusRecord | backend/app/services/status_service.py:83-89 | False and no change exactly for a missing id; otherwise the first record with the id is removed, the others kept in order, and every other table is unchanged |
| StatusService.DeleteStatusRecordThenGet | backend/app/services/status_service.py:83-89 | with unique ids, `get` by the id finds nothing after the delete and every other record is kept |
| Database.WithField | backend/app/api/routes/status.py:24-29 | exactly the rows whose column has the value; no row is added |
| Database.WithFieldAppend | backend/app/api/routes/projects.py:32-34 | filtering keeps order: the filter of a concatenation is the concatenation of the filters |
| StatusRoutes.RouteListStatusRecords | backend/app/api/routes/status.py:15-31 | exactly the first-page records matching the project id and then the entity id, each only when given |
| StatusRoutes.RouteCreateStatusRecord | backend/app/api/routes/status.py:34-64 | 404 for a missing project, then 404 for a missing entity; otherwise the same upsert as the service |
| StatusRoutes.RouteAndServiceUpsertAgree | backend/app/api/routes/status.py:41-64 | the route and the service succeed on the same inputs with the same result, and differ only in how a missing reference is reported |
| StatusRoutes.RouteGetStatusRecord | backend/app/api/routes/status.py:67-75 | 404 exactly for a missing id; otherwise the stored record |
| StatusRoutes.RouteUpdateStatusRecord | backend/app/api/routes/status.py:78-88 | 404 for a missing id; otherwise the first record with the id is patched in place and no other table changes |
| StatusRoutes.RouteDeleteStatusRecord | backend/app/api/routes/status.py:91-100 | 404 exactly for a missing id; otherwise True, the first record with the id removed, the others kept in order, and every other table unchanged |
| StatusRoutes.RouteDeleteStatusRecordRemovesIt | backend/app/api/routes/status.py:91-100 | with unique ids, no record with the id is left and every other record is kept |
| GeoSqlite.QueryPoint | backend/app/geo/sqlite.py:16 | the query point is built longitude first, latitude second |
| GeoSqlite.CheckFeaturesMatches | backend/app/geo/sqlite.py:34-39 | a FeatureCollection matches exactly when some feature contains the point and no earlier feature raised |
| GeoSqlite.NoExceptionMeansAnyHit | backend/app/geo/sqlite.py:34-39 | when no feature raises, the collection matches exactly when some feature with a geometry contains the point |
| GeoSqlite.CheckFeatureContainer | backend/app/geo/sqlite.py:34 | a `features` list is scanned; anything else never matches, and it raises unless it is an empty string or dict |
| GeoSqlite.CheckData | backend/app/geo/sqlite.py:33-48 | a non-dict raises; a Feature without a geometry never matches; a Feature with one is tested on it; anything that is not a collection or a Feature is tested as a geometry |
| GeoSqlite.CheckBoundary | backend/app/geo/sqlite.py:28-30 | a boundary stored as text is parsed first, and text that does not parse raises |
| GeoSqlite.DistrictsContainingPoint | backend/app/geo/sqlite.py:14-52 | an id is reported exactly when its district has a boundary that matches the point; one that raises is skipped |
| GeoSqlite.ContainingDistributesOverConcat | backend/app/geo/sqlite.py:26-50 | districts are checked independently and in order: the result over two runs of districts is the first result followed by the second |
| GeoSqlite.ContainingHasNoDuplicates | backend/app/geo/sqlite.py:26-48 | with distinct district ids, no id is reported twice |
| GeoSqlite.BoundaryText | backend/app/geo/sqlite.py:65-67 | a string boundary is stored as it is; anything else as its JSON text |
| GeoSqlite.StoreDistrictBoundary | backend/app/geo/sqlite.py:54-69 | False and no change for a missing district; otherwise True and that district's boundary is the stored text |
| GeoSqlite.StoredBoundaryChecksAsGiven | backend/app/geo/sqlite.py:28-30 | a stored boundary is later checked exactly as the value that was stored |
| GeoProvider.GetGeoProvider | backend/app/geo/provider_factory.py:8-18 | under a `DATABASE_PROVIDER` that lower-cases to "postgres" the factory raises TypeError, since `PostgresGeoProvider` leaves the abstract methods of backend/app/geo/base.py:12-22 undefined; any other setting gives the SQLite provider, and only then |
| EntityService.DistrictName | backend/app/services/entity_service.py:26-28 | the entity's district name is set exactly when its district is found, and it is that district's name |
| EntityService.WithDistrictNames | backend/app/services/entity_service.py:25-28 | every entity is kept, in order, each with its own district's name |
| EntityService.ListEntities | backend/app/services/entity_service.py:22-29 | exactly the entities of the jurisdiction, each with a name exactly when its district exists |
| EntityService.CreateEntity | backend/app/services/entity_service.py:31-38 | "Jurisdiction not found" when the jurisdiction is missing; otherwise one entity built from the data is appended |
| EntityService.UpdateEntity | backend/app/services/entity_service.py:44-52 | None and no change for a missing entity; otherwise the first entity with the id is patched in place and no other table changes |
| EntityService.UpdateEntityThenGet | backend/app/services/entity_service.py:44-52 | after a successful update, `get` by the entity's id returns the patched row |
| EntityService.DeleteEntity | backend/app/services/entity_service.py:54-60 | False and no change exactly for a missing entity; IntegrityError exactly when status records reference it; otherwise that row is removed and no other table changes |
| EntityService.LookupDistrictIds | backend/app/services/entity_service.py:69-73 | a geocoding error stops the lookup; otherwise the districts containing the geocoded point |
| EntityService.LookupEntitiesByAddress | backend/app/services/entity_service.py:62-86 | without a geo provider, "Geo provider is required for address lookup"; geocoding and district errors propagate; on success, exactly the entities in the districts found, each with its district name |
| LocationRoute.Resolvable | backend/app/api/routes/location.py:82-85 | exactly the returned ids whose jurisdiction exists, in the order returned |
| LocationRoute.Entry | backend/app/api/routes/location.py:83-98 | the entry carries the jurisdiction's id and lists exactly the stored entity rows whose `jurisdiction_id` is the looked-up id: each listed row has it, and no such row is missing |
| LocationRoute.Entries | backend/app/api/routes/location.py:80-99 | one entry per found jurisdiction, in the order the ids were returned, each listing exactly the entities of that jurisdiction: every listed entity is one of its rows, and every one of its rows is listed |
| LocationRoute.LookupRepresentatives | backend/app/api/routes/location.py:58-71 | no request succeeds: building the provider fails under PostgreSQL; otherwise a geocoding error propagates, and after a successful geocode the SQLite provider has no `point_in_jurisdictions` |
| LocationRoute.LookupRepresentativesVia | backend/app/api/routes/location.py:67-104 | with a working point-in-jurisdictions query: geocoding errors propagate; otherwise the response echoes the address and coordinates and has one entry per found jurisdiction, in order, each listing exactly that jurisdiction's entities: none from elsewhere and none of its own missing |
| LocationRoute.LookupViaListsExactlyStoredMatches | backend/app/api/routes/location.py:82-99 | a jurisdiction is listed exactly when the query returns its id and it is stored |
| DistrictService.ListDistricts | backend/app/services/district_service.py:20-26 | a truthy jurisdiction id gives exactly that jurisdiction's districts; otherwise the page `[skip, skip+limit)` in table order |
| DistrictService.CheckJurisdiction | backend/app/services/district_service.py:31-36 | the check fails exactly when a truthy jurisdiction id names no jurisdiction, and then with "Jurisdiction not found" |
| DistrictService.CreateDistrict | backend/app/services/district_service.py:28-38 | a failed jurisdiction check raises; otherwise one district built from the data is appended |
| DistrictService.UpdateDistrict | backend/app/services/district_service.py:40-52 | a failed jurisdiction check raises; otherwise the repository update decides, with no existence check before it |
| DistrictService.UpdateMissingDistrictIsNone | backend/app/services/district_service.py:40-52 | updating a missing district with a valid jurisdiction gives None and changes nothing |
| DistrictService.DeleteDistrict | backend/app/services/district_service.py:54-56 | False and no change exactly for a missing district; IntegrityError exactly when entities reference it; otherwise that row is removed and no other table changes |
| DistrictService.CodeFilterMeansCodeIn | backend/app/services/district_service.py:62-64 | the two-field filter matches exactly the districts with that code in that jurisdiction |
| DistrictService.FindDistrictByCode | backend/app/services/district_service.py:58-65 | the first district in table order with that code in that jurisdiction; None exactly when there is none |
| UserService.EmailFilterMeansHasEmail | backend/app/services/user_service.py:22 | the email filter matches exactly the users with that email |
| UserService.GetUserByEmail | backend/app/services/user_service.py:20-23 | the first user in table order with that email; None exactly when there is none |
| UserService.AuthenticateUser | backend/app/services/user_service.py:25-34 | a user is returned exactly when one has the email and the password verifies against that user's hash |
| UserService.UserData | backend/app/services/user_service.py:49-50 | the stored data has no plain password, has the hash of the given password, and keeps the email |
| UserService.CreateUser | backend/app/services/user_service.py:36-52 | "Group not found" first, then "Email already registered"; otherwise one user is appended, with the hash and not the password |
| UserService.CreateUserKeepsEmailsUnique | backend/app/services/user_service.py:43-46 | a successful create keeps emails unique |
| UserService.UpdateLastLogin | backend/app/services/user_service.py:54-56 | a missing user changes nothing; otherwise the users table keeps its size |
| UserService.UpdateLastLoginChangesOnlyLastLogin | backend/app/services/user_service.py:54-56 | every column except `last_login`, of every user, keeps its value |
| Auth.HasRoleMeansRoleOf | backend/app/core/auth.py:74 | a role test holds exactly when the user's role parses to that role |
| Auth.GetCurrentUser | backend/app/core/auth.py:41-60 | a token that does not decode or has no `sub` gives the credentials error; a returned user is stored, active, and has the id the token names |
| Auth.CurrentUserOfValidToken | backend/app/core/auth.py:41-60 | a decodable token whose `sub` names an active user yields that user |
| Auth.ActiveUser | backend/app/core/auth.py:64-70 | passes exactly the active users, unchanged; anyone else gets 403 "Inactive user" |
| Auth.ActiveUserAfterCurrentUser | backend/app/core/auth.py:58-70 | the 403 "Inactive user" never fires behind `get_current_user` |
| Auth.GroupAdminUser | backend/app/core/auth.py:73-79 | passes exactly the active super admins and group admins; others get a 403 |
| Auth.SuperAdminUser | backend/app/core/auth.py:82-88 | passes exactly the active super admins; others get a 403 |
| Auth.EditorUser | backend/app/core/auth.py:91-101 | passes exactly the active super admins, group admins and editors; others get a 403 |
| Auth.GatesNest | backend/app/core/auth.py:73-101 | the gates nest: super admin implies group admin implies editor; a viewer passes none; a group admin is not a super admin; an editor is not a group admin |
| AdminUsers.ListAccess | backend/app/api/routes/admin/users.py:24-37 | the group-admin gate's error propagates; access is granted only to a user who passed it |
| AdminUsers.ListAccessRule | backend/app/api/routes/admin/users.py:31-37 | a super admin may list any group; a group admin exactly their own |
| AdminUsers.RoleChangeAccess | backend/app/api/routes/admin/users.py:44-99 | the gate first, then an invalid role (400), then a missing user (404); a granted change names a stored user with that id and the parsed role |
| AdminUsers.PasswordChangeAccess | backend/app/api/routes/admin/users.py:106-144 | the gate first, then a missing user (404); a granted change names a stored user with that id |
| AdminUsers.SuperAdminRule | backend/app/api/routes/admin/users.py:72-80 | a super admin may change anyone's role or password except another super admin's |
| AdminUsers.GroupAdminRule | backend/app/api/routes/admin/users.py:81-99 | a group admin may change only users of their own group, never a super admin, never grant super admin, and never their own role; their own password they may change |
| AdminUsers.GroupAdminOnThemself | backend/app/api/routes/admin/users.py:95-99 | a group admin acting on themself has the role change refused and the password change allowed |
| AdminUsers.ListUsersInGroup | backend/app/api/routes/admin/users.py:24-41 | no listing succeeds: a refusal is the access error, and a granted request calls `get_users_in_group`, which `UserService` does not define |
| AdminUsers.UpdateUserRole | backend/app/api/routes/admin/users.py:44-103 | no role change succeeds: a refusal is the access error, and a granted change calls `update_user_role`, which `UserService` does not define |
| AdminUsers.UpdateUserPassword | backend/app/api/routes/admin/users.py:106-148 | no password change succeeds: a refusal is the access error, and a granted change calls `update_user_password`, which `UserService` does not define |
| JurisdictionImporter.FirstNamed | backend/app/imports/importers/jurisdiction_importer.py:23-25 | the first row in order with that name; none exactly when no row has it |
| JurisdictionImporter.JurisdictionIdByName | backend/app/imports/importers/entity_importer.py:27-35 | succeeds exactly when a jurisdiction on the first listed page has that name, giving that jurisdiction's id; otherwise "Jurisdiction not found with name: …" |
| JurisdictionImporter.ImportJurisdiction | backend/app/imports/importers/jurisdiction_importer.py:15-44 | an existing id is updated in place; a creation appends exactly one jurisdiction; an update keeps the row count |
| JurisdictionImporter.JurisdictionData | backend/app/imports/importers/jurisdiction_importer.py:19 | the request carries exactly name, description and level |
| JurisdictionImporter.ImportJurisdictionRule | backend/app/imports/importers/jurisdiction_importer.py:27-44 | the import updates exactly when a truthy id exists, or, with no id, when a listed jurisdiction has the name; a given id that does not exist is created whatever the names |
| JurisdictionImporter.ImportJurisdictionUpdatesFirstNamed | backend/app/imports/importers/jurisdiction_importer.py:35-40 | without an id, the row updated is the first listed one with that name, patched with the new fields |
| JurisdictionImporter.ValidateJurisdictionImport | backend/app/imports/importers/jurisdiction_importer.py:46-49 | valid exactly when name, description and level are all given |
| EntityImporter.ExtractPath | backend/app/imports/importers/entity_importer.py:183-192 | `get` on a value that is not a dict raises; a spec without a dot is a plain `get` |
| EntityImporter.ExtractValue | backend/app/imports/importers/entity_importer.py:156-192 | a None spec gives None; a string spec is a path |
| EntityImporter.ExtractListMeaning | backend/app/imports/importers/entity_importer.py:176-181 | a list spec gives the value of the first spec whose value is truthy, or None when there is none; an error on the way ends the scan |
| EntityImporter.ExtractListFallback | backend/app/imports/importers/entity_importer.py:176-181 | a two-spec list is a fallback: the first truthy value decides, else the second, else None |
| EntityImporter.DottedPathStopsAtNonDict | backend/app/imports/importers/entity_importer.py:184-189 | a dotted path whose first segment is not a truthy dict gives None |
| EntityImporter.DottedPathDescends | backend/app/imports/importers/entity_importer.py:184-188 | a dotted path into a truthy dict is the rest of the path on that dict |
| EntityImporter.OptionalData | backend/app/imports/importers/entity_importer.py:112-116 | only email, phone, website and address appear, each only when the mapping names it and its value is truthy |
| EntityImporter.BaseData | backend/app/imports/importers/entity_importer.py:92-109 | the name and jurisdiction are set; a district id is set exactly when a truthy code finds a district in that jurisdiction |
| EntityImporter.ImportItem | backend/app/imports/importers/entity_importer.py:80-146 | a falsy name counts an error and changes nothing; a named item updates its namesake in the jurisdiction when there is one, else one entity is appended |
| EntityImporter.ImportItems | backend/app/imports/importers/entity_importer.py:80-146 | created, updated and errors add up to the number of items; the entity list holds one entry per create or update; the table grows by the creates |
| PyJson.Iterate | backend/app/imports/importers/entity_importer.py:80 | `for item in` a list gives its elements, a string one item per character, a dict one string item per key; any other value is not iterable |
| EntityImporter.ActualItems | backend/app/imports/importers/entity_importer.py:64-80 | with a truthy data key, data must be a dict holding that key, else "Invalid data format"; the selected value (or the data itself) is iterated, and a value that cannot be iterated raises TypeError |
| EntityImporter.ImportEntities | backend/app/imports/importers/entity_importer.py:37-154 | a missing jurisdiction or a bad data shape raises; otherwise every item is counted once and the entity list matches the creates and updates; a mapping that is not a dict changes nothing and counts every item as an error |
| EntityImporter.ExtractIgnoresNonDict | backend/app/imports/importers/entity_importer.py:172-192 | on data that is not a dict every field spec gives the same outcome, `None` or an error |
| EntityImporter.NonDictItemsAreAlike | backend/app/imports/importers/entity_importer.py:80-146 | an item that is not a dict is counted as an error without a write, or the handler's `item.get` raises AttributeError; which such item it is makes no difference |
| EntityImporter.NonDictItemsChangeNothing | backend/app/imports/importers/entity_importer.py:80-146 | iterating a string or a dict's keys creates and updates nothing: every item is an error, or the loop stops with AttributeError |
| EntityImporter.UnusableMappingFailsEveryItem | backend/app/imports/importers/entity_importer.py:84-146 | with a mapping that is not a dict, `mapping.get` fails inside the `try`: every dict item is counted as an error, and the first other item ends the import with AttributeError |
| EntityImporter.ValidateEntityImport | backend/app/imports/importers/entity_importer.py:194-199 | valid exactly when the four required keys are given, and `data` too when `data_key` is |
| DistrictImporter.LastWith | backend/app/imports/importers/district_importer.py:140 | the code-keyed dict keeps the last row with a code; none exactly when no row has it |
| DistrictImporter.FormatWithoutBraces | backend/app/imports/importers/district_importer.py:153 | a format without braces is returned as it is |
| DistrictImporter.FormatLiteralPrefix | backend/app/imports/importers/district_importer.py:153 | brace-free text before the rest of the format passes through unchanged, and errors come from the rest |
| DistrictImporter.DefaultNameFormat | backend/app/imports/importers/district_importer.py:48 | the default format names a district "District " followed by its code |
| DistrictImporter.CodeTextEmptyOnlyForEmptyString | backend/app/imports/importers/district_importer.py:146-150 | the code text is empty only for an empty string, so the skip is reached only then |
| DistrictImporter.TabularData | backend/app/imports/importers/district_importer.py:159-170 | the data holds the formatted name, the code and the jurisdiction, and a description exactly when the row has one |
| DistrictImporter.TabularItem | backend/app/imports/importers/district_importer.py:143-191 | a dict row never ends the loop, and an empty code skips it; a row that is not a dict makes the handler's own `item.get` raise |
| DistrictImporter.TabularItems | backend/app/imports/importers/district_importer.py:143-191 | at most one district per row is created, and the loop finishes whenever every row is a dict |
| DistrictImporter.ImportTabular | backend/app/imports/importers/district_importer.py:126-191 | a list runs the row loop against the districts that existed before it; any other truthy value raises |
| DistrictImporter.MatchExisting | backend/app/imports/importers/district_importer.py:249-251 | a match is by name first, then by code, among the districts that existed before the loop; none exactly when neither matches |
| DistrictImporter.GeoFeature | backend/app/imports/importers/district_importer.py:226-290 | a feature without a truthy number, or with a name already processed, changes nothing; otherwise its name is recorded and at most one district is created |
| DistrictImporter.FeatureName | backend/app/imports/importers/district_importer.py:229-238 | a feature leads to a name exactly when its properties and number can be read and the number is truthy, and the name is the prefix followed by the number |
| DistrictImporter.GeoFeatures | backend/app/imports/importers/district_importer.py:226-290 | processed names stay distinct, and no more districts are created than names processed |
| DistrictImporter.NamesDistrictSnoc | backend/app/imports/importers/district_importer.py:226 | an appended feature adds exactly its own name to those the list names |
| DistrictImporter.GeoFeatureAddsItsName | backend/app/imports/importers/district_importer.py:241-246 | one feature adds its own name, if it has one, to the processed names and nothing else |
| DistrictImporter.GeoFeaturesProcessesEveryName | backend/app/imports/importers/district_importer.py:223-246 | the processed names after the loop are exactly the starting ones plus the name of every feature with a readable, truthy number |
| DistrictImporter.ImportGeoJson | backend/app/imports/importers/district_importer.py:193-290 | anything but a FeatureCollection raises "Invalid GeoJSON: Expected a FeatureCollection"; falsy features change nothing |
| DistrictImporter.Route | backend/app/imports/importers/district_importer.py:79-81 | a FeatureCollection given as `data` moves to `geojson_data` |
| DistrictImporter.GeoJsonStep | backend/app/imports/importers/district_importer.py:99-105 | GeoJSON text that does not parse raises "Invalid GeoJSON string format" |
| DistrictImporter.ImportDistricts | backend/app/imports/importers/district_importer.py:43-124 | a missing jurisdiction raises; the counters are passed to the helpers by value, so the result reports zero created, updated and errors, while `total` is the number of districts the helpers appended to the shared list; with neither data nor GeoJSON the database is unchanged and the result empty |
| DistrictImporter.FeatureCollectionDataIsRerouted | backend/app/imports/importers/district_importer.py:79-81 | a FeatureCollection passed as `data` is imported exactly as if passed as `geojson_data` |
| DistrictImporter.ValidateDistrictImport | backend/app/imports/importers/district_importer.py:292-298 | valid exactly when a jurisdiction name is given |
| Orchestrator.StepNames | backend/scripts/import_data.py:260 | one name per step, in step order |
| Orchestrator.KeyIndex | backend/app/imports/orchestrator.py:19 | the place of a key in the registry, which is a dict kept in insertion order; none exactly when the key is absent |
| Orchestrator.SameKeysSameIndex | backend/app/imports/orchestrator.py:19 | registries with the same keys in the same places find every key in the same place |
| Orchestrator.AppendedKeyIndex | backend/app/imports/orchestrator.py:19 | appending a new key finds it last and leaves every other key where it was |
| Orchestrator.RegisterLocation | backend/app/imports/orchestrator.py:15-19 | the key now maps to the class and every other key keeps its class; a new key is appended, an existing key keeps its place; distinct keys stay distinct |
| Orchestrator.AvailableLocations | backend/app/imports/orchestrator.py:154-167 | one entry per registered key, in registration order, with that location's name, description and step count; a failing constructor propagates |
| Orchestrator.Lookup | backend/app/imports/orchestrator.py:43 | a keyword argument is found exactly when it was passed, and then it has its passed value |
| Orchestrator.OverrideOfPlainStepName | backend/app/imports/orchestrator.py:110-114 | for a step name without dots, the key "name.param" overrides `param` |
| Orchestrator.OverrideOfDottedStepName | backend/app/imports/orchestrator.py:110-114 | for a step name with a dot, the parameter is whatever follows the first dot, so "a.b" with the key "a.b.c" overrides "b.c", not "c" |
| Orchestrator.ApplyOverrides | backend/app/imports/orchestrator.py:110-114 | "skip" is never set by an override: it is in the merged config exactly when in the step's, with the same value |
| Orchestrator.OverridesKeepTheRest | backend/app/imports/orchestrator.py:110-114 | parameters nobody overrides keep their values, and no parameter appears that neither the config nor an override names |
| Orchestrator.LastOverrideWins | backend/app/imports/orchestrator.py:110-114 | the last override of a parameter gives its value |
| Orchestrator.RunStep | backend/app/imports/orchestrator.py:38-144 | a skipped step has no entry; otherwise exactly one entry named after the step, which is an error unless the importer and data source resolve, the fetch succeeds, validation passes and the import succeeds; a failed validation changes nothing |
| Orchestrator.NonSkipped | backend/app/imports/orchestrator.py:42-45 | the steps that are not skipped, in order |
| Orchestrator.RunSteps | backend/app/imports/orchestrator.py:37-144 | one entry per non-skipped step, named after it, in step order |
| Orchestrator.SuccessesPlusFailures | backend/app/imports/orchestrator.py:149-150 | every entry is either a success or an error |
| Orchestrator.Summarize | backend/app/imports/orchestrator.py:146-152 | the summary names the location; `steps_total` counts every step; successes plus failures equal the number of results, which equals the number of non-skipped steps |
| Orchestrator.RouteData | backend/app/imports/orchestrator.py:94-107 | a FeatureCollection for the district importer goes to `geojson_data`, other truthy data to `data`; nothing else in the copied config changes |
| Orchestrator.ImportLocation | backend/app/imports/orchestrator.py:21-152 | "Unknown location: …" for an unregistered key; a failing constructor propagates; otherwise the summary of the step loop |
| Orchestrator.SkippingEveryStepRunsNothing | backend/app/imports/orchestrator.py:42-45 | a skip flag for every step makes the whole import a no-op with no results |
| ImportData.RunnerRoute | backend/scripts/import_data.py:182-193 | a `geojson_data` flag that is exactly True is set to the data and then deleted, so nothing reaches the importer under that key; otherwise data that is not None goes to `data`; nothing else changes |
| ImportData.DryRunResult | backend/scripts/import_data.py:84-115 | the mock result is chosen by the first of "jurisdiction", "district" and "entity" found in the importer key |
| ImportData.DryRunWiring | backend/scripts/import_data.py:53-122 | in dry-run mode every importer keeps its validation, and its import returns the mock result without touching the store |
| ImportData.ReadOnlyStep | backend/scripts/import_data.py:126-230 | a step never changes the store when no importer does |
| ImportData.ReadOnlySteps | backend/scripts/import_data.py:126-230 | the step loop never changes the store when no importer does |
| ImportData.RunnerImportLocation | backend/scripts/import_data.py:27-239 | an unknown key and a failing constructor raise as in the orchestrator; the summary reports the dry-run flag; in dry-run mode the store is left as it was |
| ImportData.SkipFlags | backend/scripts/import_data.py:264-269 | no flags when no step is asked for; at most one flag per step |
| ImportData.SkipFlagsLookup | backend/scripts/import_data.py:264-269 | a step's skip flag is set, to True, exactly for listed steps that were not asked for |
| ImportData.SelectedStepsRun | backend/scripts/import_data.py:264-274 | with a non-empty selection a named step is skipped exactly when it was not selected; with none, no step is skipped |
| ImportData.TestImport | backend/scripts/import_data.py:242-275 | only "chicago" and "illinois" are known; a failing constructor is reported; a run reports the dry-run flag and, in dry-run mode, leaves the store as it was |
| Locations.Arg | backend/app/imports/importers/jurisdiction_importer.py:15-17 | a required keyword argument is found exactly when present; otherwise the TypeError for a missing argument |
| Locations.StrArg | backend/app/imports/importers/district_importer.py:48-51 | an absent optional string takes its default; a given string is used as is |
| Locations.Lift | backend/app/imports/orchestrator.py:117-144 | an importer that raises leaves the store as it was and yields the error |
| Locations.RunJurisdiction | backend/app/imports/importers/jurisdiction_importer.py:15-44 | succeeds only with name, description and level given, and then reports "created" or "updated"; a missing one is a TypeError |
| Locations.DistrictOptions | backend/app/imports/importers/district_importer.py:48-51 | a config without options takes the defaults "District {code}" and "district_number" and empty property and prefix |
| Locations.RunDistricts | backend/app/imports/importers/district_importer.py:43-124 | a config without `jurisdiction_name` is a TypeError; success yields the importer's result dict; the mapping is passed on as given |
| Locations.EntitiesReport | backend/app/imports/importers/entity_importer.py:148-154 | the result dict has exactly the five keys, and the total is the number of entities listed, created plus updated |
| Locations.DistrictsReport | backend/app/imports/importers/district_importer.py:118-124 | the result dict has exactly the five keys, with the counters of the run and the total equal to the number of districts listed |
| Locations.RunEntities | backend/app/imports/importers/entity_importer.py:37-154 | a config missing data, jurisdiction name, entity type, title or mapping is a TypeError; success yields the importer's result dict; the mapping is passed on as given |
| Locations.Importers | backend/app/imports/locations/chicago.py:90-99 | both locations offer exactly the jurisdiction, district and entity importers |
| Locations.KeysWithinResolve | backend/app/imports/orchestrator.py:50-79 | steps whose importer and data source keys are among a wiring's keys resolve in it |
| Locations.ResolvedStepsNeverFailOnKeys | backend/app/imports/orchestrator.py:50-79 | a step of a resolving location never fails for an unknown importer or data source |
| Locations.DataPath | backend/app/imports/locations/chicago.py:29-32 | the file under the configured data directory, or under "data" when none is set |
| Locations.PathOr | backend/app/imports/locations/chicago.py:30-32 | a non-empty given path wins over the default path, and the result is never empty |
| Locations.GeoJsonFile | backend/app/imports/sources/geojson.py:38-53 | a fetched file is what was read, and it passes the GeoJSON validation |
| Locations.Chicago | backend/app/imports/locations/chicago.py:19-104 | the Chicago steps, the three importers, and exactly the alderperson and wards sources, the wards read from the configured path |
| Locations.ChicagoStepOrder | backend/app/imports/locations/chicago.py:43-82 | three steps in order: the council, the wards, the alderpersons, with the jurisdiction, district and entity importers |
| Locations.ChicagoResolves | backend/app/imports/locations/chicago.py:43-104 | every Chicago step's importer and data source resolve |
| Locations.ChicagoKeys | backend/app/imports/locations/chicago.py:43-104 | the Chicago step keys lie within the offered importer and source keys |
| Locations.ChicagoCrossReferences | backend/app/imports/locations/chicago.py:43-82 | the wards and alderperson steps name the council that the first step creates |
| Locations.ChicagoValidates | backend/app/imports/locations/chicago.py:43-82 | every Chicago step passes its importer's validation once `data` is added |
| Locations.ChicagoWardOptions | backend/app/imports/locations/chicago.py:58-62 | the ward step reads the "ward" property and prefixes "Ward ", with the default format and code field |
| Locations.ChicagoPhoneFallback | backend/app/imports/locations/chicago.py:76 | an alderperson's phone is the ward phone when that is truthy, else the city-hall phone |
| Locations.ChicagoWebsiteIsNested | backend/app/imports/locations/chicago.py:77 | an alderperson's website is the `url` inside a truthy `website` dict, and None otherwise |
| Locations.ChicagoDefaultPath | backend/app/imports/locations/chicago.py:29-32 | with no path given, the wards file is `chicago-wards.geojson` under the data directory |
| Locations.IllinoisApiKey | backend/app/imports/locations/illinois.py:22-30 | fails with "OpenStates API key is required" exactly when neither the given nor the configured key is non-empty; otherwise the given key wins over the configured one |
| Locations.Illinois | backend/app/imports/locations/illinois.py:31-155 | the six steps, the three importers and exactly the legislators, house and senate sources, the boundary files read from the given paths or the 2021 defaults |
| Locations.IllinoisLocation | backend/app/imports/locations/illinois.py:130-155 | the six steps and the three importers over exactly the legislators, house and senate sources given |
| Locations.IllinoisResolves | backend/app/imports/locations/illinois.py:50-155 | every Illinois step's importer and data source resolve |
| Locations.IllinoisKeys | backend/app/imports/locations/illinois.py:50-155 | the step keys lie within the offered importer and source keys |
| Locations.IllinoisCrossReferences | backend/app/imports/locations/illinois.py:50-128 | six steps; each district and legislator step names a chamber that an earlier step creates |
| Locations.IllinoisValidates | backend/app/imports/locations/illinois.py:50-128 | every Illinois step passes its importer's validation once `data` is added |
| Locations.IllinoisLegislatorStepsNeedData | backend/app/imports/locations/illinois.py:90-127 | the legislator steps carry `data_key`, so without data their validation fails |
| Locations.IllinoisDataKeysMatchSource | backend/app/imports/locations/illinois.py:95-114 | the "house" and "senate" data keys select lists in whatever the OpenStates source returns |
| Locations.IllinoisDataKeys | backend/app/imports/locations/illinois.py:95-114 | the legislator steps select the "house" and "senate" keys |
| Locations.PathPairThroughNonDict | backend/app/imports/importers/entity_importer.py:176-189 | two dotted paths through the same non-dict value both give None, and so does the list of them |
| Locations.IllinoisContactPathsNeverResolve | backend/app/imports/locations/illinois.py:103-105 | offices and links are lists and paths descend only into dicts, so an Illinois legislator's phone, website and address always come out None |
| OpenStatesSource.NewSource | backend/app/imports/sources/openstates.py:14-37 | the state code is lower-cased, the endpoints hang off the base URL, an empty field list falls back to the default five, and nothing is cached yet |
| OpenStatesSource.NewIllinoisSource | backend/app/imports/sources/openstates.py:190-208 | state "il", the Illinois OCD jurisdiction, and nothing cached |
| OpenStatesSource.ChamberOf | backend/app/imports/sources/openstates.py:102-106 | "lower" is the house, "upper" the senate, anything else neither; a legislator or role that is not a dict raises |
| OpenStatesSource.SortPage | backend/app/imports/sources/openstates.py:101-106 | each legislator of a page is appended to its chamber's list or dropped, in order; what was gathered before is kept; without an exception every house and senate legislator lands in its list |
| OpenStatesSource.PageStep | backend/app/imports/sources/openstates.py:82-116 | an exception stops without caching; a non-200 status stops and caches; only a 200 reply with a dict body can go on to the next page; the lists stay sorted by chamber |
| OpenStatesSource.Pages | backend/app/imports/sources/openstates.py:79-116 | for any server whose loop stops by some page (a final reply, `page >= max_page` or an exception), every house entry gathered is a house legislator and every senate entry a senate legislator |
| OpenStatesSource.FinalReplyStops | backend/app/imports/sources/openstates.py:87-98 | a non-200 reply, an exception or an empty results page at page `last` stops the loop by then, whatever was gathered |
| OpenStatesSource.SortPageSucceeds | backend/app/imports/sources/openstates.py:101-106 | a page none of whose legislators raises is sorted without an error |
| OpenStatesSource.MaxPageEndsTheLoop | backend/app/imports/sources/openstates.py:111-116 | with full pages from `page` to `max_page`, the loop stops at `max_page` even though no reply is final |
| OpenStatesSource.FetchData | backend/app/imports/sources/openstates.py:45-129 | a cached value is returned as is; otherwise a dict of exactly "house" and "senate" lists, sorted by chamber, and the cache is either left empty or set to that value |
| OpenStatesSource.SecondFetchIsCached | backend/app/imports/sources/openstates.py:53-55 | a second fetch after a cached first one returns the same value without asking any server |
| OpenStatesSource.FirstPageFailure | backend/app/imports/sources/openstates.py:87-92 | a failing first page gives empty lists, cached after a non-200 status and not cached after an exception |
| OpenStatesSource.FetchByLocation | backend/app/imports/sources/openstates.py:131-178 | an empty list on a non-200 status, an exception, or a body that is not a dict; otherwise `results` when it has a length, and an empty list when `len(results)` raises |
| OpenStatesSource.FetchByLocationIsAList | backend/app/imports/sources/openstates.py:131-178 | the documented list of legislators: the result is a list unless the reply's `results` is a string or a dict, returned as it is; a list in `results` comes back whole, and a reply without `results` gives an empty list |
| OpenStatesSource.SourceInfo | backend/app/imports/sources/openstates.py:180-187 | exactly name, url, type and description, the name built from the upper-cased state code |
| GeoJsonSource.NewSource | backend/app/imports/sources/geojson.py:16-36 | "Either file_path or url must be provided" exactly when neither is non-empty |
| GeoJsonSource.Validate | backend/app/imports/sources/geojson.py:126-135 | passes exactly a FeatureCollection dict with a `features` list, and otherwise raises the first failing check's message |
| GeoJsonSource.Wrap | backend/app/imports/sources/geojson.py:52-53 | a failure becomes an Exception whose message is the prefix followed by the original error's text |
| GeoJsonSource.StreamDownload | backend/app/imports/sources/geojson.py:80-124 | every failure, a bad status included, comes out as "Error streaming GeoJSON file: …" |
| GeoJsonSource.DownloadFromUrl | backend/app/imports/sources/geojson.py:55-78 | a failed HEAD gives "Failed to access URL: …"; an unparseable length is a ValueError; a length above the threshold streams; a failed GET gives "Failed to download from URL: …" |
| GeoJsonSource.ReadAndValidate | backend/app/imports/sources/geojson.py:47-51 | succeeds exactly when the file reads and validates, with the document as read |
| GeoJsonSource.FetchData | backend/app/imports/sources/geojson.py:38-53 | a given path is read and validated, with any failure wrapped as "Error reading GeoJSON file: …"; otherwise the URL is downloaded |
| GeoJsonSource.FetchedDataIsFeatureCollection | backend/app/imports/sources/geojson.py:38-135 | whatever a fetch returns is a FeatureCollection with a `features` list |
| GeoJsonSource.DirectDownloadErrorsAreUnwrapped | backend/app/imports/sources/geojson.py:70-78 | a download at or below the threshold never goes through a temporary file, so validation errors surface as raised |
| GeoJsonSource.SourceInfo | backend/app/imports/sources/geojson.py:137-149 | exactly name, source, type and description; the source names the file when there is a path, else the URL |
| LocationModules.BuildEntity | backend/app/models/pydantic/models.py:62-87 | `Entity(...)` validates exactly when `jurisdiction_id` is a string, else a ValueError; the flat contact keywords are ignored and `contact_info` stays empty |
| LocationModules.MockArgs | backend/app/services/location/default.py:15-44 | the three officials' keywords, one per entity type in order, each with its own jurisdiction id |
| LocationModules.BuildAll | backend/app/services/location/default.py:14-45 | the list is built exactly when every jurisdiction id is a string; otherwise the validation error of the first bad one |
| LocationModules.FindRepresentatives | backend/app/services/location/default.py:11-45 | as written: succeeds exactly when the `uuid4()` jurisdiction ids were strings, which they are not; otherwise the validation error |
| LocationModules.FindRepresentativesAlwaysRaises | backend/app/services/location/default.py:15-24 | for every address the method raises the validation error of the first `Entity(...)` call |
| LocationModules.StringIdsStillLoseContact | backend/app/models/pydantic/models.py:62-87 | even with string ids, every built entity has an empty `contact_info` |
| LocationModules.IntendedRepresentatives | backend/app/services/location/default.py:11-45 | the intended result: the three officials from the keywords, each with its string jurisdiction id and its email, phone, website and address nested as contact info |
| LocationModules.RepresentativesIgnoreAddress | backend/app/services/location/default.py:11-45 | the intended officials do not depend on the address, use each entity type once, have every contact field set, and apart from the contact are what validation builds from the same keywords |
| LocationModules.JurisdictionBoundaries | backend/app/services/location/default.py:47-69 | one feature named "Default Jurisdiction" whose rings are closed |
| LocationModules.ValidateAddress | backend/app/services/location/default.py:75-77 | an address is accepted exactly when it is not empty |
| LocationModules.RegisterModule | backend/app/services/location/factory.py:11-13 | the id is added or overwritten and every other entry is kept |
| LocationModules.GetModule | backend/app/services/location/factory.py:16-19 | the registered class, or the default module for an unknown id |
| LocationModules.ListModules | backend/app/services/location/factory.py:22-24 | each registered id with its class name, and no other id |
| LocationModules.RegisterThenGet | backend/app/services/location/factory.py:11-24 | after registering, the id yields the new class and every other id what it did before |
| LocationModules.InitiallyOnlyDefault | backend/app/services/location/factory.py:6-8 | at start only "default" is registered, and every id yields the default module |
| ChicagoSetup.PhoneOf | backend/app/scripts/chicago_city_council_setup.py:207-209 | the ward phone when it is non-empty, else the city-hall phone |
| ChicagoSetup.WebsiteOf | backend/app/scripts/chicago_city_council_setup.py:222-224 | a website is set only from the `url` of a `website` dict |
| ChicagoSetup.AddressOf | backend/app/scripts/chicago_city_council_setup.py:212-220 | the ward address with its zipcode when the ward address is non-empty, else the city-hall address with its zipcode |
| ChicagoSetup.WardNames | backend/app/scripts/chicago_city_council_setup.py:186-187 | one "Ward {ward}" name per record, in order |
| ChicagoSetup.Dedupe | backend/app/scripts/chicago_city_council_setup.py:179-203 | each name seen exactly once, in the order of first appearance |
| ChicagoSetup.WardCode | backend/app/scripts/chicago_city_council_setup.py:194-199 | a district's code is the `ward` of the first record with that ward name |
| ChicagoSetup.Districts | backend/app/scripts/chicago_city_council_setup.py:189-203 | the created districts have distinct names, all in the council, each from some record, numbered in creation order |
| ChicagoSetup.CreateAldermen | backend/app/scripts/chicago_city_council_setup.py:170-250 | AttributeError when a record is not a dict; otherwise IntegrityError on the NOT NULL name when a record's `alderman` is null; otherwise one entity per record, with its name, contact fields and title, and one district per distinct ward name |
| ChicagoSetup.NamelessAldermanFails | backend/app/scripts/chicago_city_council_setup.py:183 | a record `{"alderman": null, ...}` anywhere in a list of dicts makes the commit fail with IntegrityError, so nothing is created |
| ChicagoSetup.AldermenLinkedToWards | backend/app/scripts/chicago_city_council_setup.py:189-231 | every entity is linked to the district named after its ward, and every ward name of the records has a district |
| ChicagoSetup.SameWardSameDistrict | backend/app/scripts/chicago_city_council_setup.py:190-191 | two records of the same ward share a district |
| ChicagoSetup.DrawnStatusIsAnOption | backend/app/scripts/chicago_city_council_setup.py:423-435 | every status written is one of the five options, and each option can be drawn |
| ChicagoSetup.PairAtIndex | backend/app/scripts/chicago_city_council_setup.py:432-460 | entity `i` with project `j` is record `i * |projects| + j`, built from that draw |
| ChicagoSetup.SeedEntity | backend/app/scripts/chicago_city_council_setup.py:433-460 | the inner loop appends one record per project, in order, and keeps what came before |
| ChicagoSetup.CreateRandomStatusRecords | backend/app/scripts/chicago_city_council_setup.py:418-470 | one record per (entity, project) pair, entity-major, the `k`-th record using the `k`-th draw |
| ChicagoSetupAgreement.WebsiteAgreesWithImporter | backend/app/imports/locations/chicago.py:77 | the script's website rule agrees with the importer's `website.url` path |
| ChicagoSetupAgreement.PhoneAgreesWithImporter | backend/app/imports/locations/chicago.py:76 | the script's phone rule agrees with the importer's fallback list whenever one of the two phones is non-empty |
| ChicagoSetupLegacy.CouncilJurisdictionArgs | backend/scripts/chicago_city_council_setup.py:112-119 | the keywords passed for the council row: its own id, the city as parent and the "city_council" level |
| ChicagoSetupLegacy.CreateCouncilJurisdiction | backend/scripts/chicago_city_council_setup.py:106-131 | the row is built only when every keyword is a `Jurisdiction` column; otherwise TypeError, which the database-error handler does not catch |
| ChicagoSetupLegacy.CouncilJurisdictionAlwaysRaises | backend/scripts/chicago_city_council_setup.py:112-119 | the council jurisdiction is never created: `parent_jurisdiction_id` is not a column |
| ChicagoSetupLegacy.LegacyEntityArgs | backend/scripts/chicago_city_council_setup.py:168-214 | the `Entity` keywords for one record carry `location_module_id` and the ward as the string `district` |
| ChicagoSetupLegacy.LegacyEntities | backend/scripts/chicago_city_council_setup.py:166-226 | the loop stops at the first record that is not a dict (AttributeError) or whose keywords name a missing column (TypeError); otherwise one row per record |
| ChicagoSetupLegacy.CreateAldermenLegacy | backend/scripts/chicago_city_council_setup.py:159-226 | succeeds exactly on an empty list; any other list raises at its first record, TypeError when that record is a dict |
| ChicagoSetupLegacy.IntendedAldermen | backend/scripts/chicago_city_council_setup.py:168-214 | the intended builder: AttributeError for a record that is not a dict, IntegrityError for a null `alderman`; otherwise one entity per record, its ward kept as the string "Ward {ward}" |
| ChicagoSetupLegacy.LegacyAgreesWithDistrictVariant | backend/scripts/chicago_city_council_setup.py:168-214 | the intended legacy entities and the newer script agree on every alderperson's name, title, type and contact fields, and the older script's district string is the name of the newer script's district |
| IllinoisLegislators.VerifyJurisdictions | backend/scripts/illinois_state_legislators_setup.py:85-109 | both chamber ids exactly when both jurisdictions exist, and (None, None) otherwise |
| IllinoisLegislators.FetchIlLegislators | backend/scripts/illinois_state_legislators_setup.py:115-192 | whatever stops the page loop, every house entry is classified "lower" and every senate entry "upper" |
| IllinoisLegislators.DistrictNumber | backend/scripts/illinois_state_legislators_setup.py:278 | the `district` of the current role; a role that is not a dict raises |
| IllinoisLegislators.Dicts | backend/scripts/illinois_state_legislators_setup.py:320-323 | the links loop calls `.get` on every element: it goes through exactly when the value is iterable and every element is a dict, so an empty string or dict gives no elements; a non-dict element raises AttributeError and a non-iterable value TypeError |
| IllinoisLegislators.FirstTruthy | backend/scripts/illinois_state_legislators_setup.py:314-318 | the first truthy value of the key among the offices, or None exactly when no office has one |
| IllinoisLegislators.OfficeContact | backend/scripts/illinois_state_legislators_setup.py:314-318 | a phone or address already held is kept; once both are held no later office is read; an office that is not a dict raises AttributeError exactly when read; offices that are all dicts never raise |
| IllinoisLegislators.DictOfficesFirstTruthy | backend/scripts/illinois_state_legislators_setup.py:314-318 | with offices that are all dicts, the loop ends with the first truthy voice and the first truthy address |
| IllinoisLegislators.NoHomepageFirstUrl | backend/scripts/illinois_state_legislators_setup.py:321-323 | with no homepage link, the website is the first truthy url |
| IllinoisLegislators.KeepsTruthyWebsite | backend/scripts/illinois_state_legislators_setup.py:321-323 | without homepage links, a truthy website is never replaced |
| IllinoisLegislators.LastHomepageWins | backend/scripts/illinois_state_legislators_setup.py:321-323 | the last homepage link decides the website when its url is truthy |
| IllinoisLegislators.ContactOf | backend/scripts/illinois_state_legislators_setup.py:307-323 | the email as given, phone and address from the offices loop, and the website from the links; it fails exactly when the offices cannot be iterated, the offices loop raises, or the links are not all dicts; with offices that are all dicts, the first truthy voice and address |
| IllinoisLegislators.DistrictMatches | backend/scripts/illinois_state_legislators_setup.py:286-292 | exactly the positions of the districts with that name in that jurisdiction |
| IllinoisLegislators.EntityMatches | backend/scripts/illinois_state_legislators_setup.py:326-332 | exactly the positions of the entities with that name in that jurisdiction |
| IllinoisLegislators.FindOrCreateDistrict | backend/scripts/illinois_state_legislators_setup.py:283-305 | the one matching district, a new district with code `str(number)` when none matches, and an error when several match |
| IllinoisLegislators.UpsertLegislator | backend/scripts/illinois_state_legislators_setup.py:276-360 | a legislator without a district number is skipped; otherwise at most one district is added, and either no entity is added or exactly the returned one, which has a name; an IntegrityError only for a legislator without a name |
| IllinoisLegislators.NamelessLegislatorFails | backend/scripts/illinois_state_legislators_setup.py:326-360 | a legislator with a district number and no name matches no entity, and the entity created for it violates the NOT NULL name column |
| IllinoisLegislators.NewEntityLinkedToDistrict | backend/scripts/illinois_state_legislators_setup.py:344-360 | a new entity is linked to the district named after its number, in the chamber's jurisdiction |
| IllinoisLegislators.ExistingEntityUpdatedInPlace | backend/scripts/illinois_state_legislators_setup.py:334-343 | an existing entity keeps its id, type and district, gets the chamber's title and new contact fields, and no entity is added |
| IllinoisLegislators.UpsertAll | backend/scripts/illinois_state_legislators_setup.py:276-360 | at most one entity per legislator, each named and with the chamber's title and jurisdiction; existing districts are kept |
| IllinoisLegislators.AllSkippedChangesNothing | backend/scripts/illinois_state_legislators_setup.py:276-281 | a chamber whose legislators all have a falsy district number leaves the session as it was and yields no entity |
| IllinoisLegislators.CreateLegislatorEntities | backend/scripts/illinois_state_legislators_setup.py:252-458 | the House loop then the Senate loop: at most one entity per legislator, each named and with its chamber's title and jurisdiction; existing districts are kept; any exception discards the session |
| ScriptGeoJson.IterateFeatures | backend/scripts/import_illinois_geojson.py:170-175 | a list gives its items; an empty string or dict gives none; a non-empty string or dict fails at `get`; anything else is not iterable |
| ScriptGeoJson.ReadWard | backend/app/scripts/import_chicago_ward_geojson.py:64-68 | a ward is read exactly when the properties are a dict holding "ward"; falsy properties are skipped; a feature that is not a dict raises, and so does a list or string that contains "ward" |
| ScriptGeoJson.WardName | backend/app/scripts/import_chicago_ward_geojson.py:69 | the name is "Ward " followed by the ward value's text |
| ScriptGeoJson.WardFeatures | backend/app/scripts/import_chicago_ward_geojson.py:41-60 | the script returns False exactly for an unreadable file, a value that is not a FeatureCollection, or falsy features; otherwise the non-empty feature list |
| ScriptGeoJson.FirstNamed | backend/app/scripts/import_chicago_ward_geojson.py:72-76 | the first row with the name in table order; none exactly when no row has it |
| IllinoisGeoJson.AddIfAbsent | backend/scripts/import_illinois_geojson.py:95-105 | a chamber is added exactly when no jurisdiction has its id, and afterwards one does |
| IllinoisGeoJson.CreateChambers | backend/scripts/import_illinois_geojson.py:89-133 | afterwards both chambers exist; existing rows are kept as they are; rows are added exactly when a chamber was missing, and only the chamber rows |
| IllinoisGeoJson.HasJurisdictionSnoc | backend/scripts/import_illinois_geojson.py:95-105 | an appended row is found by its id, and every id found before still is |
| IllinoisGeoJson.CreateChambersIdempotent | backend/scripts/import_illinois_geojson.py:89-133 | running the jurisdiction step a second time changes nothing |
| IllinoisGeoJson.Named | backend/scripts/import_illinois_geojson.py:183-189 | exactly the districts with that name in that jurisdiction |
| IllinoisGeoJson.NamedSnoc | backend/scripts/import_illinois_geojson.py:183-189 | an appended district joins the lookup exactly when it matches |
| IllinoisGeoJson.UniqueNamesFindAtMostOne | backend/scripts/import_illinois_geojson.py:189 | with unique names per jurisdiction, the lookup finds at most one district |
| IllinoisGeoJson.NameOf | backend/scripts/import_illinois_geojson.py:175 | the "Name" property; a feature or properties value that is not a dict raises at `get` |
| IllinoisGeoJson.UpsertDistrict | backend/scripts/import_illinois_geojson.py:173-214 | a falsy name skips the feature; it fails exactly when the name cannot be read, several districts match, the one match is committed while the session holds a flushed district (the provider's commit is locked out), or a new district's id is taken; otherwise the feature has its district, at most one is appended and then with no boundary, and a boundary is written only for a committed district while nothing is flushed |
| IllinoisGeoJson.UpsertKeepsUniqueNames | backend/scripts/import_illinois_geojson.py:183-209 | an upsert keeps district names unique within each jurisdiction |
| IllinoisGeoJson.UpsertIsIdempotent | backend/scripts/import_illinois_geojson.py:173-214 | within one session, upserting the same feature twice changes nothing, whatever id the second upsert would use |
| IllinoisGeoJson.RepeatAfterCreate | backend/scripts/import_illinois_geojson.py:198-214 | after a creation, the second upsert finds the created district alone; the provider does not see it, so nothing changes |
| IllinoisGeoJson.UpsertDistrictCreates | backend/scripts/import_illinois_geojson.py:198-214 | with no district of the name and a free id, a district named after the feature, with code `str(Name)`, is appended under that id and no boundary is stored |
| IllinoisGeoJson.UpsertDistrictFindsOne | backend/scripts/import_illinois_geojson.py:191-197 | with exactly one district of the name: one the provider cannot see is left alone; a committed one gets the feature as boundary, or the provider's commit fails when the session holds a flushed district |
| IllinoisGeoJson.RepeatAfterFound | backend/scripts/import_illinois_geojson.py:191-197 | after a found district, the second upsert finds the same district again and stores what is already there |
| IllinoisGeoJson.NextRunStoresBoundary | backend/scripts/import_illinois_geojson.py:191-214 | after the session that upserted a feature commits, a fresh run finds the feature's district alone and stores the feature as its boundary |
| IllinoisGeoJson.ProcessFeatures | backend/scripts/import_illinois_geojson.py:170-218 | the loop stops at the first exception; work before it stays; existing districts and the jurisdictions are kept |
| IllinoisGeoJson.ProcessKeepsUniqueNames | backend/scripts/import_illinois_geojson.py:170-218 | from unique names the loop keeps them unique |
| IllinoisGeoJson.ProcessNeverFindsSeveral | backend/scripts/import_illinois_geojson.py:170-218 | from unique names the loop never meets several matches: it stops only with the AttributeError of `get`, the locked provider commit, or a taken id, and a loop that runs to the end read every name |
| IllinoisGeoJson.EveryNamedFeatureHasDistrict | backend/scripts/import_illinois_geojson.py:173-214 | when the loop runs to the end, every feature with a truthy name has its district in the chamber |
| IllinoisGeoJson.LoopWritesOnlyCommittedBoundaries | backend/scripts/import_illinois_geojson.py:170-218 | the loop writes a boundary only under the id of a district committed before the session began, and never drops one |
| IllinoisGeoJson.ImportChamber | backend/scripts/import_illinois_geojson.py:159-220 | a missing or unreadable file, a value that is not a FeatureCollection, or features that cannot be iterated leave everything as it was; otherwise the feature loop runs in the session |
| IllinoisGeoJson.ImportDistricts | backend/scripts/import_illinois_geojson.py:136-289 | the House file and then the Senate file, each into its own jurisdiction, in one session committed at the end; whatever happens it returns True; existing districts and the jurisdictions are kept |
| IllinoisGeoJson.ChamberWritesOnlyCommittedBoundaries | backend/scripts/import_illinois_geojson.py:159-220 | one chamber's import writes boundaries only for districts committed before the session began |
| IllinoisGeoJson.ImportWritesOnlyExistingBoundaries | backend/scripts/import_illinois_geojson.py:136-289 | a run stores boundaries only for districts that existed before it; every district it creates is left without one |
| IllinoisGeoJson.SetupDistrictData | backend/scripts/import_illinois_geojson.py:292-339 | both chambers exist afterwards, and existing districts are kept |
| IllinoisChambersAgree.ChambersPassLegislatorCheck | backend/scripts/illinois_state_legislators_setup.py:85-109 | after the chambers are created, the legislators script's check returns both ids |
| ChicagoWardDistricts.ResolveJurisdiction | backend/app/scripts/import_chicago_ward_geojson.py:28-39 | the requested jurisdiction when it exists; otherwise the first one named "Chicago City Council"; when there is none, the `[0]` raises |
| ChicagoWardDistricts.UpsertWard | backend/app/scripts/import_chicago_ward_geojson.py:68-91 | the first district named "Ward {n}", in any jurisdiction, gets the feature as its boundary; when there is none, one ward district is created in the resolved jurisdiction and gets it |
| ChicagoWardDistricts.MatchIgnoresJurisdiction | backend/app/scripts/import_chicago_ward_geojson.py:72-78 | a "Ward {n}" district of another jurisdiction is the one updated, and nothing is created |
| ChicagoWardDistricts.UpsertWardIsIdempotent | backend/app/scripts/import_chicago_ward_geojson.py:68-91 | upserting the same ward twice changes nothing, whatever id the second run would use |
| ChicagoWardDistricts.ProcessWards | backend/app/scripts/import_chicago_ward_geojson.py:63-91 | every new district is a ward district of the resolved jurisdiction; the loop ends with an error exactly when some feature's test raises, and then with that feature's error |
| ChicagoWardDistricts.EveryWardHasDistrict | backend/app/scripts/import_chicago_ward_geojson.py:63-91 | when the loop runs to the end, every ward it read has a district of that name |
| ChicagoWardDistricts.ImportChicagoWards | backend/app/scripts/import_chicago_ward_geojson.py:11-94 | TypeError under PostgreSQL before anything is read; then the jurisdiction is resolved and its error ends the script; False exactly for an unusable file, with nothing written; otherwise the ward loop |
| ChicagoWardJurisdictions.UpsertWardJurisdiction | backend/scripts/import_chicago_ward_geojson.py:50-74 | the first jurisdiction named "Ward {n}" is kept as it is; when there is none, one "ward" jurisdiction under the parent, described "Chicago Ward {n}", is appended with the fresh id; no boundary and no district changes |
| ChicagoWardJurisdictions.UpsertWardJurisdictionTwice | backend/scripts/import_chicago_ward_geojson.py:54-71 | a second attempt at the same ward finds the jurisdiction the first left, whatever id it would use |
| ChicagoWardJurisdictions.ProcessWards | backend/scripts/import_chicago_ward_geojson.py:45-74 | skipped features are passed over; the loop ends without error exactly when every feature is skipped; otherwise it ends at the first other feature, with that feature's own exception, or with `AttributeError` after its ward jurisdiction is found or created |
| ChicagoWardJurisdictions.ProcessWardsWritesAtMostOneWard | backend/scripts/import_chicago_ward_geojson.py:45-74 | the loop creates at most one jurisdiction, a ward of the parent, and never stores a boundary or touches districts |
| ChicagoWardJurisdictions.ProcessWardsTwice | backend/scripts/import_chicago_ward_geojson.py:45-74 | running the loop over its own result ends the same way and writes nothing more |
| ChicagoWardJurisdictions.ImportWardJurisdictions | backend/scripts/import_chicago_ward_geojson.py:11-77 | under PostgreSQL building the provider fails with nothing read; False exactly for an unusable file; True exactly when every feature is skipped, and then nothing is written; in every case no boundary is stored and at most one ward jurisdiction is added |
| ChicagoWardJurisdictions.ImportWardJurisdictionsTwice | backend/scripts/import_chicago_ward_geojson.py:11-77 | a second run over the same file ends as the first did and writes nothing more, whatever ids it would use |
| ChicagoWardJurisdictions.OneWardFileStopsAfterCreating | backend/scripts/import_chicago_ward_geojson.py:45-74 | a file holding one feature with `"ward": 1`, on an empty store, leaves the jurisdiction "Ward 1" committed, no boundary, and an `AttributeError` |
| ChicagoWardJurisdictions.UpsertWardIntended | backend/scripts/import_chicago_ward_geojson.py:50-74 | with a working boundary call: the first "Ward {n}" jurisdiction, or a new ward jurisdiction when there is none, has the feature as its boundary |
| ChicagoWardJurisdictions.UpsertWardIntendedIsIdempotent | backend/scripts/import_chicago_ward_geojson.py:50-74 | with a working boundary call, upserting the same ward twice changes nothing, whatever id the second run would use |
| ChicagoWardJurisdictions.UpsertNamedWard | backend/scripts/import_chicago_ward_geojson.py:54-60 | with a working boundary call, an existing "Ward {n}" jurisdiction only has its boundary replaced |
| ChicagoWardJurisdictions.RepeatOnNamedWard | backend/scripts/import_chicago_ward_geojson.py:54-60 | with a working boundary call, a store whose first "Ward {n}" jurisdiction already has the feature as boundary is left as it is |
| AduImport.OptInWardsShape | backend/scripts/import_adu_project_data.py:12-14 | the opt-in list names 20 distinct wards in increasing order, all between 1 and 50 |
| AduImport.UpToSpace | backend/scripts/import_adu_project_data.py:71 | the longest prefix without a space, followed in the input by a space or by nothing |
| AduImport.WardNumber | backend/scripts/import_adu_project_data.py:66-78 | a non-empty district name decides alone: it must start with "ward " in any case and its second space-separated piece must parse; only without a name is the district code parsed |
| AduImport.NameShadowsCode | backend/scripts/import_adu_project_data.py:67-74 | a district name that does not start with "ward " hides the district code |
| AduImport.WardPrefixParses | backend/scripts/import_adu_project_data.py:69-71 | "Ward N" with N a plain number reads as ward N whatever the district code says |
| AduImport.DoubleSpaceGivesNoWard | backend/scripts/import_adu_project_data.py:71-73 | two spaces after "Ward" leave an empty second piece, so no ward |
| AduImport.LowerWardPrefix | backend/scripts/import_adu_project_data.py:69 | lower-casing "Ward …" gives "ward …" |
| AduImport.StatusFor | backend/scripts/import_adu_project_data.py:80-81 | strongly approving exactly for a parsed ward on the list, neutral otherwise |
| AduImport.NotesFor | backend/scripts/import_adu_project_data.py:87 | the opt-in sentence with the ward number for an opted-in ward, "No opt-in record" otherwise |
| AduImport.ImportAdu | backend/scripts/import_adu_project_data.py:23-93 | nothing at all exactly without the council; otherwise an active project preferring strong approval in the council and group, and one record per entity, in order, strongly approving exactly for opted-in wards |
| AduImport.RecordsAreApprovingOrNeutral | backend/scripts/import_adu_project_data.py:81 | every record is strongly approving or neutral |

## Left out

- Pydantic validation and type coercion of request bodies and `*Create` models. Inputs are taken as already validated.
- Field sets of `ProjectBase`, `Project` and `EntityCreate`. The model takes them from the ORM columns (backend/app/models/orm/models.py) and the keywords the callers pass. The pydantic classes in backend/app/models/pydantic/models.py:39-78 lack fields that their callers use:
  - `ProjectBase` has no `group_id`, `jurisdiction_id`, `link`, `preferred_status` or `created_by`;
  - `Project` has no `jurisdiction_id`, `jurisdiction_name` or `status_distribution`;
  - `EntityCreate` takes a string `jurisdiction_id` where the importer passes a UUID, and has no `district_id` and no flat `email`, `phone`, `website` or `address`.
  The lines below name each member whose source reads these fields. The mock location module is the exception: it builds the pydantic `Entity` directly and stores nothing, so `LocationModules.FindRepresentatives` follows that class as written (see Findings).
- JurisdictionEntities (ProjectService.JurisdictionEntities): reads the project's `jurisdiction_id` as the ORM column. As written, `project.jurisdiction_id` (backend/app/services/project_service.py:162) raises AttributeError on a pydantic `Project`, which does not declare it.
- JurisdictionName (ProjectService.JurisdictionName): reads `jurisdiction_id` and sets `jurisdiction_name` as fields of the project. As written, the read at project_service.py:40 raises AttributeError on a pydantic `Project`, and pydantic v2 refuses the assignment at line 45 with ValueError.
- CheckRelations (ProjectService.CheckRelations): reads `group_id` and `jurisdiction_id` from the request data. As written, `ProjectBase` ignores both keywords, and `project.group_id` at project_service.py:92 raises AttributeError before either check.
- CreateProject (ProjectService.CreateProject): checks the relations and appends the row. As written, every call raises AttributeError at project_service.py:92, as under CheckRelations.
- TitleOnlyProjectIsDraftAndActive (ProjectService.TitleOnlyProjectIsDraftAndActive): proves that a title-only request succeeds under the ORM reading. As written, the call raises AttributeError at project_service.py:92.
- UpdateProject (ProjectService.UpdateProject): checks the relations and patches an existing project. As written, `project.group_id` at project_service.py:116 raises AttributeError for every existing id.
- RouteGetProject (ProjectRoutes.RouteGetProject): returns the project with its status distribution. As written, `project.status_distribution = ...` (backend/app/api/routes/projects.py:65) sets a field the pydantic `Project` does not declare, which pydantic v2 refuses with ValueError.
- BaseData (EntityImporter.BaseData): the row keeps the UUID `jurisdiction_id`, `district_id` and the flat contact fields, as the ORM `entities` columns take them. As written, `EntityCreate(**entity_data)` (backend/app/imports/importers/entity_importer.py:127) rejects the UUID. With a string id it would drop `district_id` and the flat contact fields.
- ImportItem (EntityImporter.ImportItem): a named dict item is created or updated from that row. As written, the `EntityCreate` validation fails inside the `try`, so the source counts every named dict item as an error.
- ImportAdu (AduImport.ImportAdu): writes the project with its group, jurisdiction, preferred status and creator, then one record per alderperson. As written, `ProjectBase(...)` ignores those keywords, and `create_project` raises AttributeError at project_service.py:92, so nothing is written.
- PyJson.Value: decoded JSON numbers are integers. A number with a fraction (`"ward": 1.0`, whose `str()` is "1.0") has no counterpart in the model.
- Locations.StrArg: optional string keyword arguments are read as given. A non-string value is a stand-in `TypeError`, not Python's own behaviour further down.
- HTTP transport (aiohttp/httpx) in the data sources and scripts. Each request is replaced by the reply it returns (status, body, or a raised error).
- OpenStatesSource.Pages: pagination is modelled only for servers whose loop stops by some page `last` (`StopsBy`): a non-200 reply, an empty results page, an exception, or a full page whose number reaches `max_page`. The Python loop does not terminate against a server that keeps sending full pages with a `max_page` it never reaches.
- ParseUserRole (Models.ParseUserRole): `UserRole` is not part of this model. The code only names its members `SUPER_ADMIN`, `GROUP_ADMIN` and `EDITOR`. Their values "super_admin", "group_admin" and "editor", and a fourth member `Viewer` with the value "viewer", are assumed. So which strings parse, and the role list in the 400 message, rest on that assumption. The access rules in `Auth` and `AdminUsers` depend only on the members.
- UserRoleRoundTrip (Models.UserRoleRoundTrip): the round trip is proved for the assumed role values above.
- SqlStore.FilterMultiple: the in-memory provider (`InMemoryProvider`) is not part of this model. Its `filter_multiple` is assumed to return, in table order, exactly the rows that match every equality filter and hold one of the listed values for every IN filter. Only the SQL provider's missing method is taken from the code.
- Locations.DataPath: `os.path.join` is a plain "/" join. Absolute file names and trailing separators are not modelled.
- PyJson.ParseInt: `int()` on strings accepts an optional sign and ASCII digits only. Python's leniency about surrounding whitespace, underscores and non-ASCII digits is left out.
- The streamed download in the GeoJSON source writes a temporary file. Only the choice of streaming and the parsed result are modelled.
- PostGIS SQL (`ST_Contains`, `ST_GeomFromGeoJSON`). The PostGIS provider cannot be built, so its queries are never reached. The query the address lookup evidently means to run is the `pointInJurisdictions` parameter of LocationRoute.LookupRepresentativesVia.
- Polygon containment internals and floating-point coordinates. Containment is an abstract `Contains` parameter; coordinates are `real`.
- The HTTP geocoding service. It is an abstract address-to-coordinates function. Its own 404-turned-500 handling is not modelled.
- Exception texts. Errors are modelled by kind (`KeyError`, `IndexError`, `AttributeError`, `TypeError`, `ValueError`, an integrity error, "MultipleResultsFound"). Messages are stand-ins where Python's wording does not matter.
- `uuid4`, `random.choice` and `datetime.utcnow`. They are id, draw and timestamp parameters. Random status seeding pins down only the record count and the set of allowed statuses.
- Setup scripts' database sessions, commits and rollbacks: each script works on one local record of rows and boundaries. The Illinois boundary script is the exception: its model tracks which districts were committed before its session began, because the geo provider stores boundaries through a session of its own (backend/app/geo/sqlite.py:58-72).
- IllinoisGeoJson.UpsertDistrict: the provider's commit while the script's session holds a flushed district is modelled as failing with "database is locked", because SQLite allows one writer at a time; the busy timeout it waits first is not modelled. A district created in a run is therefore left without a boundary until a later run (NextRunStoresBoundary), and a run that creates a district before reaching an existing one stops that file there.
- The boundary store is a map from row id to GeoJSON feature. The values that `store_*_boundary` returns are ignored, as the scripts ignore them.
- A flush that fails inside a script is modelled as an error result. The unusable session it leaves behind is not modelled.
- `filter` results come back in table order. Any ordering the database might impose is not modelled.
- When both the ward phone and the city-hall phone are empty, the Chicago setup script stores the empty city-hall phone, while the location importer stores `None`. Both are modelled as written.
- Logging and print output of every module.
- In the Chicago setup script, only the council jurisdiction, wards and alderpersons are modelled. The demo groups and projects it creates are not.
- Database initialisation, the setup command line and `argparse` handling, engine/session wiring, application startup, and the provider and service factories.
- `orjson` encoding and decoding and JWT signing. They are an abstract codec and an abstract `Decode` from token to claims. bcrypt hashing is an abstract `Verify`.
- Asynchronous execution. Every `await` is modelled as a sequential call.
- Thin CRUD routes and services for entities, jurisdictions and groups, and the admin import route. Their only logic (404 or `None` on a missing id) is the provider's `get`.
- Constant-data seeding, diagnostics, the example project import, app initialisation with its lock file, the super-admin script and the file-only GeoJSON import scripts.
- Abstract base classes. Their concrete subclasses are modelled directly.
- IllinoisLegislators.UpsertLegislator: the IntegrityError of a nameless legislator is raised at once; the code raises it at the next flush (the next district query or the commit), so an AttributeError from a later legislator read before that flush would be the error reported instead. Either way the run fails and nothing is committed.
- ImportDistricts (DistrictImporter.ImportDistricts, IllinoisGeoJson.ImportDistricts) and the Locations runs that build the district importer take the SQLite geo provider as given. Under PostgreSQL, the `get_geo_provider()` that the importer's constructor (backend/app/imports/importers/district_importer.py:31) and the Illinois boundary script (backend/scripts/import_illinois_geojson.py:157) call raises TypeError before any import; that failure is modelled once, in GeoProvider.GetGeoProvider.
- DistrictImporter.FormatCode: only `{code}` fields and doubled braces are modelled. `str.format` also accepts a conversion or a format spec on the field (`{code!r}`, `{code:>3}`); here those are reported as the error that any other field raises.
- DistrictImporter.GeoFeaturesProcessesEveryName: states that every feature with a truthy number is processed under its name, not that a district of that name exists afterwards. A feature may match an existing district by code instead, and a failed create or boundary store is caught and logged.
- The `created_at` and `updated_at` columns (backend/app/models/orm/models.py:26, 44-47, 67, 124). They are left out of the table schemas because they only hold clock values. SqlStore.Create would refuse data naming them, and no modelled caller passes them.
- PyJson.Lower: lower-cases ASCII letters only. Python's `str.lower` also lower-cases other letters, some of them to ASCII (the Kelvin sign becomes "k"). It is used by OpenStatesSource.NewSource, AduImport and GeoProvider.PostgresConfigured, which compare against ASCII text.

## Findings

| source | as written | input that shows it | evidently intended | confidence | as-written member | corrected member |
|---|---|---|---|---|---|---|
| backend/app/api/routes/location.py:58-104 | the route calls `point_in_jurisdictions`, which the SQLite provider does not define; under PostgreSQL the provider factory raises first | any address that geocodes, with either database provider | the jurisdictions whose boundaries contain the point, each with its entities | not executed | LocationRoute.LookupRepresentatives | LocationRoute.LookupRepresentativesVia |
| backend/scripts/import_chicago_ward_geojson.py:60-74 | each ward calls `store_jurisdiction_boundary`, which the SQLite provider does not define, after the ward jurisdiction has been committed | `{"type": "FeatureCollection", "features": [{"properties": {"ward": 1}}]}` on an empty database: "Ward 1" is committed, then AttributeError | every ward feature finds or creates its "Ward N" jurisdiction and stores the feature as its boundary; a second run changes nothing | not executed | ChicagoWardJurisdictions.OneWardFileStopsAfterCreating | ChicagoWardJurisdictions.UpsertWardIntendedIsIdempotent |
| backend/scripts/chicago_city_council_setup.py:202-214 | `Entity(...)` is given `location_module_id` and a string `district`, and `Jurisdiction(...)` (lines 112-119) `parent_jurisdiction_id`; the ORM classes have none of these, so their constructors raise TypeError | `[{"alderman": "A", "ward": 1}]`: TypeError at the first record, nothing added | one alderperson entity per record, carrying its ward as "Ward {ward}" | not executed | ChicagoSetupLegacy.CreateAldermenLegacy | ChicagoSetupLegacy.IntendedAldermen |
| backend/app/services/location/default.py:14-45 | each `Entity(...)` passes `jurisdiction_id=uuid.uuid4()` to a pydantic v2 model whose `jurisdiction_id` is `str` (backend/app/models/pydantic/models.py:83), and passes `email`, `phone`, `website` and `address`, which are not fields (contact data sits in `contact_info`) | any address: the first `Entity(...)` raises a ValidationError; with string ids the contact details would be silently dropped | three mock officials, each with a string jurisdiction id and its contact details as `contact_info` | not executed; the pydantic major version is read off `model_dump` and `from_attributes`; this row rests on backend/app/models/pydantic/models.py as given, which elsewhere lacks fields its callers use (see "## Left out") | LocationModules.FindRepresentativesAlwaysRaises | LocationModules.IntendedRepresentatives |
