# blr-gsv-collector work queue, in Dafny

The collector is four scripts that share one SQLite file, `gsv.db`.

1. `01-sample-coords.py` lays a regular lattice of sample points over every part of every zone. It keeps the points that each part contains and inserts them into `sample_coords`, unsearched.
2. `02-search-panorama.py` claims up to 100000 unsearched points in random order and looks each up with Street View. It stores the panoramas found with INSERT OR IGNORE into `search_panoramas` and marks the point searched.
3. `03-search-date-and-copyright.py` claims panoramas whose date or copyright is missing, looks their metadata up and overwrites both fields.
4. `04-check-progress.py` counts rows and prints progress ratios.

The model has five modules:

- `TaskStore` (`task_store.dfy`): the two tables as a `Database` class. It has fields `samples` (the rows of `sample_coords`), `nextId` (the AUTOINCREMENT counter) and `panoramas` (`search_panoramas` keyed by `pano_id`). Each SQL statement of 01–03 is a `Database` method; the `COUNT(*)` queries of 04 are functions in `Progress` over the snapshot. `State()` is a value snapshot of the database, and `Wf` is the AUTOINCREMENT discipline every method keeps.
- `Sampler` (`sampler.dfy`) covers 01: `np.arange`, the meshgrid flattening, the containment filter, the zone loop and the row-by-row insert.
- `PanoramaSearch` (`panorama_search.dfy`) covers 02:
  - the claim;
  - one unit under an outcome `Results(found) | NoneResult | LookupError`, with the `COUNT_NONE_FOUND_AS_SEARCHED` policy;
  - the batch.
- `MetadataSearch` (`metadata_search.dfy`) covers 03: the claim, one unit under `NoMeta | Meta(date?, copyright?) | MetaError`, and the batch.
- `Progress` (`progress.dfy`) covers 04: the integer counts and the report with its three divisions.

`02-search-panorama.py`, `03-search-date-and-copyright.py` and `04-check-progress.py` each have a `setup_database` that creates both tables if they are missing; 04 runs it before its counts (04-check-progress.py:17-43, 86). `01-sample-coords.py` has none: `save_points_to_db` creates only `sample_coords`, if it is missing, before inserting (01-sample-coords.py:100-104). On an existing file none of these statements changes anything. The constructor models the first run, which leaves both tables empty.

Every state-changing method is tied to a pure function of the old state:

- `SaveRows` and `SeedAll` for seeding;
- `SearchStep` and `SearchFold` for the search;
- `MetaStep` and `MetaFold` for the metadata pass.

The lemmas state the properties of those functions:

- insert-or-ignore keeps first-seen values;
- `searched` only moves forward;
- a unit that fails or writes nothing is inert;
- retries are idempotent;
- complete and missing metadata partition the panoramas;
- searched plus unsearched is the total.

Sources and outcomes are modelled as follows:

- **Lookups:** the Street View calls are parameters. `RunSearchBatch` takes a function from (point id, coordinates) to an outcome. `RunMetadataBatch` takes a function from pano id to an outcome.
- **Batch size and flag:** both runners claim `SEARCH_BATCH_SIZE` (the constants `SearchBatchSize` and `MetadataBatchSize`, 100000). `COUNT_NONE_FOUND_AS_SEARCHED` is the constant `CountNoneFoundAsSearched`. The search functions take the flag as a parameter, so their lemmas cover both settings.
- **Random choices:** `ORDER BY RANDOM() LIMIT n` is a nondeterministic choice, and so is the order in which the units' writes commit. The sample claim and the commit order are made by `TaskStore.PickAny`; the panorama claim is the same nondeterministic pick over the set of eligible keys, in `Database.SelectMissingMetadata`. A method's contract holds for every choice.
- **Commit order:** each unit commits its own transaction inside its worker, before its future completes. So the store is the fold of the units in commit order, which is some reordering of the claim and need not be the `as_completed` order. That matters when two points of one batch find the same panorama: the first to commit decides the stored values.
- **Coordinates:** coordinates and the lattice are exact reals.

Three behaviours of the code a reader might not expect:

- **Metadata with one field null:** the metadata pass overwrites both fields whenever either one is returned, so a null can replace a stored date.
- **Progress report with zero counts:** the report is not total. With no points, no panoramas or no searched point, the script stops at one of its divisions, so `Report` returns the matching error.
- **A `None` search result:** with the flag on, `None` does not take the "recorded" path. `len(None)` raises inside the unit and the batch loop catches it, so the point stays unsearched under either setting of the flag.

## Model

| member | source | states |
|---|---|---|
| TaskStore.Database.constructor | 02-search-panorama.py:26-44 | a new database has both tables empty and AUTOINCREMENT at 1, and is well formed |
| TaskStore.Database.InsertSample | 01-sample-coords.py:109-112 | the insert appends exactly one unsearched row with the next id, advances the counter by one, keeps the id discipline and leaves panoramas alone |
| TaskStore.Database.InsertOrIgnorePanorama | 02-search-panorama.py:102-114 | the panorama table becomes `InsertOrIgnore` of the old one (present key: unchanged); sample rows unchanged |
| TaskStore.Database.MarkSearched | 02-search-panorama.py:115 | exactly the rows with that id get `searched` set, nothing else changes |
| TaskStore.Database.UpdateMetadata | 03-search-date-and-copyright.py:134-137 | date and copyright of the named row are both replaced; an absent key changes nothing; sample rows unchanged |
| TaskStore.PickAny | 02-search-panorama.py:59-62 | `ORDER BY RANDOM() LIMIT n` picks exactly min(n, #rows) of the rows, none twice, all of them when n is large enough; with n = #rows it is a reordering, which the batch runners use as the commit order |
| TaskStore.Database.SelectUnsearched | 02-search-panorama.py:59-64 | a claim of exactly min(limit, #unsearched) rows, each an unsearched row of the table, no id twice, in any order; read-only |
| TaskStore.Database.SelectMissingMetadata | 03-search-date-and-copyright.py:72-77 | a claim of exactly min(limit, #eligible) panoramas, each stored with date or copyright null or empty, no key twice; read-only |
| TaskStore.UnsearchedRowsLength | 02-search-panorama.py:60 | the `searched = 0` selection is no longer than the table |
| TaskStore.UnsearchedRowsMember | 02-search-panorama.py:60 | a row is selected exactly when it is in the table and unsearched |
| TaskStore.UnsearchedRowsIncreasing | 01-sample-coords.py:103 | with AUTOINCREMENT ids the selection keeps strictly increasing ids |
| TaskStore.UnsearchedRowsAppend | 02-search-panorama.py:60 | selecting from appended rows selects from each part in turn |
| TaskStore.SetSearchedIdempotent | 02-search-panorama.py:115 | marking twice equals marking once; only the flag of rows with that id changes, and only from false to true |
| Sampler.ArangeIndex | 01-sample-coords.py:43-44 | lattice index k is below the arange length exactly when start + k·step < stop (half-open range) |
| Sampler.Arange | 01-sample-coords.py:43-44 | `np.arange` has the ceiling length, values start + k·step, all in [start, stop), and the next value would reach stop |
| Sampler.Ravel | 01-sample-coords.py:45-46 | every flattened mesh point takes its x from the x values and its y from the y values |
| Sampler.RavelLength | 01-sample-coords.py:45-46 | the flattened mesh has len(y)·len(x) points |
| Sampler.RavelIndex | 01-sample-coords.py:45-46 | mesh cell (row j, column i) sits at j·len(x)+i: y major, x fastest |
| Sampler.RavelAt | 01-sample-coords.py:45-46 | position k of the flattened mesh is (x[k mod len(x)], y[k div len(x)]), both in range |
| Sampler.CreatePointGrid | 01-sample-coords.py:42-47 | every grid candidate lies in the half-open bounding box |
| Sampler.GridLength | 01-sample-coords.py:42-47 | for every box, empty or not, the grid has exactly nx·ny candidates |
| Sampler.GridShape | 01-sample-coords.py:42-47 | the grid has nx·ny candidates; index (i, j) with i < nx, j < ny sits at j·nx+i and is (minx + i·interval, miny + j·interval) |
| Sampler.FilterMember | 01-sample-coords.py:55-58 | a point is kept exactly when it is an input point that `contains` accepts |
| Sampler.FilterCount | 01-sample-coords.py:55-58 | each accepted point keeps all its copies and each rejected point loses all of them |
| Sampler.FilterLength | 01-sample-coords.py:55-58 | the filtered list is never longer than the input |
| Sampler.FilterAppend | 01-sample-coords.py:55-58 | filtering preserves input order: filtering a concatenation concatenates the filtered parts |
| Sampler.PointsInPolygon | 01-sample-coords.py:50-58 | the appending loop returns exactly the order-preserving filter of the points |
| Sampler.ZonePointsAppend | 01-sample-coords.py:125-145 | the zone's points are the parts' points concatenated in part order, nothing merged |
| Sampler.ZonePointInside | 01-sample-coords.py:128-145 | every zone point is contained by, and in the bounding box of, some part of the zone |
| Sampler.PointsInZone | 01-sample-coords.py:125-145 | the loop over parts computes exactly the concatenated per-part points |
| Sampler.SaveRowsProps | 01-sample-coords.py:108-113 | saving keeps ids well formed, old rows a prefix, panoramas unchanged, new ids above all old ids, and the unsearched rows grow by exactly the new rows |
| Sampler.SavePointsToDb | 01-sample-coords.py:96-114 | the insert loop appends one row per point in order (lat = y, lon = x, zone label, unsearched, consecutive fresh ids) |
| Sampler.SeedAllProps | 01-sample-coords.py:117-149 | seeding all zones keeps ids well formed, keeps old rows and panoramas, and every added row is unsearched |
| Sampler.SeedZones | 01-sample-coords.py:117-149 | the zone loop leaves the store as `SeedAll` of the old store: each zone's points saved under its name, zone after zone |
| PanoramaSearch.InsertAllKeeps | 02-search-panorama.py:101-114 | a panorama already stored keeps its first-seen row through any result list |
| PanoramaSearch.InsertAllKeys | 02-search-panorama.py:101-114 | the stored keys become the old keys plus the ids of the results |
| PanoramaSearch.InsertAllFirstSeen | 02-search-panorama.py:104-113 | a new panorama is stored from its first result: lat, lon, date, heading, pitch, roll copied, copyright null |
| PanoramaSearch.InsertAllPresent | 02-search-panorama.py:103 | inserting only present ids changes nothing |
| PanoramaSearch.InsertAllIdempotent | 02-search-panorama.py:103 | inserting the same results twice equals inserting them once |
| PanoramaSearch.SearchStepIdempotent | 02-search-panorama.py:101-115 | processing a point twice with the same outcome equals processing it once |
| PanoramaSearch.RetryAfterPartialWrite | 02-search-panorama.py:101-117 | a retry after the panoramas were written but the point not marked ends in the same state as one uninterrupted unit |
| PanoramaSearch.SearchStepWf | 02-search-panorama.py:115 | one unit keeps the AUTOINCREMENT discipline |
| PanoramaSearch.SearchFoldAppend | 02-search-panorama.py:140-146 | a batch is its units applied one after another |
| PanoramaSearch.NonRecordingUnitIsInert | 02-search-panorama.py:140-146 | a unit that raises or returns early changes nothing for the rest of the batch |
| PanoramaSearch.SearchFoldLength | 02-search-panorama.py:115 | a batch inserts and deletes no sample row |
| PanoramaSearch.SearchFoldRow | 02-search-panorama.py:115 | after a batch a row keeps id, coordinates and label, and is searched iff it was or some recorded unit named it |
| PanoramaSearch.NoneResultNeverMarks | 02-search-panorama.py:88-96 | a point whose units all got `None` is unchanged under either flag value |
| PanoramaSearch.SearchFoldKeepsPanoramas | 02-search-panorama.py:103 | no stored panorama is removed or altered by a batch |
| PanoramaSearch.SearchFoldWf | 02-search-panorama.py:115 | a batch keeps the id discipline and the AUTOINCREMENT counter |
| PanoramaSearch.ThreePointScenario | 02-search-panorama.py:83-146 | three points (two panoramas, none, error), default policy: first two searched, third unchanged, exactly p1 and p2 stored, only the third claimable next, a repeated error changes nothing |
| PanoramaSearch.GetUnsearchedPoints | 02-search-panorama.py:55-75 | the claimed dictionary has min(batch, #unsearched) entries, each an unsearched row at its stored (lat, lon), no id twice; read-only |
| PanoramaSearch.SearchAndInsert | 02-search-panorama.py:83-119 | the store becomes `SearchStep` of the old store under the branches of the unit, and the unit raises exactly when the lookup raised or returned `None` with the flag on |
| PanoramaSearch.ProcessSearchBatch | 02-search-panorama.py:140-146 | catching every unit's exception, the batch leaves the store as the fold of its units and counts the failures |
| PanoramaSearch.RunSearchBatch | 02-search-panorama.py:122-146 | claim `SEARCH_BATCH_SIZE` points and stop when the claim is empty; otherwise every claimed point is processed once with the lookup at its own coordinates, and the store is the fold in the order the units' writes commit (some reordering of the claim) |
| MetadataSearch.MetaStepFrame | 03-search-date-and-copyright.py:134-137 | a unit never adds or removes rows, touches only the named row and in it only date and copyright, and leaves the sample table alone |
| MetadataSearch.MetaStepOverwrites | 03-search-date-and-copyright.py:134-137 | a successful unit replaces both fields with the returned values, nulls included |
| MetadataSearch.MetaStepNoOp | 03-search-date-and-copyright.py:127-131 | `None`, a record with neither field, an exception, or an unknown id changes nothing |
| MetadataSearch.StaysEligible | 03-search-date-and-copyright.py:73 | an eligible panorama written with a field still null or empty stays eligible |
| MetadataSearch.MetaStepEligibility | 03-search-date-and-copyright.py:73 | after a unit, a row is eligible iff its written fields leave one null or empty (named row, success) or it was eligible before |
| MetadataSearch.MetaStepIdempotent | 03-search-date-and-copyright.py:134-137 | repeating a unit with the same outcome changes nothing more |
| MetadataSearch.MetaFoldAppend | 03-search-date-and-copyright.py:163-168 | a batch is its units applied one after another |
| MetadataSearch.FailedUnitIsInert | 03-search-date-and-copyright.py:142-143 | a unit that is not a success changes nothing for the rest of the batch |
| MetadataSearch.MetaFoldFrame | 03-search-date-and-copyright.py:135 | a batch keeps the set of panoramas, their fixed columns and the sample table |
| MetadataSearch.MetaFoldUntouched | 03-search-date-and-copyright.py:135 | a panorama no unit names is unchanged |
| MetadataSearch.MetaFoldDistinct | 03-search-date-and-copyright.py:157-168 | in a batch of distinct ids each named row ends with its own unit's fields if it succeeded, else unchanged |
| MetadataSearch.MetaFoldWf | 03-search-date-and-copyright.py:135 | a batch keeps the AUTOINCREMENT discipline |
| MetadataSearch.PartialMetadataScenario | 03-search-date-and-copyright.py:129-137 | null/null row, lookup gives date "2020-05" and no copyright: date set, copyright null, still eligible |
| MetadataSearch.GetPanoramasWithoutMetadata | 03-search-date-and-copyright.py:68-87 | min(batch, #eligible) distinct ids, each of an eligible panorama; read-only |
| MetadataSearch.SearchAndUpdate | 03-search-date-and-copyright.py:125-143 | the store becomes `MetaStep` of the old store and the logged status is `Status` of the outcome |
| MetadataSearch.ProcessMetadataBatch | 03-search-date-and-copyright.py:163-168 | the batch leaves the store as the fold of its units, with one status per unit |
| MetadataSearch.RunMetadataBatch | 03-search-date-and-copyright.py:146-168 | claim `SEARCH_BATCH_SIZE` panoramas and stop when the claim is empty; otherwise every claimed id is processed once, and the store is the fold in the order the units' writes commit (some reordering of the claim) |
| Progress.CountUnsearchedPoints | 04-check-progress.py:51-56 | the unsearched count is at most the total count |
| Progress.CountPanoramasWithMetadata | 04-check-progress.py:75-82 | the complete-metadata count is at most the panorama count |
| Progress.SearchedPlusUnsearched | 04-check-progress.py:88-90 | searched rows plus unsearched rows are all rows |
| Progress.SearchedPointsCount | 04-check-progress.py:90 | `total - unsearched` is exactly the number of searched rows |
| Progress.CompleteIsNotMissing | 04-check-progress.py:78 | complete metadata is the exact negation of the eligibility test of the metadata claim |
| Progress.CompletePlusMissing | 04-check-progress.py:75-82 | complete plus eligible panoramas is the panorama count |
| Progress.UnsearchedMonotone | 02-search-panorama.py:115 | when flags only move forward row by row, the unsearched count cannot grow |
| Progress.SearchBatchProgress | 04-check-progress.py:51-64 | a search batch keeps the total, never raises the unsearched count, never lowers the searched count |
| Progress.Ratios | 04-check-progress.py:91-114 | for nonzero divisors, the searched progress times the total points is the searched count, the metadata progress times the panoramas is the complete count, the ratio times the searched points is the panorama count, and the projection is total points times that ratio; progress ratios lie in [0, 1] and the projection is at least the panorama count |
| Progress.Report | 04-check-progress.py:85-114 | the report exists iff points, panoramas and searched points are all nonzero, otherwise the error of the first failing division; its counts are the table's total points, searched rows, panoramas and complete-metadata panoramas; each ratio is the quotient of those counts; progress ratios lie in [0, 1]; the projection is total points times panoramas per searched point, at least the panorama count |

## Left out

- GeoJSON loading, `namecol` lookup and `explode`: a zone is given as its name and its parts.
- Shapely `prep` and `contains` is an uninterpreted predicate of each part. `total_bounds` is given as data.
- Floating point: `SAMPLE_INTERVAL_DEGREE`, `np.arange` and the ratios of 04 are exact reals. Float rounding of the lattice length and values is not captured.
- Logging is not modelled because it is I/O only. This covers:
  - the progress CSV/JSON files, `log_progress`, tqdm, console prints, `os.system("clear")`, timings and speeds;
  - a failure inside `log_progress` (on the success path it would log `error` after the update).
- Thread pool concurrency: a batch is a sequential fold in the order the units' writes commit (some reordering of the claim), relying on SQLite to serialise writers. No interleaving inside a unit is modelled.
- `ORDER BY RANDOM()` is a nondeterministic choice, with no distribution.
- Network and I/O:
  - the Street View calls are outcome parameters;
  - SQLite I/O errors and the rollback of an uncommitted unit are not modelled;
  - the `GOOGLE_MAP_API_KEY` check (03-search-date-and-copyright.py:21-24) is startup configuration.
- Process control: the `while True` / `__main__` loops and `exit(0)` are reduced to one batch that returns `exhausted` instead of exiting.
- Integer widths: ids and counts are unbounded. SQLite's 64-bit AUTOINCREMENT limit is not modelled.
- Printing: the formatting of the report is not modelled. `Progress.Report` returns the numbers it prints.
