# door2door pipeline: the relational core, modelled in Dafny

The door2door pipeline is a daily batch of five stages:

1. It selects the day's event files from a source bucket and validates them.
2. It uploads the valid files to a `datalake` bucket.
3. It imports their records into three PostgreSQL tables: `vehicle_update`, `vehicle_registration` and `operating_period`.
4. It reconstructs operating periods from register and deregister events.
5. It aggregates per-period metrics (elapsed time, distance travelled) into `operating_period_metrics`.

Every row the import and the reconstruction append carries the run's correlation id. A metrics row the run inserts carries it too. A metrics row updated on conflict keeps the correlation id it had.

This project models the logic of these stages over in-memory tables and proves what it computes.

- **Rows and records** (`rows.dfy`, `records.dfy`)
  - The rows of the four tables.
  - The parsed event records, where every key is optional.
  - The classification of a record by its (`on`, `event`) pair.
- **Interval reconstruction** (`operating_periods.dfy`)
  - The self-join of `vehicle_registration`.
  - The `operating_period` rows the INSERT ... SELECT builds from each joined pair.
- **Metrics aggregation** (`period_metrics.dfy`)
  - The LAG window over location samples.
  - The join of samples with periods, and SQL `SUM` with NULLs.
  - `INSERT ... ON CONFLICT (operating_period) DO UPDATE` as an upsert over a table with one row per key.
  - The two statements of the task run in one transaction.
- **Record routing on import** (`import_records.dfy`)
  - The row each record becomes, or the `KeyError` it raises.
  - The rows a sequence of records appends.
- **The database and its tasks** (`store.dfy`)
  - Class `Database` holds the four tables as fields.
  - Each task is a method that reassigns them: the per-record loop of `import_json_to_psql`, the per-file loop of `fetch_and_import_to_psql`, the two SQL tasks, and the stages of a daily run in schedule order.
- **File validation, key selection and upload naming** (`bucket_validation.dfy`)
  - `valid_file` as a loop over an accumulator.
  - The basename date filter.
  - `os.path.basename` and `os.path.join`.
  - The upload each selected valid file becomes.
- **Worked cases** (`scenarios.dfy`)
  - One vehicle with one register and one deregister event and three location samples, from registrations to the final metrics row.

## Abstractions

The foreign pieces are abstracted as follows.

- Correlation ids, vehicle and organization ids are strings.
- Timestamps are integers, and `age(finish, start)` is `finish - start`.
- `ST_Distance(...::geography)` is an arbitrary function from two points to a non-negative real (`Geodesic`), passed in as a parameter.
- `uuid_generate_v4()` is a sequence of ids handed in by the caller.
- The three jsonschema validators are arbitrary predicates on records (`Validators`).
- The bucket listing, the file download and the temporary file name are inputs.

## Behaviour of the code worth knowing

- **Pairing.** A register row is paired with every later deregister row of its vehicle, not only the nearest one.
  - The deregister side is filtered neither by correlation id nor by organization.
  - See `OperatingPeriods.PairMultiplicity`, `OperatingPeriods.CorrelationScope` and `OperatingPeriods.AllLaterDeregistersPaired`.
- **LAG window.** The window runs over all samples of the (vehicle, correlation id) partition, not only those inside the period.
  - The first sample inside a period therefore contributes its distance from the sample before the period.
  - So a period with a single matching sample can get a non-NULL distance (`PeriodMetricsAggregation.LagReachesBeforePeriod`).
- **Periods with no matching sample.** The second statement proposes no row for them.
  - An existing row keeps its previous `distance_travelled`.
  - A row created by the first statement has NULL there, assuming the column defaults to NULL (see "## Left out").
  - This holds for every imported period with a NULL vehicle.
- **Import failures.** Import is not all-or-nothing.
  - A recognised record that lacks a key it reads raises `KeyError`.
  - The connection wrapper commits on exit whatever happened, so the rows inserted before the failing record stay.
  - The failure ends the whole import task.
- **Uniqueness of `operating_period_id`.** The model assumes no unique constraint on `operating_period_id` (see "## Left out"), so the import can store two periods with one id.
  - When two periods of a run share an id, the first metrics statement affects one key twice and PostgreSQL raises. A `create` and a `delete` record for the same period in one day's files are enough for this.
  - The transaction is rolled back, and the metrics table is unchanged (`PeriodMetricsAggregation.MetricsFailure`).
- **Grouping of the second statement.** It groups by period id. The model gives one proposed row per period of the run.
  - The two differ only when two periods share an id.
  - In that case the first statement already fails.

## Model

| member | source | states |
|---|---|---|
| OperatingPeriods.RegisterDeregisterPairs | plugins/tasks/calculate_operating_periods.py:34-38 | the rows of the self-join; each is a pair of rows of the table meeting the ON and WHERE conditions (the converse and the multiplicities are in PairMembership and PairMultiplicity) |
| OperatingPeriods.DerivedPeriods | plugins/tasks/calculate_operating_periods.py:22-39 | the statement inserts exactly one row per joined pair, in join order: the k-th row is the SELECT list (PeriodOf) of the k-th pair with the k-th generated id; with PairMultiplicity, the rows without their ids are the bag of joined pairs |
| OperatingPeriods.EveryJoinedPairYieldsPeriod | plugins/tasks/calculate_operating_periods.py:24-38 | every register row of the run with a strictly later deregister row of its vehicle yields an inserted period built from that pair |
| OperatingPeriods.PairMultiplicity | plugins/tasks/calculate_operating_periods.py:34-38 | the join is the bag product: a pair occurs (copies of r) × (copies of d) times when it meets the join condition, never otherwise; so every later deregister is paired, not only the nearest |
| OperatingPeriods.PairMembership | plugins/tasks/calculate_operating_periods.py:34-38 | a pair is produced iff both rows are in the table and r is a register row of the run, d a deregister row of the same vehicle with a strictly later time |
| OperatingPeriods.DerivedPeriodShape | plugins/tasks/calculate_operating_periods.py:24-38 | each inserted row comes from a register row r and a deregister row d of the same vehicle: start = r.event_time < finish = d.event_time, vehicle, organization and correlation id of r (= the run), event 'create' at r.event_time, id the k-th generated one |
| OperatingPeriods.NoLaterDeregisterNoPeriod | plugins/tasks/calculate_operating_periods.py:36 | a register row with no strictly later deregister row of its vehicle is in no pair |
| OperatingPeriods.CorrelationScope | plugins/tasks/calculate_operating_periods.py:36-38 | register rows of other runs give no pair; a later deregister row of any run is paired with each register row of the run for its vehicle |
| OperatingPeriods.DerivedIdsFresh | plugins/tasks/calculate_operating_periods.py:24-26 | insert-only: existing rows are kept as a prefix; with distinct unused generated ids the new rows' ids are pairwise distinct and distinct from every existing id |
| OperatingPeriods.AllLaterDeregistersPaired | plugins/tasks/calculate_operating_periods.py:34-38 | one register row and two later deregister rows (one from another run) give two pairs |
| PeriodMetricsAggregation.LagAmongSpec | plugins/tasks/calculate_operating_periods_metrics.py:59-62 | the search finds the window-latest predecessor of a sample in its (vehicle, correlation id) partition, and finds none exactly when there is none |
| PeriodMetricsAggregation.LagDistanceSpec | plugins/tasks/calculate_operating_periods_metrics.py:59-62 | LagDistance: a sample's distance is NULL iff it has no predecessor in its partition among all samples, and otherwise is the geodesic distance to the row LAG designates |
| PeriodMetricsAggregation.MatchedAmongSpec | plugins/tasks/calculate_operating_periods_metrics.py:54-65 | the join gives no row iff no sample has the period's vehicle, its correlation id and start ≤ location_time ≤ finish; each joined value is the windowed distance of such a sample |
| PeriodMetricsAggregation.PeriodSamples | plugins/tasks/calculate_operating_periods_metrics.py:65 | the positions of the samples joining a period: increasing, each in the period (same vehicle, same correlation id, start ≤ location_time ≤ finish), and every such sample among them |
| PeriodMetricsAggregation.MatchedAmongPositional | plugins/tasks/calculate_operating_periods_metrics.py:54-65 | the join lists each sample of the period exactly once, in table order, with its windowed distance |
| PeriodMetricsAggregation.MatchedDistancesPositional | plugins/tasks/calculate_operating_periods_metrics.py:50-69 | MatchedDistances, the values SUM aggregates for a period's group: one per sample of the period, each that sample's windowed distance |
| PeriodMetricsAggregation.SqlSumSpec | plugins/tasks/calculate_operating_periods_metrics.py:50 | SqlSum: SUM is NULL iff every input is NULL, and otherwise the total of the non-NULL inputs |
| PeriodMetricsAggregation.KeyIndex | plugins/tasks/calculate_operating_periods_metrics.py:40 | the first position holding the conflict key, or none when no row has it |
| PeriodMetricsAggregation.Lookup | plugins/tasks/calculate_operating_periods_metrics.py:40 | the row of a key is a row of the table with that key, and is absent iff no row has the key |
| PeriodMetricsAggregation.LookupSnoc | plugins/tasks/calculate_operating_periods_metrics.py:31-39 | an appended row is found for its key only when the key was absent before |
| PeriodMetricsAggregation.LookupUnique | plugins/tasks/calculate_operating_periods_metrics.py:40 | in a table with one row per key, looking up a row's key finds that row |
| PeriodMetricsAggregation.ApplyRowLookup | plugins/tasks/calculate_operating_periods_metrics.py:40-42 | one proposed row keeps one row per key, merges into the conflicting row or is appended, and leaves every other key's row alone |
| PeriodMetricsAggregation.ApplyRowsLookup | plugins/tasks/calculate_operating_periods_metrics.py:70-71 | ApplyRows, the upsert of a batch (Upsert raising on a repeated key): a batch of distinct keys keeps one row per key; a key of the batch gets its row inserted or only the statement's column overwritten; other keys' rows are unchanged |
| PeriodMetricsAggregation.TimeElapsedRowsSnoc | plugins/tasks/calculate_operating_periods_metrics.py:32-39 | one more period of the run adds its (id, finish − start, correlation id) row at the end of the first SELECT |
| PeriodMetricsAggregation.DistanceRowsSnoc | plugins/tasks/calculate_operating_periods_metrics.py:47-69 | one more period of the run adds its grouped row, if it has joined samples, at the end of the second SELECT |
| PeriodMetricsAggregation.RunRowsAbsent | plugins/tasks/calculate_operating_periods_metrics.py:38-39 | a SELECT over the run's periods proposes no row for a key that is no period id of the run |
| PeriodMetricsAggregation.RunRowsPresent | plugins/tasks/calculate_operating_periods_metrics.py:38-39 | when every period yields a row, a key with no proposed row is the id of no period of the run |
| PeriodMetricsAggregation.RunRowsDistinct | plugins/tasks/calculate_operating_periods_metrics.py:36-39 | distinct period ids in the run give a batch with distinct keys, and, when every period yields a row, only then |
| PeriodMetricsAggregation.RunRowsAt | plugins/tasks/calculate_operating_periods_metrics.py:36-39 | with distinct run ids, the batch's row for a period of the run is the row built from that period |
| PeriodMetricsAggregation.TimeElapsedFailure | plugins/tasks/calculate_operating_periods_metrics.py:30-43 | the first statement raises exactly when two periods of the run share an id |
| PeriodMetricsAggregation.TimeElapsedRowAt | plugins/tasks/calculate_operating_periods_metrics.py:32-39 | TimeElapsedRows: the first SELECT's row for a period of the run is (id, finish − start, correlation id), with distinct keys |
| PeriodMetricsAggregation.TimeElapsedRowAbsent | plugins/tasks/calculate_operating_periods_metrics.py:38-39 | the first SELECT proposes nothing for a key that is no period id of the run |
| PeriodMetricsAggregation.TimeElapsedKeys | plugins/tasks/calculate_operating_periods_metrics.py:30-43 | the first statement keeps one row per key |
| PeriodMetricsAggregation.TimeElapsedAtPeriod | plugins/tasks/calculate_operating_periods_metrics.py:30-43 | after the first statement a period of the run has time_elapsed = finish − start; an existing row keeps its distance and correlation id, a new row has a NULL distance |
| PeriodMetricsAggregation.TimeElapsedMergedAt | plugins/tasks/calculate_operating_periods_metrics.py:40-42 | the first statement's row for a period of the run is its proposed row merged into what was there |
| PeriodMetricsAggregation.TimeElapsedMerged | plugins/tasks/calculate_operating_periods_metrics.py:40-42 | on conflict only time_elapsed is taken from EXCLUDED |
| PeriodMetricsAggregation.TimeElapsedOutsideRun | plugins/tasks/calculate_operating_periods_metrics.py:38-39 | the first statement leaves the row of any key outside the run unchanged |
| PeriodMetricsAggregation.TimeElapsedUpsert | plugins/tasks/calculate_operating_periods_metrics.py:30-43 | with distinct run ids the first statement succeeds, keeps one row per key, sets time_elapsed of every period of the run (other columns of an existing row untouched) and leaves other keys alone |
| PeriodMetricsAggregation.DistanceRowAt | plugins/tasks/calculate_operating_periods_metrics.py:45-69 | DistanceRows: the second SELECT's row for a period of the run is the grouped row of its joined samples, if any, with distinct keys |
| PeriodMetricsAggregation.DistanceRowAbsent | plugins/tasks/calculate_operating_periods_metrics.py:66-67 | the second SELECT proposes nothing for a key that is no period id of the run |
| PeriodMetricsAggregation.DistanceKeys | plugins/tasks/calculate_operating_periods_metrics.py:45-72 | the second statement keeps one row per key |
| PeriodMetricsAggregation.DistanceAtPeriod | plugins/tasks/calculate_operating_periods_metrics.py:45-72 | with joined samples a period's row gets distance_travelled = SUM of their distances and nothing else of it changes; with none the row is as it was |
| PeriodMetricsAggregation.DistanceMergedAt | plugins/tasks/calculate_operating_periods_metrics.py:70-71 | the second statement's row for a period of the run is its proposed row, if any, merged into what was there |
| PeriodMetricsAggregation.DistanceMerged | plugins/tasks/calculate_operating_periods_metrics.py:70-71 | on conflict only distance_travelled is taken from EXCLUDED; no proposed row leaves the row alone |
| PeriodMetricsAggregation.DistanceOutsideRun | plugins/tasks/calculate_operating_periods_metrics.py:66-67 | the second statement leaves the row of any key outside the run unchanged |
| PeriodMetricsAggregation.DistanceUpsert | plugins/tasks/calculate_operating_periods_metrics.py:45-72 | once the first statement has succeeded the second cannot fail; it keeps one row per key, sets the summed distance of each period with joined samples and leaves everything else alone |
| PeriodMetricsAggregation.MetricsFailure | plugins/tasks/calculate_operating_periods_metrics.py:29-72 | MetricsAfter, both statements in one transaction: the two statements fail, and the table is rolled back, exactly when two periods of the run share an id; on success the table still has one row per key |
| PeriodMetricsAggregation.MetricsForPeriod | plugins/tasks/calculate_operating_periods_metrics.py:30-72 | after both statements every period of the run, NULL vehicle included, has exactly one row: finish − start, the SUM of its joined distances when it has joined samples (else the previous distance, NULL for a new row), and the correlation id of the row that was there or of the period |
| PeriodMetricsAggregation.SecondStatementAt | plugins/tasks/calculate_operating_periods_metrics.py:45-72 | the second statement turns the row the first statement wrote for a period into its expected final row |
| PeriodMetricsAggregation.MetricsAfterBoth | plugins/tasks/calculate_operating_periods_metrics.py:29-72 | with distinct run ids both statements succeed, one after the other |
| PeriodMetricsAggregation.ExpectedAfterBoth | plugins/tasks/calculate_operating_periods_metrics.py:40-42 | overwriting time_elapsed and then distance_travelled gives the expected final row |
| PeriodMetricsAggregation.MetricsOutsideRun | plugins/tasks/calculate_operating_periods_metrics.py:29-72 | rows of keys that are no period id of the run are left alone by the task |
| PeriodMetricsAggregation.MetricsIdempotent | plugins/tasks/calculate_operating_periods_metrics.py:29-72 | running the task again for the same run succeeds and changes no row and adds none |
| PeriodMetricsAggregation.NullVehicleJoinsNothing | plugins/tasks/calculate_operating_periods_metrics.py:65 | a period with a NULL vehicle joins no sample, so the second statement proposes no row for it |
| PeriodMetricsAggregation.LagReachesBeforePeriod | plugins/tasks/calculate_operating_periods_metrics.py:54-65 | the one sample inside a period contributes its distance from a sample taken before the period started |
| Records.KindOfSpec | plugins/tasks/fetch_and_import_to_psql.py:18-42 | KindOf, the if/elif dispatch on (on, event): a record has a kind iff both keys are present and the pair is one of the five of the table (vehicle/update, vehicle/register, vehicle/deregister, operating_period/create, operating_period/delete), and then the kind the table gives it; the same chain is at lines 30-40 of fetch_and_validate_bucket.py |
| FetchAndImport.Route | plugins/tasks/fetch_and_import_to_psql.py:17-53 | a record is skipped iff its (on, event) pair is unrecognised; each row kind comes only from its pair, carries the run's correlation id and the record's event; a period row has a NULL vehicle |
| FetchAndImport.UpdateRoundTrip | plugins/tasks/fetch_and_import_to_psql.py:20-31 | a vehicle/update record is imported as exactly the row it describes: vehicle_id = data.id, lat, lng and at from data.location, event_time = at, its organization, the run's correlation id |
| FetchAndImport.RegistrationRoundTrip | plugins/tasks/fetch_and_import_to_psql.py:32-41 | a vehicle/register or deregister record is imported as the row it describes, event kept |
| FetchAndImport.PeriodRoundTrip | plugins/tasks/fetch_and_import_to_psql.py:42-53 | an operating_period/create or delete record is imported as a period row with NULL vehicle and start and finish from data; a delete removes nothing |
| FetchAndImport.UpdateRowFromKeys | plugins/tasks/fetch_and_import_to_psql.py:20-31 | any vehicle/update record with all the keys its branch reads is imported as the row built from those keys alone, whatever other keys it carries |
| FetchAndImport.RegistrationRowFromKeys | plugins/tasks/fetch_and_import_to_psql.py:32-41 | any vehicle/register or deregister record with data.id, at and organization_id is imported as the row built from those keys and its event alone |
| FetchAndImport.PeriodRowFromKeys | plugins/tasks/fetch_and_import_to_psql.py:42-53 | any operating_period/create or delete record with data.id, data.start, data.finish, at and organization_id is imported as the period row built from those keys and its event alone, with NULL vehicle |
| FetchAndImport.RecognisedNeverSkipped | plugins/tasks/fetch_and_import_to_psql.py:20-53 | a recognised record is never skipped; it raises exactly when a key its branch reads is absent: for an update data, data.id, data.location, its lat, lng or at, at or organization_id; for a registration data, data.id, at or organization_id; for a period data, data.id, data.start, data.finish, at or organization_id |
| FetchAndImport.FirstMissing | plugins/tasks/fetch_and_import_to_psql.py:17-53 | the position of the first record that raises: no earlier record raises, and the one there does (or none does) |
| FetchAndImport.FirstMissingUnique | plugins/tasks/fetch_and_import_to_psql.py:17-53 | that position is the only one with this property |
| FetchAndImport.FirstMissingConcat | plugins/tasks/fetch_and_import_to_psql.py:17-53 | the first failure in a + b is the first in a, or else after all of a the first in b |
| FetchAndImport.InsertedRowsConcat | plugins/tasks/fetch_and_import_to_psql.py:17-53 | InsertedRows, the rows a sequence of records appends: rows are appended in record order: those of a + b are those of a followed by those of b, table by table |
| FetchAndImport.InsertedRowsStep | plugins/tasks/fetch_and_import_to_psql.py:17-53 | one more record appends its own rows after those of the records before it |
| FetchAndImport.InsertedRowsCorrelation | plugins/tasks/fetch_and_import_to_psql.py:17-53 | every appended row carries the run's correlation id; registration rows are register or deregister; period rows have a NULL vehicle |
| FetchAndImport.UnrecognisedChangesNothing | plugins/tasks/fetch_and_import_to_psql.py:17-53 | a record with any other (on, event) pair changes no table |
| FetchAndImport.InsertedRowsCount | plugins/tasks/fetch_and_import_to_psql.py:17-53 | when no record raises, exactly one row is appended per recognised record |
| FetchAndImport.RecognisedAtSnoc | plugins/tasks/fetch_and_import_to_psql.py:17-19 | one more record adds one recognised position iff its pair is recognised |
| FetchAndImport.CleanFileStep | plugins/tasks/fetch_and_import_to_psql.py:78-87 | importing one more file that raises nothing after clean files appends the rows of all their records in order |
| FetchAndImport.FailingFileStep | plugins/tasks/fetch_and_import_to_psql.py:78-87 | a file that raises after clean files holds the first failure of all the day's records, and the rows kept are those of the records before it |
| Warehouse.Database.constructor | plugins/tasks/ensure_table_creation.py:12-22 | a fresh database has four empty tables, one metrics row per key trivially |
| Warehouse.Database.InsertRecord | plugins/tasks/fetch_and_import_to_psql.py:18-53 | one record: its (on, event) pair picks the table, the row built from its keys is appended; false exactly when a read key is missing, and then nothing is appended |
| Warehouse.Database.ImportJsonToPsql | plugins/tasks/fetch_and_import_to_psql.py:14-53 | the tables become the old ones with the rows of the records before the first one that raises; false iff one raises; the metrics table is untouched |
| Warehouse.Database.FetchAndImportToPsql | plugins/tasks/fetch_and_import_to_psql.py:78-87 | the day's files, in listing order, through one committed connection: the rows of all records before the first that raises are kept; false iff one raises |
| Warehouse.Database.CalculateOperatingPeriods | plugins/tasks/calculate_operating_periods.py:21-39 | operating_period becomes the old rows followed by the derived periods; no other table changes |
| Warehouse.Database.CalculateOperatingPeriodsMetrics | plugins/tasks/calculate_operating_periods_metrics.py:68-72 | true iff the run's period ids are distinct, and then the metrics table is what both statements make of it; false leaves it as it was; one row per key is kept |
| Warehouse.Database.DailyRun | dags/door2door.py:88 | import, reconstruction and metrics in schedule order: the update and registration tables gain the rows of the day's records before the first that raises; an import failure leaves the imported periods and the metrics unchanged; otherwise the derived periods follow the imported ones, the metrics task succeeds iff the run's period ids are distinct and then the metrics table is what both statements make of it, else it is unchanged; on completion every period of the run has a metrics row with time_elapsed = finish − start |
| Warehouse.FlattenStep | plugins/tasks/fetch_and_import_to_psql.py:79-87 | the records of the first k + 1 files are those of the first k followed by the (k+1)-th file's |
| Warehouse.FlattenSplit | plugins/tasks/fetch_and_import_to_psql.py:79-87 | the day's records split around any one file |
| FetchAndValidate.ValidFile | plugins/tasks/fetch_and_validate_bucket.py:17-44 | the loop's flag holds iff every record of a recognised kind passes its kind's validator |
| FetchAndValidate.UnrecognisedOnlyIsValid | plugins/tasks/fetch_and_validate_bucket.py:28-44 | records of unrecognised kinds never make a file invalid, and an empty file is valid |
| FetchAndValidate.FileIsValidConcat | plugins/tasks/fetch_and_validate_bucket.py:28-44 | a file is valid iff both parts are: one invalid record rejects it wherever it sits |
| FetchAndValidate.Basename | plugins/tasks/fetch_and_validate_bucket.py:134 | the basename is the longest suffix without '/': it holds no '/' and is preceded by '/' unless it is the whole path |
| FetchAndValidate.Join | plugins/tasks/fetch_and_validate_bucket.py:70 | os.path.join of two components: an absolute second component replaces the first; otherwise they are concatenated when the first is empty or ends in '/', and separated by one '/' when it does not; the result always ends with the second |
| FetchAndValidate.BasenameAfterSlash | plugins/tasks/fetch_and_validate_bucket.py:134 | the basename of a/b, for b without '/', is b |
| FetchAndValidate.ObjectName | plugins/tasks/fetch_and_validate_bucket.py:69-70 | a given nonempty name is kept; otherwise the name is the file's basename for an empty prefix, prefix + basename for a prefix ending in '/', and prefix + '/' + basename for any other prefix |
| FetchAndValidate.DefaultNameSeparated | plugins/tasks/fetch_and_validate_bucket.py:69-70 | the default name of tmp/x.json under prefix 2024-01-01 is 2024-01-01/x.json, and under the empty prefix x.json |
| FetchAndValidate.SelectKeys | plugins/tasks/fetch_and_validate_bucket.py:117-123 | the comprehension selecting the day's keys keeps at most the listed keys (which ones and in what order: SelectKeysMembership, SelectKeysConcat) |
| FetchAndValidate.SelectKeysMembership | plugins/tasks/fetch_and_validate_bucket.py:117-123 | a key is selected iff it is listed and its basename starts with the date |
| FetchAndValidate.SelectKeysConcat | plugins/tasks/fetch_and_validate_bucket.py:117-123 | selection keeps listing order: the keys of a + b are those of a followed by those of b |
| FetchAndValidate.PlannedUploads | plugins/tasks/fetch_and_validate_bucket.py:126-145 | the uploads of the loop, at most one per selected key (which ones: PlannedUploadsMembership, PlannedUploadsSound) |
| FetchAndValidate.PlannedUploadsStep | plugins/tasks/fetch_and_validate_bucket.py:126-145 | one more key adds its upload at the end exactly when its file is valid |
| FetchAndValidate.UploadIgnoresTempName | plugins/tasks/fetch_and_validate_bucket.py:136-145 | the object name passed explicitly is used, whatever the temporary file is called; without it the file's own basename would be used |
| FetchAndValidate.FetchAndValidateBucket | plugins/tasks/fetch_and_validate_bucket.py:113-147 | the uploads made are, in order, those of the selected keys whose file is valid, and the run's date is returned |
| FetchAndValidate.PlannedUploadsMembership | plugins/tasks/fetch_and_validate_bucket.py:126-145 | a key's upload is made iff the key is selected and its file is valid |
| FetchAndValidate.UploadOfInjective | plugins/tasks/fetch_and_validate_bucket.py:137-145 | each key's planned upload, which records its source key, is distinct from every other key's (the object names may coincide: SameBasenameSameObject) |
| FetchAndValidate.PlannedUploadsComplete | plugins/tasks/fetch_and_validate_bucket.py:126-145 | every selected key whose file is valid has its upload made |
| FetchAndValidate.PlannedUploadsSound | plugins/tasks/fetch_and_validate_bucket.py:126-145 | nothing else is uploaded: each upload is that of a selected key whose file is valid |
| FetchAndValidate.UploadLandsUnderDate | plugins/tasks/fetch_and_validate_bucket.py:134-145 | a selected key's upload goes to datalake, under the folder date + "/" that the import lists, keeping the basename, which starts with the date |
| FetchAndValidate.SameBasenameSameObject | plugins/tasks/fetch_and_validate_bucket.py:134-145 | two source keys with the same basename get the same object name in datalake |
| Scenarios.ScenarioPeriods | plugins/tasks/calculate_operating_periods.py:22-39 | one register row and a deregister three hours later give exactly one period, [t0, t0 + 3h] |
| Scenarios.ScenarioDistances | plugins/tasks/calculate_operating_periods_metrics.py:54-65 | three hourly samples in the period are joined: NULL for the first, then each sample's distance from the previous one |
| Scenarios.SumOfTwo | plugins/tasks/calculate_operating_periods_metrics.py:50 | SUM over one NULL and two distances is their sum |
| Scenarios.ScenarioMetrics | plugins/tasks/calculate_operating_periods_metrics.py:30-72 | from an empty metrics table the run leaves one row: three hours elapsed and the sum of the two distances |
| Scenarios.BothStatementsOnEmpty | plugins/tasks/calculate_operating_periods_metrics.py:30-72 | on an empty table, one row from each statement for the same key leaves one row with the first's time and the second's distance |

## Left out

- MinIO: the client, the bucket listings, downloads, uploads, temporary files and `sys.exit` on a failed download. The listing and the records of each downloaded file are inputs. An upload is a value in the returned list, and a failed upload, whose exception the code swallows, is not modelled.
- Logging and `print` calls, which have no effect on the tables or the uploads.
- The jsonschema validators and `validate_jsonschema`: these are a foreign library, so the model takes three arbitrary predicates on records.
- `read_json_file`: its result depends on which JSON parse attempt succeeds, so the model takes the parsed records. A file that is not a list of objects, and record values of the wrong JSON type, are not modelled.
- `PSQL_connect`: modelled only through its effect. It commits on exit, so import rows before a failure stay. A statement that raises aborts the transaction, so a failing metrics task leaves the table as it was.
- `ensure_table_creation`: the table definitions are SQL files that are not part of this model. The constructor gives the four empty tables. The model assumes three things about those definitions:
  - `operating_period_metrics` has a unique key on `operating_period`, which ON CONFLICT (operating_period) requires.
  - There is no unique constraint on `operating_period_id` in `operating_period`, so the import can insert duplicate ids.
  - `distance_travelled` defaults to NULL, so a row the first metrics statement inserts has a NULL distance.
- `generate_correlation_id`: an MD5 hash of the run id. The correlation id is passed in as an opaque value.
- The Airflow DAG: only the stage order is modelled, in `Warehouse.Database.DailyRun`, which leaves out the bucket stage (it touches no table) and table creation (a fresh `Database`). Scheduling, retries and XCom are not modelled; the date the validation returns is simply an input of the import.
- `ST_Distance` on `geography` and `ST_Point`: PostGIS floating point, so the model takes an arbitrary non-negative function. Real addition stands for floating-point addition.
- `age()`: modelled as integer subtraction of timestamps, without calendar normalisation into an interval.
- `uuid_generate_v4`: the caller supplies the ids. `OperatingPeriods.DerivedIdsFresh` assumes, as a precondition, that they are distinct and unused.
- `dateutil` parsing and `strftime`: the date string is an input.
- SQL string interpolation: values are inserted as the typed values they denote. Quoting and injection are not modelled.
- PeriodMetricsAggregation.LagAmongSpec: SQL orders samples with equal `location_time` arbitrarily. The model fixes one such order, table position, so it states LAG for that order only.
- PeriodMetricsAggregation.DistanceRows: the second statement's GROUP BY is modelled as one proposed row per period of the run. With repeated period ids the two differ, but then the first statement has already raised.
- OperatingPeriods.RegisterDeregisterPairs: SQL returns the join as a bag. The model lists it register-major, so only multiplicities (`OperatingPeriods.PairMultiplicity`) are meaningful. The order in which the generated ids are assigned to the pairs is not.
- Concurrent runs writing the same tables are not modelled. Every task runs alone on the database.
