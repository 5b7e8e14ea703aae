# Airspace pipeline: a verified model

The repository polls a public ADS-B feed, lands the observations in PostgreSQL, aggregates them into
hourly and daily marts with dbt, and serves a dashboard from the marts. This project models the parts
where several pieces of code have to agree with each other, and proves that they do - or says exactly
when they do not.

| file | models |
|---|---|
| `StateVectors.dfy`, `Verdicts.dfy`, `Snapshots.dfy` | parsing and validating a response, rejecting rows and why, deduplicating a snapshot |
| `Landing.dfy` | the landing zone as tables updated in place: runs, the chunked `INSERT ... ON CONFLICT DO NOTHING` |
| `Protocol.dfy`, `Ingest.dfy` | one ingestion from start to finish, alone and among concurrent workers that may crash anywhere |
| `History.dfy` | what the record of a run says about the response behind it, in every interleaving |
| `Deadlock.dfy`, `TwoLoads.dfy`, `Orphans.dfy` | when such workers wait for each other in a circle, and when they leave rows that no finished run accounts for |
| `Gridded.dfy`, `HourlyMart.dfy`, `MartRuns.dfy` | hour, cell and band of a row; the hourly mart, its incremental build, its reconciliation test, and all of them over whole runs |
| `DailyMart.dfy` | the daily profile against the hourly mart |
| `Direction.dfy`, `Recombination.dfy`, `Accuracy.dfy`, `Density.dfy`, `DashboardRows.dfy` | circular means, their storage in rounded polar form, the dashboard's recombination, how far what it shows can be from the truth, and of which landed rows |
| `Pipeline.dfy` | ingestion and marts together |
| `Migrations.dfy`, `OpenSky.dfy` | the migration runner, and the API client with its token cache |
| `Cadence.dfy`, `RecordedRuns.dfy` | the polling loop and its credit budget, by cycle starts and as recorded |
| `Wrappers.dfy`, `Reals.dfy`, `Sums.dfy`, `Rounding.dfy`, `Clock.dfy` | shared vocabulary: options, products of reals, SQL sums, `round`, timestamps |

Reading notes.

- `raw.state_vectors` is a map from its primary key to the row; a transaction that has not committed is
  a map of its own. Timestamps are whole microseconds; values are reals, so rounding happens only where
  the code calls `round`. Rounding is that of `numeric`: halves away from zero.
- An hour or a bucket is a set of observations, and a mart row is a function of that set. Sums and
  averages over sets need a choice of order, so these functions are ghost, and so is the mart's content
  in `MartRuns.Warehouse`; `Sums.SumTake` shows that the order makes no difference.
- Trigonometry is a parameter, `Direction.Trig`, of which only `Laws()` is known: points on the unit
  circle, a full turn, chords no longer than arcs, a bearing per direction, square roots, polar form.
- Code that loops or updates fields is modelled by methods and classes, each proved equal to a
  specification function about which the lemmas speak.

## Where the code and its documentation differ

The model follows the code; each difference is stated with its exact condition.

- "One bad row never fails the batch" (`ingestion/models.py:219`): a NaN category does
  (`Snapshots.OneBadNumberFailsTheBatch`). A row raises if and only if its identity is acceptable and the
  first of its other fields to fail holds a number the field cannot represent (`StateVectors.RaisesExactly`),
  and a body fails if and only if one of its rows does (`Snapshots.BodyFailsExactlyWhen`).
- "The same bounds the Python parser enforces" (`db/migrations/0001_raw_state_vectors.sql:90`): the
  table also bounds the code's length and two small integers (`StateVectors.AcceptedIsStorableExactlyWhen`).
- Every affected hour is rebuilt wholesale, within a lookback (`fct_airspace_activity_hourly.sql:13-19`):
  true, but the lookback counts back from the newest hour in the mart, so one row stamped ahead of its
  time shortens it for everyone (`MartRuns.LookbackFromTheClock`, `MartRuns.StampAheadShutsRowsOut`).
- The reconciliation test "catches the late-arrival failure mode" (`assert_hourly_mart_reconciles_with_source.sql:4-7`):
  exactly in closed hours. After a build it passes over a stale mart if and only if there are late hours and all
  of them are still open by the clock (`MartRuns.TestPassesExactlyWhen`, `MartRuns.TestCanPassOverLateRow`).
- "Re-deriving the angle is exact" (`api/queries.py:51`): exact before the stored columns are rounded
  (`Recombination.RecombinationIsExact`). Afterwards samples that all head 0.04 degrees come back as due
  north (`Accuracy.StoringCanMoveTheMean`); a single bucket comes back unchanged if and only if its length
  rounds to itself and that length is zero or the bearing rounds to itself (`Accuracy.OneBucketIsExactWhen`);
  several if and only if what storing did to each cancels out (`Accuracy.ExactExactlyWhenErrorsCancel`);
  and any number of buckets within fixed bounds (`Recombination.StoredRecombinesNearMean`,
  `Accuracy.ShownIsNearTruth`).
- Only "timeouts, connection errors, 5xx" are retried (`ingestion/opensky.py:9-10`): so is a 200 whose
  body is not of the expected shape (`OpenSky.RetriedExactlyWhen`).
- A bearing "the way a compass reads", in the mart and on the dashboard: it reads 360.0 if and only if the
  unrounded bearing is 359.95 or more (`Accuracy.StoredBearingIs360ExactlyWhen`,
  `Accuracy.BearingIs360ExactlyWhen`).
- "Credits this configuration would consume over 24h" (`ingestion/config.py:117`): an upper bound exactly
  when the interval divides the day (`Cadence.BudgetHoldsExactlyWhen`), and as recorded exactly when runs are
  also recorded without delay (`RecordedRuns.RecordedBudgetHoldsExactlyWhen`).

## Model

| member | source | states |
|---|---|---|
| `MartRuns.Warehouse.BuildMart` | transform/models/marts/fct_airspace_activity_hourly.sql:21-42 | staging a batch, deleting every row of its hours and inserting it is the build step that the theorems below are about: a full rebuild the first time or on demand, incremental otherwise |
| `MartRuns.Warehouse.LoadRows` | ingestion/loader.py:119-125 | landing rows while the warehouse runs is the row-by-row first-wins load |
| `MartRuns.EveryHourIsASnapshot` | transform/models/marts/fct_airspace_activity_hourly.sql:13-16 | in every run of loads and builds, every hour of the mart is, row for row, what one earlier build saw: never a mixture |
| `MartRuns.ReconciliationOverRuns` | transform/tests/assert_hourly_mart_reconciles_with_source.sql:14-46 | in every run, the count-only test reports exactly the closed hours in which some bucket or column differs from a full rebuild |
| `MartRuns.TestPassesExactlyWhen` | transform/tests/assert_hourly_mart_reconciles_with_source.sql:1-12 | right after any build, wherever its cutoff lies: the test passes if and only if every hour in which a row came late is still open by the clock; the mart is a full refresh if and only if there is no late hour, which is if and only if no row came late; and the two coincide while the cutoff is not ahead of the clock |
| `MartRuns.TestReportsExactlyLateHours` | transform/tests/assert_hourly_mart_reconciles_with_source.sql:14-46 | after any build the test's rows are exactly the closed hours in which a row came late |
| `MartRuns.HourIsFreshExactlyWhen` | transform/models/marts/fct_airspace_activity_hourly.sql:13-19 | after any build an hour equals its full rebuild if and only if no load since the last rebuild from scratch added a positioned row to it while it was below the cutoff |
| `MartRuns.StaleExactlyWhenLate` | transform/models/marts/fct_airspace_activity_hourly.sql:13-19 | between builds the same below the cutoff, and late hours are only ever there |
| `MartRuns.TestCanPassOverLateRow` | transform/tests/assert_hourly_mart_reconciles_with_source.sql:1-12 | a run in which the test passes although the mart is not a full refresh: a stamp ahead, then a late row in an open hour |
| `MartRuns.BuildIsFullExactlyWhen` | transform/models/marts/fct_airspace_activity_hourly.sql:18-42 | after any build the whole mart equals a full refresh if and only if no load since the last rebuild from scratch added a positioned row below the cutoff of its time |
| `MartRuns.CleanExactlyWhenNoLateRows` | transform/models/marts/fct_airspace_activity_hourly.sql:8-19 | between builds too: nothing below the cutoff is stale if and only if no row came late |
| `MartRuns.CutoffNeverDecreases` | transform/models/marts/fct_airspace_activity_hourly.sql:33-39 | no load, build or full refresh moves the cutoff back |
| `MartRuns.BelowCutoffIsFrozen` | transform/models/marts/fct_airspace_activity_hourly.sql:33-39 | an hour below the cutoff stays as it is through any further loads and builds until a full refresh |
| `MartRuns.StaleStaysStale` | transform/models/marts/fct_airspace_activity_hourly.sql:18-19 | an hour gone stale below the cutoff stays stale until a full refresh |
| `MartRuns.RebuildIsIdempotent` | transform/models/marts/fct_airspace_activity_hourly.sql:15-16 | building again with nothing landed in between changes nothing |
| `MartRuns.LookbackFromTheClock` | transform/models/marts/fct_airspace_activity_hourly.sql:33-39 | the next build reads everything within the lookback of the clock's hour if and only if no mart hour is ahead of the clock |
| `MartRuns.StampAheadShutsRowsOut` | transform/models/marts/fct_airspace_activity_hourly.sql:33-39 | after one row stamped ahead, the build after a second row is a full refresh if and only if that row is within the lookback of the first |
| `MartRuns.RawOnlyGrows` | db/migrations/0001_raw_state_vectors.sql:3-6 | over any run, what landed earlier is still there unaltered |
| `MartRuns.RawIsWhatWasLoaded` | transform/models/marts/fct_airspace_activity_hourly.sql:28-30 | builds only read the landed table: it is the loads, one after the other |
| `HourlyMart.IncrementalByHour` | transform/models/marts/fct_airspace_activity_hourly.sql:21-42 | an incremental build makes every hour at or after its cutoff equal to a full rebuild and leaves every earlier hour untouched |
| `HourlyMart.RecentByHour` | transform/models/marts/fct_airspace_activity_hourly.sql:32-40 | the filter on `observed_at` takes each hour whole or not at all |
| `HourlyMart.CutoffIsAligned` | transform/models/marts/fct_airspace_activity_hourly.sql:34-37 | the cutoff is the start of an hour |
| `HourlyMart.DeleteInsertByHour` | transform/models/marts/fct_airspace_activity_hourly.sql:21-26 | after a delete and insert every hour comes whole from the batch or whole from the old mart |
| `HourlyMart.ReconciliationIsComplete` | transform/tests/assert_hourly_mart_reconciles_with_source.sql:14-46 | over any mart whose hours come from earlier states of an append-only table, the test's rows are exactly the stale closed hours |
| `HourlyMart.CountsDecide` | transform/tests/assert_hourly_mart_reconciles_with_source.sql:36-46 | for such an hour equal counts mean equal rows in every column, the null cases of the outer join included |
| `HourlyMart.CountsAddUp` | transform/models/marts/fct_airspace_activity_hourly.sql:44-76 | the buckets partition the observations: their counts add up to all of them |
| `HourlyMart.EveryRowCountedOnce` | transform/tests/assert_hourly_mart_reconciles_with_source.sql:1-2 | a full rebuild counts every landed row that has a latitude and a longitude, on the ground or not, once and only once |
| `HourlyMart.SliceOfGroupBy` | transform/models/marts/fct_airspace_activity_hourly.sql:46-76 | an hour of the mart depends on the observations of that hour only |
| `HourlyMart.ColumnsDescribeBucket` | transform/models/marts/fct_airspace_activity_hourly.sql:52-73 | how a bucket's counts and times bound, and are bounded by, its observations |
| `HourlyMart.ColumnsAre` | transform/models/marts/fct_airspace_activity_hourly.sql:52-73 | every column of a bucket from its own observations: counts, distinct aircraft and runs, both averages to their places, and the rounded circular mean of the known tracks |
| `HourlyMart.RowsOfGroupBy` | transform/models/marts/fct_airspace_activity_hourly.sql:44-76 | one row for each hour, cell and band that occur together, over exactly the observations that share them |
| `HourlyMart.AveragesDescribeBucket` | transform/models/marts/fct_airspace_activity_hourly.sql:57-58 | each average is null exactly when no value is known, and otherwise times the number of values is their sum, to half a unit of its rounding per value; so it lies among the values |
| `Pipeline.BuildsReadTheLandingZone` | transform/models/staging/stg_opensky__state_vectors.sql:9-11 | for every interleaving of workers, the table the marts read is the committed snapshots in commit order |
| `Pipeline.EveryLandedRowIsCounted` | transform/tests/assert_hourly_mart_reconciles_with_source.sql:1-2 | with concurrent, crashing workers and builds at any time: after a build with no late row behind it the mart counts every landed row that has a latitude and a longitude, on the ground or not, once |
| `Gridded.ObservationIsFiledRight` | transform/models/intermediate/int_state_vectors__gridded.sql:29-39 | a row is filed under the band that holds its own altitude in feet, the cell that holds its position, the hour that holds its time, and the day that holds that hour |
| `Gridded.ObservationIsItsRow` | transform/models/intermediate/int_state_vectors__gridded.sql:13-66 | an observation is its row: code, time and provenance; altitude times 3.280839895 and speed times 1.943844, nulls included; and a heading if and only if the row is airborne and has a track, with the sine and cosine of that track |
| `Gridded.ObservationsAre` | transform/models/intermediate/int_state_vectors__gridded.sql:13-19 | the rows with a latitude and a longitude, on the ground or not, are observed, and nothing else is |
| `Gridded.CellIsOnGrid` | transform/models/intermediate/int_state_vectors__gridded.sql:29-30 | cell edges are multiples of the grid |
| `Gridded.OnlyCell` | transform/models/intermediate/int_state_vectors__gridded.sql:29-30 | and a point is in the only cell that holds it |
| `Gridded.CellHoldsPoint` | transform/models/intermediate/int_state_vectors__gridded.sql:29-30 | the floor of a coordinate is the lower edge of the half-open cell around it |
| `Gridded.UnitsAgree` | transform/models/staging/stg_opensky__state_vectors.sql:32-37 | the conversion factors are the foot of 0.3048 m and the nautical mile of 1852 m, to the digits given |
| `Gridded.OneObservationPerRow` | transform/models/intermediate/int_state_vectors__gridded.sql:13-19 | distinct landed rows stay distinct observations |
| `Gridded.ObservationsGrow` | transform/models/intermediate/int_state_vectors__gridded.sql:13-66 | a growing table only adds observations |
| `Gridded.TracksAreUnit` | transform/models/intermediate/int_state_vectors__gridded.sql:52-59 | every airborne heading is a unit vector |
| `Clock.AlignedBoundary` | transform/models/staging/stg_opensky__state_vectors.sql:20 | a row is past an hour boundary exactly when its hour is |
| `Clock.HourWithinDay` | transform/models/staging/stg_opensky__state_vectors.sql:20-21 | an hour lies within one date |
| `DailyMart.HourlyCountsAddUpToDaily` | transform/models/marts/fct_airspace_activity_daily.sql:20-42 | for each date and band the hourly counts of a synchronised mart add up to the daily count |
| `DailyMart.DailyAircraftBetween` | transform/models/marts/fct_airspace_activity_daily.sql:3-7 | daily distinct aircraft lies between the largest and the sum of the hourly figures, and equals the sum exactly when no aircraft was in two buckets |
| `DailyMart.AircraftCannotBeSummed` | transform/models/marts/fct_airspace_activity_daily.sql:3-7 | the same for any set of observations |
| `DailyMart.CoverageRollsUp` | transform/models/marts/fct_airspace_activity_daily.sql:29-37 | the daily cells, first and last moment are those of the hourly rows |
| `DailyMart.ProfileIs` | transform/models/marts/fct_airspace_activity_daily.sql:24-37 | every count and average of a daily row from its own observations |
| `DailyMart.ProfileTimes` | transform/models/marts/fct_airspace_activity_daily.sql:33-37 | its first and last moments are attained and bound the rest |
| `DailyMart.RowsOfDaily` | transform/models/marts/fct_airspace_activity_daily.sql:20-42 | one row for each date and band that occur together, over exactly the observations that share them |
| `Direction.Compass` | transform/models/marts/fct_airspace_activity_hourly.sql:85-101 | bearing in [0, 360) and length are the polar form of the mean vector, and convert back to it |
| `Direction.LengthMeasuresAgreement` | transform/models/marts/fct_airspace_activity_hourly.sql:92-101 | the resultant length of a non-empty bucket lies in [0, 1] and is 1 if and only if all its headings coincide |
| `Direction.AgreementKeepsBearing` | transform/models/marts/fct_airspace_activity_hourly.sql:85-101 | when all headings coincide, the bearing reported is that heading and the length is 1 |
| `Direction.StoredDirectionInRange` | transform/models/marts/fct_airspace_activity_hourly.sql:87-101 | after rounding a bearing is in [0, 360] and a length in [0, 1] |
| `Direction.StoredIsOnGrid` | transform/models/marts/fct_airspace_activity_hourly.sql:87-101 | a stored bearing is a whole number of tenths, a stored length of thousandths |
| `Direction.StoredBearingCanReach360` | transform/models/marts/fct_airspace_activity_hourly.sql:87-90 | 360.0 is reached, by samples that all head 359.97 degrees |
| `Accuracy.StoredBearingIs360ExactlyWhen` | transform/models/marts/fct_airspace_activity_hourly.sql:87-90 | the mart's bearing reads 360.0 if and only if the unrounded bearing of the mean is 359.95 or more, and is below 360 otherwise |
| `Accuracy.BearingIs360ExactlyWhen` | api/queries.py:79-81 | the same for whatever vector a bearing is derived from, so for the bearing shown |
| `Recombination.RecombinationIsExact` | api/queries.py:48-69 | before rounding, for every partition into buckets, empty ones included, the sample-weighted recombination is the mean of all samples, and null only when there are none |
| `Recombination.DashboardAgreesWithOneBigBucket` | api/queries.py:79-84 | so the derived bearing and length are those of one bucket holding everything |
| `Recombination.RecombinationError` | api/queries.py:64-69 | after rounding, each component of the recombined vector is within 0.0005 + 0.05 degrees of arc of the unrounded one, however many buckets and samples |
| `Recombination.StoredRecombinesNearMean` | api/queries.py:48-69 | hence within that distance of the true mean of the samples, and null exactly when there is none |
| `Recombination.ToleranceIsSmall` | api/queries.py:64-69 | that distance is below 0.0014 |
| `Accuracy.OneBucketIsExactWhen` | api/queries.py:48-54 | a single stored bucket recombines to its own vector if and only if its length rounds to itself and either that length is zero or the bearing rounds to itself |
| `Accuracy.SurvivesExactlyWhen` | api/queries.py:48-54 | the same for one stored direction |
| `Accuracy.SurvivingBucketsAreExact` | api/queries.py:48-54 | any number of buckets whose directions all survive being stored recombine exactly |
| `Accuracy.ExactExactlyWhenErrorsCancel` | api/queries.py:64-69 | any number of buckets recombine exactly if and only if the sample-weighted changes that storing made to each add up to nothing |
| `Accuracy.StoringCanMoveTheMean` | api/queries.py:48-54 | a case where it does not: all samples heading 0.04 degrees |
| `Accuracy.LengthsAreClose` | api/queries.py:82-84 | vectors within e of each other in each component have lengths within 2e |
| `Accuracy.BearingsAreClose` | api/queries.py:79-81 | and their bearings' sines and cosines, times the length of either, within 3e |
| `Accuracy.ShownIsNearTruth` | api/queries.py:79-84 | the length shown is within twice the tolerance plus 0.0005 of the true one; the true length times the error of the shown bearing's sine or cosine is at most three tolerances plus 0.05 degrees of arc; and where the length shown is at least 0.55, the least for which an arrow is drawn, that error is at most 0.0086 |
| `Recombination.ShownDirectionInRange` | api/queries.py:79-84 | whatever stored directions are recombined, the bearing shown is in [0, 360] and the length in [0, 1] |
| `Density.DashboardIsFaithful` | api/queries.py:57-86 | over a mart in step with its source from the window's start on, whatever is stale before it, each cell counts its observations and track samples once, over-counts aircraft exactly when one was in two buckets, and shows no direction exactly when there is no sample; otherwise one in range, at 360.0 exactly from 359.95 on, whose length and bearing are within the bounds above of those of the observations themselves |
| `Density.DashboardIsFaithfulAfterBuild` | api/queries.py:57-86 | in every run, after a build, over any window without late hours |
| `DashboardRows.DashboardShowsRows` | api/queries.py:57-86 | down to the landed rows: a cell counts the rows with a position in it, on the ground or not; its samples are the airborne ones with a track, each once; and the direction shown is near the circular mean of exactly those rows' own degrees, or null when there is none |
| `DashboardRows.DashboardShowsRowsAfterBuild` | api/queries.py:57-86 | the same in every run, after a build, over any window without late hours |
| `DashboardRows.EveryRowIsOnTheMap` | api/queries.py:57-86 | every landed row of the window with a position is behind some cell listed |
| `Density.NothingLateFromCutoffOn` | transform/models/marts/fct_airspace_activity_hourly.sql:33-39 | which is every window that starts at or after the cutoff |
| `Density.MartStoresSummaries` | transform/models/marts/fct_airspace_activity_hourly.sql:60-65 | the mart's direction columns are the rounded summaries of a partition of the airborne observations |
| `Protocol.StepKeepsInv` | ingestion/loader.py:64-203 | every step of every worker keeps: keys unique, rows referring to existing runs, open transactions apart, succeeded runs balanced |
| `Protocol.EveryStateIsSound` | ingestion/run.py:66-106 | so every state of every interleaving, with failures and crashes anywhere, satisfies it |
| `Protocol.LandedRowsNeverChange` | db/migrations/0001_raw_state_vectors.sql:3-6 | a landed row keeps its payload and the run that first committed it |
| `Protocol.SucceededRunsStayTrue` | ingestion/run.py:78-106 | at every later time a succeeded run's record is unchanged, received = rejected + inserted + duplicate, and inserted is the number of landed rows carrying its id |
| `History.SucceededRunTells` | ingestion/run.py:78-101 | behind every succeeded run, in every interleaving, there is one response: the record has its time and status, the size of its body, its unacceptable rows as rejected and its acceptable ones not inserted as duplicate; and a committed load is the first row of each key in that body, under the run's id |
| `History.FailedRunTells` | ingestion/run.py:102-106 | behind every failed run there is the handler's step, whose message and time it has, and no counts |
| `History.RunWasStarted` | ingestion/loader.py:64-93 | a run's credits and start are those it was started with |
| `History.RecordsAreFilledByStatus` | ingestion/loader.py:157-203 | which columns of a run are filled in, by its status |
| `History.AnyResponseCanSucceed` | ingestion/run.py:78-101 | from any reachable state in which no insert is open, any response that parses and is storable leads to a succeeded run |
| `History.AnyWorkerCanFail` | ingestion/run.py:102-106 | from any reachable state any worker can fail, which leaves the table as it is and its run `failed` |
| `History.AnyWorkerCanCrash` | ingestion/loader.py:64-76 | from any reachable state any worker can crash, which changes no table and no other worker |
| `Protocol.ReleasedRunsAreFinal` | ingestion/loader.py:73-76 | a run no worker holds is never written again: a crashed one stays `running` |
| `Protocol.InterleavingsAreSerial` | ingestion/loader.py:3-7 | concurrency cannot be seen in the table: it is the committed snapshots loaded row by row in commit order |
| `Protocol.CommitIsALoad` | ingestion/loader.py:112-127 | an insert transaction that met other workers' rows on the way still equals a row-by-row load at its commit |
| `Protocol.CrashAfterCommitOrphansRows` | ingestion/run.py:83-101 | a crash between the insert and the finish leaves rows whose run stays `running` for good |
| `Orphans.OrphanedExactlyWhen` | ingestion/run.py:78-106 | in every run of the protocol, landed rows belong to a run that is recorded as running and that no worker holds if and only if a worker crashed earlier with rows of that run landed |
| `Orphans.AnyRowCanBeOrphaned` | ingestion/run.py:78-106 | for any storable observation a run of the protocol that gets there |
| `Deadlock.OneOrderHasNoCircle` | ingestion/loader.py:112-125 | workers whose loads list their keys in one order, whatever order, never wait for each other in a circle, whatever other open loads do |
| `Deadlock.OneOrderNeverDeadlocks` | ingestion/loader.py:112-125 | so if all open loads do, there is no circle at all |
| `Deadlock.ReachableStatesInOrderDoNotDeadlock` | ingestion/loader.py:112-125 | in any reachable state |
| `Deadlock.WaitsExactlyWhenStuck` | ingestion/loader.py:112-125 | a worker waits for another if and only if its next row passes the table's checks and yet cannot be inserted |
| `Deadlock.OppositeOrdersCanDeadlock` | ingestion/loader.py:112-125 | any two storable observations, listed in opposite orders by two snapshots, lead to a reachable standstill, which is a circle |
| `TwoLoads.TwoLoadsDeadlockExactlyWhen` | ingestion/loader.py:112-125 | in any reachable state with exactly two open loads, of any length and with or without rows the table refuses: while no further load is opened they can come to wait for each other if and only if the first key that each lists among those both would insert and the table lacks differs, and neither has already inserted the other's |
| `TwoLoads.FreshLoadsDeadlockExactlyWhen` | ingestion/loader.py:112-125 | for two loads that have not started inserting: if and only if those first keys differ, which the two snapshots and the table decide |
| `TwoLoads.LandedRowsAreStorable` | db/migrations/0001_raw_state_vectors.sql:80-99 | in every reachable state all landed rows pass the table's checks |
| `Ingest.IngestOnce` | ingestion/run.py:44-128 | a completed ingestion books every received row once - its record counts as rejected the unacceptable rows and as duplicate the acceptable ones not inserted - and grows the table by exactly the accepted rows; it completes if and only if the run id is new, the snapshot arrived, parses and is storable; a failure leaves the table alone and the run `failed` with the exception's text and no counts; a dry run changes nothing and fails exactly when the fetch or the parse does |
| `Ingest.Attempt` | ingestion/run.py:78-106 | the `try` and its handler, once the run row is there |
| `Ingest.Rehearse` | ingestion/run.py:49-64 | the dry run |
| `Ingest.FetchAndLoad` | ingestion/run.py:78-101 | the part inside the handler's `try` |
| `Landing.LandingZone.InsertStateVectors` | ingestion/loader.py:96-127 | all chunks land or none; what lands is the row-by-row load under the run and times given, and the count is the growth of the table, for every batch size; it fails if and only if the batch size is zero, a chunk needs more than 65535 parameters, a vector breaks a check of the table, or something new lacks its run |
| `Landing.InsertChunks` | ingestion/loader.py:110-127 | the chunk loop against that specification |
| `Landing.StatementIsRowByRow` | ingestion/loader.py:119-125 | a multi-row statement does what its rows would do one at a time and counts what it added |
| `Landing.LandMeaning` | db/migrations/0001_raw_state_vectors.sql:83-88 | a load keeps earlier rows, adds exactly the new keys, and each with its first payload |
| `Landing.DeduplicatingFirstChangesNothing` | ingestion/run.py:81-85 | deduplicating a snapshot before loading it changes nothing in the table |
| `Landing.ReplayChangesNothing` | ingestion/loader.py:3-7 | replaying any earlier load, under any later run, leaves the table as it is |
| `Landing.FirstLoadWins` | db/migrations/0001_raw_state_vectors.sql:107-108 | the payload of a key is that of the first load that carried it |
| `Landing.LandAllMeaning` | ingestion/loader.py:3-7 | the landed keys are the union of all loads' keys |
| `Landing.LoadOrderKeepsKeys` | ingestion/loader.py:3-7 | whatever the order of the loads |
| `Landing.LandingZone.StartRun` | ingestion/loader.py:64-93 | a new run is `running`, costs the credits estimated, starts now and has no outcome; a taken id is refused and changes nothing |
| `Landing.LandingZone.FinishSucceeded` | ingestion/loader.py:157-203 | field by field: the run is `succeeded` with the end, status code, snapshot time and the received, rejected, inserted and duplicate counts it was given, and no error; it keeps its start and its credits, and nothing else changes |
| `Landing.LandingZone.FinishFailed` | ingestion/loader.py:157-203 | the run is `failed` with an end, its counts wiped and its message - null exactly when empty - cut to its first 2000 characters; it keeps its start and credits, and nothing else changes |
| `StateVectors.AcceptedIsPlausible` | ingestion/models.py:139-211 | every accepted vector is normalised, in range, plausibly dated, and dated by its position report if it has one |
| `StateVectors.RowsRoundTrip` | ingestion/models.py:139-211 | every plausible vector is what its own row parses to, field by field: with the above, the parser produces exactly the plausible vectors |
| `StateVectors.AcceptedExactlyWhen` | ingestion/models.py:139-211 | a row is accepted if and only if each of its fields, taken alone, is acceptable |
| `StateVectors.AcceptedIsItsRow` | ingestion/models.py:139-211 | every column of an accepted vector is the field of its own position in the row, converted: text stripped, the code also in lower case, stamps to the nearest microsecond, integers truncated |
| `StateVectors.StripIs` | ingestion/models.py:121-128 | stripped text is the given one without its leading and trailing blanks |
| `StateVectors.KeyIsCodeAndTime` | ingestion/models.py:84-85 | what identifies a vector is its code and its time |
| `Verdicts.FirstProblemDecides` | ingestion/models.py:88-211 | the first of a row's problems, in the order of validation, decides its fate: none accepts it, one with a reason code rejects it with that code, an unrepresentable number raises |
| `StateVectors.EpochToUtc` | ingestion/models.py:96-105 | an accepted stamp lies between the year 2000 and a day ahead of the clock; no stamp raises |
| `StateVectors.AcceptedIsStorableExactlyWhen` | db/migrations/0001_raw_state_vectors.sql:80-99 | an accepted vector passes the table's checks if and only if its code is at most 12 long and its two codes fit a smallint |
| `StateVectors.RefusedExactlyWhen` | db/migrations/0001_raw_state_vectors.sql:80-99 | which vectors the table refuses, in its own bounds |
| `StateVectors.TooLongACodeIsAcceptedButNotStorable` | db/migrations/0001_raw_state_vectors.sql:90-99 | one that does not |
| `StateVectors.RaisesExactly` | ingestion/models.py:108-211 | any row makes the parser raise if and only if it is long enough, its identity is acceptable, and the first of its other fields to fail, in the order of validation, holds a number the field cannot represent |
| `StateVectors.RaisesOnlyOnUnrepresentable` | ingestion/models.py:108-136 | when the parser raises, some field holds a number it cannot represent |
| `StateVectors.RejectionShieldsLaterNumbers` | ingestion/models.py:171-172 | a row rejected earlier does not raise, whatever numbers come later |
| `Snapshots.ParseStates` | ingestion/models.py:214-233 | the parse loop returns the accepted vectors and the rejected rows, in order, or raises with the first row that raises |
| `Snapshots.ParseConserves` | ingestion/models.py:214-233 | no row is lost and none counted twice |
| `Snapshots.CountByRow` | ingestion/models.py:214-233 | there are as many accepted vectors as acceptable rows and as many rejects as unacceptable rows that do not raise |
| `Snapshots.AcceptedPlace` | ingestion/models.py:224-233 | the vector of an accepted row stands behind those of the accepted rows before it |
| `Snapshots.RejectedPlace` | ingestion/models.py:224-233 | a rejected row stands behind the rejected rows before it, with its own reason and its own fields |
| `Snapshots.RepresentableBodiesParse` | ingestion/models.py:219-221 | a body of representable numbers always parses, whatever else is wrong with it |
| `Snapshots.BodyFailsExactlyWhen` | ingestion/models.py:219-233 | a body fails as a whole if and only if one of its rows raises in the sense above |
| `Snapshots.OneBadNumberFailsTheBatch` | ingestion/models.py:219-221 | a single NaN category fails the whole body |
| `Snapshots.Deduplicate` | ingestion/models.py:236-251 | the deduplication loop keeps the first occurrences and counts the rest |
| `Snapshots.DeduplicateKeepsFirsts` | ingestion/models.py:236-241 | every key is kept once, by its first vector, in the order of the snapshot |
| `Snapshots.ReasonCounts` | ingestion/run.py:131-135 | the count of each reason is its multiplicity among the rejected rows |
| `Migrations.Runner.ApplyMigrations` | ingestion/db.py:65-114 | with the record read once before the loop, a run does what taking the files in order against the current record does; a missing directory is noticed after the bookkeeping table is made |
| `Migrations.Runner.ApplyFiles` | ingestion/db.py:85-114 | the loop against that specification |
| `Migrations.InterruptionsLeaveNoTrace` | ingestion/db.py:74-114 | any number of runs failing anywhere, lost acknowledgements included, followed by one without faults, end with the schema, record and verdict of a single uninterrupted run |
| `Migrations.RunsKeepFaithful` | ingestion/db.py:98-106 | whatever faults strike, the record is exactly the files whose bodies committed, once each, with their checksums |
| `Migrations.CommittedFilesExecuted` | ingestion/db.py:98-107 | every file that a run commits executed in the schema that the files committed before it had made |
| `Migrations.SucceedsExactlyWhen` | ingestion/db.py:85-114 | a run reports success if and only if no file is edited and each pending file, in order, executes in the schema of what went before and its transaction goes through |
| `Migrations.RunEndsAt` | ingestion/db.py:85-114 | and otherwise it ends at the first file for which this fails, with the verdict and the schema that this file leaves: unchanged, unless it ran and only the acknowledgement was lost |
| `Migrations.RunsOnlyAdd` | ingestion/db.py:74-79 | nothing committed is taken back and no record is altered |
| `Migrations.SuccessAppliesWhatWasPending` | ingestion/db.py:66-71 | a successful run applies exactly the missing files, in order, and returns their names |
| `Migrations.SuccessIsUpToDate` | ingestion/db.py:85-114 | after it every file is on record with the checksum of what it now says |
| `Migrations.RerunAppliesNothing` | ingestion/db.py:111-114 | and a further run, on however unreliable a server, applies nothing |
| `Migrations.EditedFileStopsTheRun` | ingestion/db.py:89-96 | an edited applied file stops the run: files before it are handled as if the list ended there, none after it is touched, success is never reported |
| `Migrations.OnlyEditedFilesAreRefused` | ingestion/db.py:89-96 | and only an edited file is complained of |
| `Migrations.SortedIsAscending` | ingestion/db.py:58-62 | whatever order the directory lists its files in, they are taken in filename order |
| `Migrations.BeforeMeans` | ingestion/db.py:58-62 | filename order: the first character that differs decides, or else the length |
| `OpenSky.Client.FetchStates` | ingestion/opensky.py:158-182 | the retry loop's result, requests, pauses and cache are those of the attempt-by-attempt specification below |
| `OpenSky.Client.FetchOnce` | ingestion/opensky.py:184-240 | one attempt's outcome and cache as specified; a snapshot costs one states request, and a refusal of such a request empties the cache |
| `OpenSky.AttemptsAreBounded` | ingestion/opensky.py:158-182 | at most the allowed attempts and one states request each, every attempt but the last a transient failure, none after anything else |
| `OpenSky.RetriedExactlyWhen` | ingestion/opensky.py:192-240 | which answers of the states endpoint count as transient, success, refusal, rate limit, other error status, and a time off the calendar: each if and only if |
| `OpenSky.FetchedIsTheBody` | ingestion/opensky.py:222-240 | a fetched snapshot holds the rows of the body, its time to the microsecond, and status 200 |
| `OpenSky.AttemptDecides` | ingestion/opensky.py:163-182 | anything but a transient failure - a rate limit in particular - ends the call at that attempt with that very outcome, no further request or pause and the cache it left; a transient failure leads to the next attempt while one is allowed |
| `OpenSky.RateLimitEndsTheCall` | ingestion/opensky.py:5-8 | an attempt that is answered 429 is the last: one request, no pause, and the call fails as rate limited |
| `OpenSky.AnonymousCall` | ingestion/opensky.py:158-240 | a whole call without credentials, from the answers alone: one request up to and including the first answer that is not worth retrying, whose outcome is the call's |
| `OpenSky.AttemptIs` | ingestion/opensky.py:184-216 | which token an attempt uses, when it fails without asking for states, and what a 401 or 403 does to the cache |
| `OpenSky.SleepIsExactly` | ingestion/opensky.py:170-180 | the pauses are exactly jitter times min(2^k, 30), one after each retried attempt and none after the last |
| `OpenSky.GrantedExactlyWhen` | ingestion/opensky.py:89-125 | which answers of the token endpoint grant a token, refuse one, are transient, or break the client: each if and only if |
| `OpenSky.GivesUpExactlyWhenAllFail` | ingestion/opensky.py:163-182 | the call fails as transient if and only if every allowed attempt was made and did |
| `OpenSky.SleepIsBounded` | ingestion/opensky.py:166-180 | the pauses add up to at most the sum of min(2^k, 30) over the attempts that were retried |
| `OpenSky.BackoffInClosedForm` | ingestion/opensky.py:170-180 | that sum is 2, 6, 14, 30 seconds, and thirty more for each further pause |
| `OpenSky.RefusalForgetsToken` | ingestion/opensky.py:209-214 | a 401 or 403 ends the call and the next one must authenticate again |
| `OpenSky.TokenCache.GetToken` | ingestion/opensky.py:82-87 | whatever token is handed out is the one the cache then holds, and without one the cache is unchanged |
| `OpenSky.TokenCache.Fetch` | ingestion/opensky.py:89-125 | a grant is what the cache then holds, with an expiry not before the grant; anything else leaves the cache unchanged |
| `OpenSky.TokenCache.Invalidate` | ingestion/opensky.py:127-129 | the cache is empty |
| `OpenSky.ServedTokensAreCurrent` | ingestion/opensky.py:11-13 | with a clock that never runs backwards, a token served from the cache is that of the latest grant, not invalidated since, with more than 60 seconds of its lifetime left |
| `OpenSky.CacheHoldsLatestGrant` | ingestion/opensky.py:117-129 | whatever the cache holds came from the latest grant |
| `OpenSky.ShortLivedTokensAreNotServed` | ingestion/opensky.py:121-123 | a token with no more than the margin to live is never served from the cache |
| `OpenSky.GrantIsServedExactlyWhile` | ingestion/opensky.py:82-125 | a grant is served from the cache if and only if more than 60 seconds of its lifetime are left, which is 1800 seconds when none is stated |
| `Cadence.Poll` | ingestion/run.py:205-213 | the loop's cycle starts are those of the specification below |
| `Cadence.GapAtLeastInterval` | ingestion/run.py:211-213 | successive starts are the longer of interval and fetch apart, plus what the sleep overshoots; so at least the interval, and exactly that if and only if the fetch fits and the sleep is punctual |
| `Cadence.CyclesPerDay` | ingestion/run.py:205-213 | any half-open day holds at most as many cycles as intervals cover it |
| `Cadence.CyclesPerDayIsTight` | ingestion/run.py:205-213 | a loop on schedule makes that many |
| `Cadence.CreditsPerDay` | ingestion/config.py:115-119 | counted by cycle starts, a day's credits are at most the budget - 86400 over the interval, rounded down, times the cost - plus one call, and at most the budget when the interval divides the day |
| `RecordedRuns.RecordedPerDay` | ingestion/loader.py:77-93 | counted by the stamps of the recorded runs, which may lag their cycle's start, the most a day can hold |
| `RecordedRuns.RecordsAtMostExactlyWhen` | ingestion/loader.py:77-93 | that this is the largest number, for every limit on the lag |
| `RecordedRuns.RecordedBudgetHoldsExactlyWhen` | ingestion/config.py:115-119 | as recorded, the budget bounds every day if and only if the interval divides the day and there is no lag; the budget plus one call if and only if the interval divides the day or the lag is at most what the interval has left over; plus two calls always |
| `Cadence.CostFollowsArea` | ingestion/config.py:25-37 | a larger area never costs less, and each band includes its upper edge |
| `Cadence.BudgetHoldsExactlyWhen` | ingestion/config.py:115-119 | counted by cycle starts, the budget bounds every loop and every day if and only if the interval divides the day |
| `Cadence.NoWarningMeansWithinAllowance` | ingestion/run.py:197-203 | the warning appears if and only if the budget exceeds 4000; counted by cycle starts, a cadence that draws none stays within 4000 plus one call |
| `Rounding.RoundMoves` | transform/models/marts/fct_airspace_activity_hourly.sql:57-58 | rounding moves a value by at most half a unit in the last place |
| `Rounding.RoundWithin` | transform/models/marts/fct_airspace_activity_hourly.sql:89-101 | and not past a whole-number bound |
| `Rounding.RoundIsOnGrid` | transform/models/marts/fct_airspace_activity_hourly.sql:57-58 | a rounded value has no more than the places kept |
| `Rounding.HalvesRoundAway` | transform/models/marts/fct_airspace_activity_hourly.sql:57-58 | halves round away from zero |
| `Sums.SumGrouped` | api/queries.py:61-63 | summing groups and then the groups' sums is summing the rows, for every grouping |

## Left out

- Floating point inside PostgreSQL and Python: values are real numbers. An epoch converts to the nearest microsecond, ties to even.
- The mart's storage: its content is ghost, and a build is one atomic step, as dbt runs it in one transaction.
- Concurrent builds of the same mart, and loads that commit while a build is running.
- Time zones: everything is UTC.
- Text beyond ASCII (`strip` and `lower` on other scripts), text with NUL characters, and numbers too large for their column other than the two smallints.
- Several clock readings within one response: the parser's `now` is one moment per snapshot.
- Which integer an over-long literal stands for: one representative that no column can hold.
- Exactly which sets of three or more open loads can deadlock: one common order rules it out, `TwoLoads.TwoLoadsDeadlockExactlyWhen` decides it for two, and no converse is stated beyond that.
- How PostgreSQL breaks a deadlock: the aborted transaction is one of the exceptions a worker may raise; that every worker finishes is not claimed.
- `Accuracy.ShownIsNearTruth`: bounds the sine and cosine of the bearing, not the angle, because no law of arcs from chords is assumed; the bound loosens as the true length approaches zero, where any bearing may be shown.
- SHA-256: taken to be injective on the files seen.
- Migration bodies that contain their own transaction control or touch the bookkeeping table, and two runners at once.
- An infinite `expires_in`, and access tokens that are not text.
- HTTP transport, JSON decoding, DSNs, logging, argument parsing, exit codes, the FastAPI routes, dashboard drawing and Airflow DAGs: plumbing without state of its own.
- `ingestion/checks.py` and `fct_ingestion_health.sql`: ratios and thresholds over one query each.
- The remaining dashboard queries (`api/queries.py:92` onwards): sums over the same mart without recombination.
- The distribution of the backoff jitter: only its bounds matter here.
