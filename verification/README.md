# Fleet back office: the stateful core, modelled and proved in Dafny

The repository is a transport back office. This project models the parts of it that decide
something over time and proves what they keep over whole runs:

- **Fuel anomaly engine** (`FuelModel`, `FuelRuns`, `FuelLedger`, `FuelRobustness`, `FuelCommits`,
  `FuelLimits`, `FuelDiagnosis`, `FuelCalls`, `FuelSweeps`, `FuelBatching`, `FuelRereads`, `FuelEngine`, `Medians`). Snapshots of a vehicle pass
  one at a time through a pipeline with a rolling window, a held spike, a baseline, a stop timer,
  an odometer guard, a refill accumulator and a watermark; sweeps feed it batches of at most 500
  rows, and its transactions may fail. `FuelModel` is the pipeline as functions, `FuelCalls`
  what one call does in terms of its inputs, `FuelEngine` the mutating objects proved equal to the
  functions, the rest theorems about every run.
- **ETA** (`Geohash`, `Segments`, `EtaGuard`). The bisection loop, the one-pass segmenter and the
  monotonic guard, each against a declarative meaning.
- **Cache** (`CacheModel`, `MemoryCache.dfy`). What the latest Set means, what a fixed window
  admits, and the object with its arrays, cells and janitor.
- **Feature flags** (`FeatureFlags`), **approval gate** (`Approval`), **event bus** (`EventBus`):
  step machines for every interleaving, and the objects whose methods are those steps.
- **FASTag reconciliation** (`Fastag`) and **invoice lines** (`Invoices`): matching, booking and
  header totals over tables whose every write may fail.

Litres, kilometres, amounts and coordinates are reals; NaN is an option; fuel and ETA times are
whole seconds, with zero for Go's zero time, and cache and telemetry-position times nanoseconds.
Clocks, query answers, the results of handlers and which database writes succeed are parameters,
so each theorem holds for all of them. Tables are maps and sequences. A trip's status and driver,
which the engine looks up per snapshot, travel with the snapshot. A method that the source runs
with time passing inside is given each clock reading it makes.

## Where the code differs from what is written about it

Each of these is a theorem about the code as it is.

- A raw fuel level is clamped to the tank capacity before percent become litres
  (`internal/fuel/engine.go:511`). A percent reading keeps its meaning exactly when it does not
  exceed the capacity as a number (`PercentReadingSurvivesClamp`); tanks under 100 litres lose
  their top, and the litre bound is capacity squared over 100 (`LevelsStayWithinTank`).
- The comment at `internal/fuel/engine.go:219-223` says an aborted sweep is reprocessed. The
  watermark has already moved, so a failed event is lost (`LateRowIsLost`,
  `FailuresOnlyLoseAcrossSweeps`). Only an odometer rollback comes up again, with every later
  reading still behind the guard until one commits (`RollbackRecursUntilCommitted`); the level
  reading of a call whose rollback fails is lost (`FailedRollbackKeepsGuard`).
- A snapshot can go through the pipeline again and again. The watermark query compares text
  (`internal/fuel/engine.go:448`, `internal/fuel/engine.go:919`), and a stored time passes its own
  watermark exactly when it is not separated by a blank or goes on behind the seconds
  (`OwnWatermarkPassed`). Ingestion leaves the form to the database driver
  (`internal/telemetry/ingest.go:347-353`), which is not part of this model, so each row carries how
  far its text reaches. A live sweep goes back behind its watermark if and only if some row that is
  not newer passes it (`GoesBackIffSomeRowPasses`). For rows in order that reach no further than
  their own watermark, the next sweep repeats a row if and only if the row fed last passes its own
  (`NextSweepRepeatsIff`), and once caught up every sweep does until a newer row arrives
  (`CaughtUpSweepRepeats`, and `RowIsFedTwice` for every vehicle and configuration). The rows are
  still fed in order with none left out (`RowsAreFedInOrder`). When stored times are exact each row
  is fed at most once (`AtMostOnce`) and batching does not matter (`BatchingDoesNotMatter`).
- On any stretch without driving in transit that starts with the baseline at the level, losing less
  than the noise floor per reading is never reported, however much leaves, for every configuration
  whose floor is at most its thresholds (`LossBelowNoiseIsNeverReported`);
  `UnreportedLossIsBounded` gives the exact account for parked stretches, silent adjustments included.
- A gap moves the baseline to the last level and so can swallow a loss of any size; without a gap no
  silent movement on a parked reading reaches the thresholds (`SilentMovementIsBounded`, both
  directions, and `GapSwallowsTheft`).
- An abnormal drain needs no drain: in transit with a missing, unchanged or reversed odometer, or a
  configured consumption of zero, a level that merely has not risen is reported
  (`SteadyLevelIsDrainIffNoDistance`, `DrainIffBeyondAllowance`).
- A moving reading held back as a spike does not stop the siphon timer (`HeldReadingKeepsTimer`), so
  the stop of `SiphonIffLongStop` is one of the readings taken into account at once.
- The ETA design document gives the guard as a minimum; the code takes the later of the new
  arrival and the previous one less the regress (`GuardClosedForm`).
- A fixed window of limit L can admit 2L - 1 calls within one ttl, no more
  (`FixedWindowLimit`, `FixedWindowLimitIsAttained`).
- The flag cache also keeps what a failed or broken-off query answered: a returned map is the table's
  content at its query exactly when that query lost no row (`StalenessIsBounded`). A committed Set
  is handed to every later reader if and only if no reader holds an answer without it and queries
  are sure to read its row (`SetVisibleIff`). It fails in two ways: a fetch from before the write
  stores after the invalidation (`StaleFetchResurfaces`), or a query that does not read the row
  hides it for the whole ttl with no fetch open (`BrokenQueryHides`).
- `internal/agent/approval.go:116-117` means never to leave an action approved. A call that stops
  after its claim, or for which both decision writes fail, leaves it approved for good: exactly
  when the claiming call has returned (`StuckIffAbandoned`; `AbandonedIsReachable`).
- A FASTag row whose UPDATE fails after its expense was inserted is charged again by the next run
  (`FailedUpdateDoublesTheToll`, `ChargeableIffOpen`); a row whose expense INSERT fails is
  reconciled without one and never retried (`ReconciledRowsAreClosed`).
- Editing an invoice line keeps a rate that is not above zero, adding one replaces it by 1000; a
  negative configured rate yields no tax (`TaxIsRateTimesTaxable`).

## Model

| member | source | states |
|---|---|---|
| Medians.MedianIsTheLowerMedian | internal/fuel/engine.go:891-902 | a value is the window's median exactly when it is one of its readings with at most (n-1)/2 below and at most n-1-(n-1)/2 above, with no reference to sorting |
| Medians.MinorityCannotMoveMedian | internal/fuel/engine.go:894-902 | a strict minority of readings outside a band cannot move the median out of the band |
| FuelModel.PercentReadingSurvivesClamp | internal/fuel/engine.go:873-889 | a percent reading is converted faithfully if and only if it is at most the capacity as a number |
| FuelModel.LitresWithinBound | internal/fuel/engine.go:511 | every converted reading lies between zero and what a full reading means in the configured unit, which full readings reach |
| Common.LastNIsTheEnd | internal/fuel/engine.go:545-548 | the trimmed window is the end of the sequence, in order, at most the window long and shorter only when there is no more |
| FuelRuns.WindowIsRecentReadings | internal/fuel/engine.go:490-549 | over every run, window plus held spike is the recent end of the level readings since the last reset, at most the window long, none lost, repeated or reordered |
| FuelRuns.SmoothingIsMedianOfHistory | internal/fuel/engine.go:530-555 | whenever a reading is acted on, the new level is the median of the last readings of the history itself |
| FuelLedger.StepBalances | internal/fuel/engine.go:468-604 | one call changes the baseline by what it reports plus a named silent adjustment, and the refill accumulator by the refills reported, reset at trip end |
| FuelLedger.LedgerBalances | internal/fuel/engine.go:473-679 | over every run the baseline is the first level plus refills less losses reported plus silent adjustments, and the accumulator holds the refills since the last trip end |
| FuelLedger.StationaryActiveStep | internal/fuel/engine.go:623-679 | on a stationary reading of an active trip the drift, the baseline's silent following of the level, stays below the theft threshold down and the refill threshold up, is zero unless the change is below noise, and less than the theft threshold stays outstanding |
| FuelLedger.SilentMovementIsBounded | internal/fuel/engine.go:473-494 | on such a reading all silent movement, resets included, stays short of those thresholds if and only if no gap comes before it or what the gap loses sight of is short of them |
| FuelLedger.DriftAfterGap | internal/fuel/engine.go:490-679 | after a gap the drift is the level's own change when that is noise and crosses no threshold, and nothing otherwise |
| FuelLedger.RefillNeverOutstanding | internal/fuel/engine.go:473-679 | over every run the level never stands the refill threshold or more above the baseline |
| FuelLedger.UnreportedLossIsBounded | internal/fuel/engine.go:551-679 | over a parked stretch of any length, start baseline plus refills less losses less last level is below the theft threshold beyond the silent adjustments |
| FuelLedger.LossAboveNoiseIsReported | internal/fuel/engine.go:551-679 | when each smoothed change is at least the noise floor, less than the theft threshold can leave a parked vehicle unreported, however slowly |
| FuelDiagnosis.ReportsItsVerdict | internal/fuel/engine.go:554-680 | apart from odometer rollbacks a call reports exactly the kind it classified, and nothing unless it acted on its reading |
| FuelDiagnosis.TimerIsSound | internal/fuel/engine.go:490-621 | over every run a running stop timer shows the time of a reading since which every reading taken into account was stationary, without a gap |
| FuelDiagnosis.HeldReadingKeepsTimer | internal/fuel/engine.go:538-543 | a reading held back as a spike leaves the stop timer as it was, even one of a moving vehicle |
| FuelDiagnosis.SiphonIffLongStop | internal/fuel/engine.go:612-637 | a siphon is confirmed if and only if a reading is acted on in an active trip, the level is the threshold below the baseline, and all readings taken into account since one at least the siphon time earlier were stationary without a gap |
| FuelDiagnosis.DrainIffBeyondAllowance | internal/fuel/engine.go:649-690 | in transit an abnormal drain is reported if and only if the drop reaches the allowance for the distance, whatever the configured rates |
| FuelDiagnosis.SteadyLevelIsDrainIffNoDistance | internal/fuel/engine.go:649-690 | for all rates the configuration accepts a level that has not moved is reported as a drain if and only if the odometer shows no distance or the rate is zero, and then so is every level that has not risen |
| FuelCalls.EnteringACall | internal/fuel/engine.go:469-497 | a trip that is over and a silence beyond the tolerance, and what each does to baseline, refills, window and timer; trip, driver and watermark; the held spike, level and guard stay |
| FuelCalls.GuardFollowsOdometer | internal/fuel/engine.go:695-734 | the guard follows every odometer reading, forwards and back, except one whose rollback does not commit |
| FuelCalls.ReadingIsConverted | internal/fuel/engine.go:873-889 | a raw level is clamped between zero and the capacity and then taken as litres or as percent of the capacity |
| FuelCalls.ActsIff | internal/fuel/engine.go:499-543 | a call acts exactly when sensor, capacity and rollback let it, there is a level, and a spike is held or the reading is not far from the median of the window there is |
| FuelCalls.SpikeHeldIff | internal/fuel/engine.go:530-549 | with a level and nothing held, a reading is held, changing nothing else, if and only if there is a window and it deviates from its median by more than the percentage; with a spike held the next call acts and holds nothing |
| FuelCalls.FirstReadingSetsLevels | internal/fuel/engine.go:513-528 | the first reading sets window, level and baseline to itself, and the timer when stationary |
| FuelCalls.ReportedIff | internal/fuel/engine.go:626-669 | theft, abnormal drain and refill are each reported if and only if the call acts and the fall or rise, speed, trip and odometer say so, spelled out |
| FuelCalls.EventsReportWhatHappened | internal/fuel/engine.go:626-669 | every event holds the judged baseline, the level, their difference, the guard, and the confidence, severity and behaviour weight of its kind |
| FuelCalls.BaselineAfterActing | internal/fuel/engine.go:671-678 | after a call that acted the baseline is at the level when something was reported, the vehicle moves or the change is noise, and stays otherwise |
| FuelRobustness.GlitchImmunity | internal/fuel/engine.go:517-680 | with a strict minority of bad readings in each window acted on and a narrow band, levels and baseline stay in the band and no theft, siphon or refill is raised in the whole run |
| FuelRobustness.IsolatedGlitchesRaiseNoAlarm | internal/fuel/engine.go:517-680 | window of at least three, two good first readings, no gap, at most one bad reading in any window-length stretch: no false alarm |
| FuelCommits.LevelFailuresOnlyLose | internal/fuel/engine.go:560-603 | for every pattern of failed level commits the state and the raised events are those of the failure-free run and the committed events a subsequence of its |
| FuelCommits.HooksFollowCommits | internal/fuel/engine.go:592-602 | hooks run for committed events only, for the current driver, and each committed event that calls for a hook gets it |
| FuelCommits.FailedRollbackKeepsGuard | internal/fuel/engine.go:706-719 | a call whose rollback does not commit reports nothing and leaves guard, level and held spike as they were |
| FuelCommits.RollbackRecursUntilCommitted | internal/fuel/engine.go:695-734 | through any stretch of calls behind the guard that do not commit, or without a reading, the guard stays, and the next call behind it raises the rollback against it, moving it if it commits and leaving it otherwise |
| FuelLimits.LevelsStayWithinTank | internal/fuel/engine.go:511-679 | over every run all levels, held spikes, baselines and reported quantities stay within the tank |
| FuelLimits.LossBelowNoiseIsNeverReported | internal/fuel/engine.go:623-678 | over any stretch without driving in transit, from a baseline at the level and with each change below a floor that is at most the thresholds, nothing but odometer rollbacks is raised and the whole fall goes unreported |
| FuelLimits.GapSwallowsTheft | internal/fuel/engine.go:490-494 | a reachable state in which a parked reading after a gap moves the baseline by more than the theft threshold and the run raises nothing |
| FuelLimits.SlowLeakIsNeverReported | internal/fuel/engine.go:671-678 | with the compiled defaults a litre per reading, up to eighty, leaves a parked vehicle without any event |
| FuelLimits.NoiseConditionIsNeeded | internal/fuel/engine.go:551-678 | that leak is a parked stretch with its last reading acted on and loses more than the theft threshold unreported, so the noise condition of the bound is needed |
| FuelBatching.FailuresOnlyLoseAcrossSweeps | internal/fuel/engine.go:216-227 | a caught-up schedule whose failing level commits cut sweeps short holds the state of any schedule over the same rows and warm-up without such failures, raised the same events and committed a subsequence |
| FuelSweeps.FeedTakesPrefix | internal/fuel/engine.go:360-376 | a sweep makes the calls for a prefix of its batch in order, cut short only by a failing call, and its state is the run extended by those calls |
| FuelSweeps.AtMostOnce | internal/fuel/engine.go:328-378 | whatever arrives, however late, and however sweeps and failures fall, the state is the fold of the calls made, and while stored times are exact no snapshot passes the pipeline twice |
| FuelRereads.StoredTimePasses | internal/fuel/engine.go:442-448 | when a stored time of any form compares as newer than a watermark: later date; same date and a separator after the blank; or a blank and a later time of day, or the same with something behind it |
| FuelRereads.OwnWatermarkPassed | internal/fuel/engine.go:916-921 | a stored time passes its own watermark if and only if its separator comes after a blank or is one and something follows the seconds |
| FuelRereads.GoesBackIffSomeRowPasses | internal/fuel/engine.go:438-464 | for any arrivals, caps and failures a live sweep makes a call for a row not newer than its watermark if and only if such a row passes it |
| FuelRereads.NextSweepRepeatsIff | internal/fuel/engine.go:368-377 | with arrivals in order and rows reaching at most their own watermark, the next live sweep repeats a row if and only if the row fed last passes its own |
| FuelRereads.CaughtUpSweepRepeats | internal/fuel/engine.go:368-377 | once such a row is the newest and fed, each sweep feeds it once more and nothing else |
| FuelRereads.RowsAreFedInOrder | internal/fuel/engine.go:328-464 | for such arrivals every schedule feeds the rows from the warm-up on in order, none left out, repeating only at once and only rows that pass their own watermark |
| FuelRereads.RowIsFedTwice | internal/fuel/engine.go:438-464 | a legal run of one arrival and two sweeps that makes two calls for the same snapshot, for every vehicle, configuration and pattern of failures |
| FuelBatching.SweepsFoldTheRows | internal/fuel/engine.go:328-464 | for arrivals in time order with exact stored times every schedule of sweeps, caps and failures feeds exactly the rows from the warm-up on, in order, as one fold |
| FuelBatching.BatchingDoesNotMatter | internal/fuel/engine.go:328-464 | two schedules over the same rows with the same warm-up that have both caught up made the same calls and hold the same state |
| FuelBatching.SweepProgress | internal/fuel/engine.go:368-377 | a sweep feeds min(500, pending) rows unless a call fails, and always at least one pending row |
| FuelBatching.UnwarmedVehicleStalls | internal/fuel/engine.go:350-441 | an entry whose warm-up fed nothing is never fed anything in this engine's lifetime |
| FuelBatching.PendingRowsMoveIffWarmed | internal/fuel/engine.go:350-441 | a sweep moves pending rows if and only if the warm-up fed something |
| FuelBatching.LateRowIsLost | internal/fuel/engine.go:438-464 | a row that does not pass the watermark and was not fed never will be |
| FuelEngine.VehicleFuelState.constructor | internal/fuel/engine.go:336-347 | a vehicle's state starts without levels, history, timer, guard, watermark, trip or driver |
| FuelEngine.VehicleFuelState.EnterTrip | internal/fuel/engine.go:469-485 | trip-end flush, trip and driver switch on the fields |
| FuelEngine.VehicleFuelState.CrossGap | internal/fuel/engine.go:487-497 | the gap reset judged against the previous watermark, which it then advances; the held spike survives |
| FuelEngine.VehicleFuelState.OdoRollback | internal/fuel/engine.go:695-734 | the guard moves unless the rollback's transaction fails; events and hooks of a committed one |
| FuelEngine.VehicleFuelState.Detect | internal/fuel/engine.go:609-680 | the classification in its order of precedence and its effect on stop timer, baseline and accumulator |
| FuelEngine.VehicleFuelState.CheckLevel | internal/fuel/engine.go:511-555 | clamp, smoothing with spike hold, detection: the object takes the level stage of the pipeline function |
| FuelEngine.VehicleFuelState.Pipeline | internal/fuel/engine.go:468-604 | the mutating pipeline is the step function about which all runs are proved, failures included |
| FuelEngine.LoadRecent | internal/fuel/engine.go:404-434 | the newest n rows, reversed into time order |
| FuelEngine.LoadAfter | internal/fuel/engine.go:438-464 | the oldest 500 rows that compare as newer than the watermark in time order; nothing for a zero watermark |
| FuelEngine.FuelEngine.ProcessVehicle | internal/fuel/engine.go:328-378 | one vehicle's sweep is one legal action of the sweep system, and every other vehicle's state is untouched |
| Geohash.AlphabetIs | internal/eta/segments.go:139 | the 32 symbols are the digits and the small letters without a, i, l and o, in order |
| Geohash.CellContains | internal/eta/segments.go:141-165 | a value in range lies in its quantised cell, the upper end of the range in the top cell |
| Geohash.WeaveAlternates | internal/eta/segments.go:143-166 | bit by bit from the top the code alternates longitude and latitude bits, longitude first |
| Geohash.UnweaveInvertsWeave | internal/eta/segments.go:143-172 | interleaving loses nothing: both cell indices come back |
| Geohash.DecodeRecoversCell | internal/eta/segments.go:138-174 | decoding a hash gives the two fifteen-bit cells of the point, for every point |
| Geohash.SameHashIffSameCell | internal/eta/segments.go:138-174 | two points share a hash if and only if they share a cell |
| Geohash.DecodedCellContainsPoint | internal/eta/segments.go:138-174 | the cell a hash decodes to contains the point, for every latitude and longitude in range |
| Geohash.Geohash6 | internal/eta/segments.go:138-174 | the bisection loop yields quantise, interleave and encode, for every input |
| Segments.SpansAreTheLongRuns | internal/eta/segments.go:84-117 | the kept spans are exactly the maximal runs of speed above 5, ended by the next slow or the last point, of at least two whole minutes |
| Segments.SegmentSpansItsRun | internal/eta/segments.go:92-98 | a segment goes from the cell of the run's first point to the cell of the point that ends it, in whole minutes |
| Segments.PointsKept | internal/eta/segments.go:58-78 | rows without a position or a time are skipped and the others kept as they are |
| Segments.SpansDisjoint | internal/eta/segments.go:84-117 | spans come in order and each ends before the next begins |
| Segments.SegmentsFitTheTrip | internal/eta/segments.go:84-117 | for time-ordered points segments are disjoint in time and their minutes sum to at least two each and at most the whole minutes of the trip |
| Segments.ExtractSegments | internal/eta/segments.go:42-119 | the one pass over the rows, unusable ones skipped, returns exactly the segments of those spans |
| EtaGuard.GuardClosedForm | internal/eta/service.go:274-297 | a trip's arrival is the maximum over its own raw arrivals, each moved earlier once per later call of its own |
| EtaGuard.TripsIndependent | internal/eta/service.go:278-296 | equal own histories give equal arrivals, whatever other trips do |
| EtaGuard.RegressIsBounded | internal/eta/service.go:284-296 | between any two points of a run an arrival moves earlier by at most the regress per own call |
| EtaGuard.GuardConverges | internal/eta/service.go:284-296 | with constant raw r the arrival after n calls is the later of r and the start less n regresses |
| EtaGuard.EtaService.constructor | internal/eta/service.go:37-54 | a regress that is not positive becomes five minutes |
| EtaGuard.EtaService.ApplyMonotonicGuard | internal/eta/service.go:274-297 | the object's memory after the call is the memory of the longer history, and an audit row is written exactly when the arrival was clamped |
| CacheModel.JanitorIsInvisible | internal/cache/cache.go:151-248 | a lookup answers the latest Set not followed by Delete or Close and not expired, for every schedule of sweeps |
| CacheModel.SetLivesForItsTtl | internal/cache/cache.go:122-178 | a value set is found until its ttl, or the default when not above zero, has passed, its last instant included, whatever sweeps and other keys do |
| CacheModel.HitCounts | internal/cache/cache.go:202-222 | a hit without a live counter opens a window of its ttl or the default; any other adds one and leaves the end |
| CacheModel.CounterIsWindow | internal/cache/cache.go:208-222 | the stored counter is that of the current window, or it was purged after the window ended |
| CacheModel.FixedWindowLimit | internal/cache/cache.go:196-244 | in any closed interval of one ttl at most 2L - 1 calls return a value up to L, with other keys and purges interleaved at will |
| CacheModel.FixedWindowLimitIsAttained | internal/cache/cache.go:208-222 | for every limit and ttl some run admits 2L - 1 |
| MemoryCacheObject.MemoryCache.Get | internal/cache/cache.go:151-162 | the lookup's bytes in a fresh array of the caller's own |
| MemoryCacheObject.MemoryCache.Set | internal/cache/cache.go:164-178 | the step of the model, with a copy: no array of the caller's becomes one of the cache's |
| MemoryCacheObject.MemoryCache.Delete | internal/cache/cache.go:180-185 | the step of the model |
| MemoryCacheObject.MemoryCache.Close | internal/cache/cache.go:187-194 | items dropped, counters kept |
| MemoryCacheObject.MemoryCache.Increment | internal/cache/cache.go:208-222 | the step of the counter model, in place within a window |
| MemoryCacheObject.MemoryCache.JanitorTick | internal/cache/cache.go:225-248 | removes exactly the expired items and counters |
| FeatureFlags.GrantDecidesOnlyItsFeature | internal/features/features.go:131-145 | an explicit row decides its own catalog feature and leaves every other as it was; unknown keys stay off |
| FeatureFlags.EnabledWithoutRow | internal/features/features.go:141-162 | without a row a feature follows its switch when that reads true, 1, false or 0, and otherwise is on exactly when it has a switch and defaults on or is core |
| FeatureFlags.EnabledWithRow | internal/features/features.go:131-140 | an explicit row decides whatever the environment, and an unknown key is off whatever rows there are |
| FeatureFlags.CatalogDefaults | internal/features/features.go:43-89 | which catalog features are on with an empty environment and no rows |
| FeatureFlags.ByKeyFinds | internal/features/features.go:91-98 | with distinct keys the scan finds each catalog entry |
| FeatureFlags.CatalogIsDistinct | internal/features/features.go:43-89 | the catalog's keys are distinct |
| FeatureFlags.Snapshot | internal/features/features.go:164-180 | the full catalog resolved agrees entry by entry with Enabled given the same map |
| FeatureFlags.Registry.FlagsFor | internal/features/features.go:207-236 | answers from an entry under 60 s, else stores and returns the tenant's rows less those the query did not read |
| FeatureFlags.Registry.Set | internal/features/features.go:184-205 | writes the row and drops the tenant's entry; an unknown key or failed write changes nothing |
| FeatureFlags.Registry.SetThenLookUp | internal/features/features.go:184-236 | undisturbed, a committed Set decides the next lookup if its query reads the row, and otherwise environment and tier do |
| FeatureFlags.StartIsSound | internal/features/features.go:121-127 | a registry just built, over any table written earlier, meets what the staleness bound starts from |
| FeatureFlags.StalenessIsBounded | internal/features/features.go:207-236 | under every interleaving each returned map is the content of a version current when its query ran less the rows that query lost, equal to it if and only if none was lost, and less than 60 s plus the query-to-store delay old |
| FeatureFlags.CompleteQueriesAnswerExactly | internal/features/features.go:216-230 | while queries read every row, each returned map is exactly the content at its query |
| FeatureFlags.PlayKeepsUpToDate | internal/features/features.go:201-236 | once table, cache and held answers carry a row, no later reader is handed a map without it until it is rewritten, if queries read it |
| FeatureFlags.StaleFetchResurfaces | internal/features/features.go:214-235 | a fetch from before a write that stores after the invalidation hands the old content to a later reader |
| FeatureFlags.BrokenQueryHides | internal/features/features.go:217-235 | a query that does not read the row hides it from its own reader and for the whole ttl from later ones, with no fetch open |
| FeatureFlags.SetVisibleIff | internal/features/features.go:184-236 | after write and invalidation every later reader is handed the row, until it is rewritten, if and only if no reader holds an answer without it and queries are sure to read it |
| Approval.HandlersRunAtMostOnce | internal/agent/approval.go:70-151 | in every interleaving with every fault a handler runs at most once per action; pending and rejected actions never ran; executed and failed ones ran exactly once, under the admin recorded, with that run's text |
| Approval.ExecutedRunsSucceeded | internal/agent/approval.go:95-114 | in every interleaving an executed row's handler returned without an error the text the row holds |
| Approval.AtMostOneCallSucceeds | internal/agent/approval.go:70-151 | of all calls on one action at most one succeeds, and the row keeps the status it answered |
| Approval.TerminalRowsAreFinal | internal/agent/rl/store.go:366-378 | an executed, failed or rejected row is never changed again |
| Approval.StuckIffAbandoned | internal/agent/approval.go:81-123 | a claimed action stays approved in every continuation if and only if the call that claimed it has returned |
| Approval.AbandonedIsReachable | internal/agent/approval.go:72-83 | a claim that takes effect but whose answer is lost leaves an approved action that ran nothing and that no call will decide |
| Approval.FaultlessApprovalDecides | internal/agent/approval.go:72-125 | undisturbed, approving a pending action runs its handler once, touches no other row and decides the action |
| Approval.FaultlessApprovalRecords | internal/agent/approval.go:95-114 | undisturbed, the row ends executed with the text returned, or failed with the text and the error returned, or failed with the panic named, decided by the admin |
| Approval.FaultlessRejectRecords | internal/agent/approval.go:127-151 | undisturbed, a reject runs nothing and the row ends rejected with admin and reason |
| Approval.LostDecisionIsMarkedFailed | internal/agent/approval.go:115-123 | when the first decision does not reach the store, the row ends failed naming the trouble if the second does, and stays approved otherwise |
| Approval.ApprovalService.ServiceIsSafe | internal/agent/approval.go:30-151 | whatever sequence of calls a service has been through and whatever failed in it, no handler ran twice for an action and each row is honest about its runs |
| Approval.ApprovalService.Gate | internal/agent/approval.go:30-34 | registers the handler under the tool's name and marks it gated |
| Approval.ApprovalService.SubmitAction | internal/agent/approval.go:40-63 | a gated tool files a pending action and runs nothing |
| Approval.ApprovalService.ClaimAction | internal/agent/rl/store.go:345-360 | the atomic swap from pending, and what it reports |
| Approval.ApprovalService.UpdateActionDecision | internal/agent/rl/store.go:362-377 | the swap from approved, and what it reports |
| Approval.ApprovalService.Approve | internal/agent/approval.go:72-125 | the call extends the machine's run by its steps, ending in its answer, for every failing access |
| Approval.ApprovalService.Reject | internal/agent/approval.go:127-151 | the call extends the machine's run by its steps, ending in its answer, for every failing access |
| Fastag.MatchTrip | internal/fastag/reconcile.go:124-142 | the loop finds the nearest departure among the trips whose window contains the time, the first on ties, and none exactly when none does |
| Fastag.GreedyIsNearest | internal/fastag/reconcile.go:124-142 | there is exactly one such answer and the greedy scan gives it |
| Fastag.SettlingFollowsNearest | internal/fastag/reconcile.go:124-183 | an open row goes to the nearest trip and its toll to that trip's driver as far as the writes take effect; a row in no window stays as it is |
| Fastag.TollsAreConserved | internal/fastag/reconcile.go:118-192 | whatever writes fail over any number of runs, expenses total the tolls of rows that name one plus the expenses no row names, each named expense being its own row's |
| Fastag.ReconciledRowsAreClosed | internal/fastag/reconcile.go:53-58 | a reconciled row keeps trip and expense and is never charged again |
| Fastag.AtMostOneExpense | internal/fastag/reconcile.go:144-179 | while row updates succeed each toll is charged at most once, even when inserts fail |
| Fastag.ChargeableIffOpen | internal/fastag/reconcile.go:53-58 | a toll can be charged again if and only if its row is still open |
| Fastag.FailedUpdateDoublesTheToll | internal/fastag/reconcile.go:160-179 | an insert that takes effect with an update that does not charges the toll twice |
| Fastag.BookedEqualsReconciled | internal/fastag/reconcile.go:144-179 | with all writes successful and expenses on, booked tolls equal reconciled tolls over any number of runs |
| Fastag.ImportedIff | internal/fastag/reconcile.go:33-51 | a pulled transaction becomes an open row exactly when its insert takes effect, its id is free or empty and an answering duplicate check finds no row of its tag, time and amount |
| Fastag.ImportsNeverRepeat | internal/fastag/reconcile.go:33-51 | while the duplicate check answers, no two rows share tag, time and amount |
| Fastag.FASTagService.Import | internal/fastag/reconcile.go:33-51 | the import loop is the sequence of arrivals |
| Fastag.FASTagService.SettleRow | internal/fastag/reconcile.go:124-183 | one turn of the loop is one settlement event and touches no other row |
| Fastag.FASTagService.LoadUnreconciled | internal/fastag/reconcile.go:53-88 | exactly the open rows among those asked for and readable, by time |
| Fastag.FASTagService.MatchLoaded | internal/fastag/reconcile.go:118-192 | the loop is the sequence of settlements; the unmatched list is exactly the rows in no window, in order; matched and unmatched add up; the count of expenses when every insert reports |
| Fastag.FASTagService.Reconcile | internal/fastag/reconcile.go:22-193 | a whole run extends the history by its arrivals and settlements, ends after the import when a query fails, and leaves tolls conserved however many runs came before |
| EventBus.UnsubscribeRemovesOnlyItself | internal/events/bus.go:96-106 | removing the first registration found removes exactly that identity, keeps the others' order, and is idempotent |
| EventBus.EveryHandlerOnceInOrder | internal/events/bus.go:56-84 | whatever happens meanwhile a publish calls exactly the handlers registered when it began, in order, one per dispatch, until all are called |
| EventBus.NoHandlerTwice | internal/events/bus.go:89-106 | identities stay distinct in every reachable state, so no registration is called twice by a publish |
| EventBus.NoFailureIsSwallowed | internal/events/bus.go:67-84 | exactly the handlers that failed or panicked are complained about, each with what it did |
| EventBus.InMemoryBus.Subscribe | internal/events/bus.go:89-94 | appends to the topic's slice, in place or in a larger array, leaving every other topic alone |
| EventBus.InMemoryBus.Unsubscribe | internal/events/bus.go:96-106 | shifts the slice left in place over the registration, leaving every other topic alone |
| EventBus.InMemoryBus.Snapshot | internal/events/bus.go:57-60 | the copy is a fresh array with the topic's registrations |
| EventBus.InMemoryBus.Publish | internal/events/bus.go:56-84 | every handler of the copy is called once in order although the handlers subscribe and unsubscribe, and every failure or panic is logged |
| EventBus.ShiftLeft | internal/events/bus.go:102 | the in-place shift drops one cell and keeps the rest in order |
| Invoices.TaxIsRateTimesTaxable | internal/handlers/invoices.go:419-427 | tax is taxable times rate over 100, whichever way split, if and only if the rate is not negative or nothing is taxable; a negative rate gives no tax |
| Invoices.SplitFollowsPlaceOfSupply | internal/handlers/invoices.go:605-611 | half central and half state within a state, all integrated across states |
| Invoices.AddWritesTheLine | internal/handlers/invoices.go:387-460 | a committed Add appends one line of quantity times rate with its defaults, taxed at the code's rate or 18 by the two states, in products of quantity, rate and percentage; and exactly when an Add commits |
| Invoices.EditWritesTheLine | internal/handlers/invoices.go:463-527 | a committed Edit turns exactly the lines with its id, invoice and tenant into such a line and leaves every other as it was |
| Invoices.DeleteKeepsTheOthers | internal/handlers/invoices.go:544 | a Delete removes exactly the lines with its id, invoice and tenant |
| Invoices.AggregatedIsSum | internal/handlers/invoices.go:618-630 | the column sums and their tax are the totals of the lines |
| Invoices.EditsKeepHeaders | internal/handlers/invoices.go:431-637 | a committed edit makes its header the totals of its lines, and no edit, committed or not, of any tenant, disturbs a header that already is |
| Invoices.CommittedHeadersStayRight | internal/handlers/invoices.go:387-637 | once an edit of an invoice committed, its header equals its lines after every later edit of any invoice |
| Invoices.InvoicesAddUp | internal/handlers/invoices.go:387-637 | on a ledger these handlers wrote, total = subtotal + tax, tax = central + state + integrated and central = state, for ever after |
| Invoices.DeleteUndoesAdd | internal/handlers/invoices.go:387-560 | deleting the line just added restores lines and header |
| Invoices.InvoiceHandlers.AddLineItem | internal/handlers/invoices.go:387-461 | defaults, rate resolution, insert, recalculation and commit; a refusal or failing statement changes nothing |
| Invoices.InvoiceHandlers.EditLineItem | internal/handlers/invoices.go:463-529 | rewrites the matching line only; a refusal or failing statement changes nothing |
| Invoices.InvoiceHandlers.DeleteLineItem | internal/handlers/invoices.go:531-559 | removes the matching line; a failing statement changes nothing |
| Invoices.InvoiceHandlers.RecalculateAndCommit | internal/handlers/invoices.go:614-637 | both tables change together or not at all, and only the tenant's own header |

## Left out

- Engine configuration loading, the choice of active vehicles and the loop over them in Tick: the
  configuration is fixed with a window of at least one and positive thresholds.
- Engine restarts, after which the warm-up replays the last window with persistence; at-most-once
  is a statement about one engine lifetime.
- Vehicle attributes stay those of the entry's creation, as in the code; the fresh attributes each
  sweep reads are not modelled.
- The fuel event, behaviour and outbox rows beyond the event itself, and the text of alerts.
- The text in which the database driver stores times, which is a parameter; times to a fraction of a
  second, beyond the reach of their text; and SQL's own ordering of equal timestamps, which any
  arrangement by time stands for.
- NextSweepRepeatsIff, CaughtUpSweepRepeats, RowsAreFedInOrder: for rows that reach no further than
  their own watermark; times not separated by a blank pass every watermark of their day, for which
  GoesBackIffSomeRowPasses says when a sweep goes back.
- Floating-point rounding, great-circle distance and the cryptographic helpers.
- ETA distance, rolling speed and the hybrid blend: plain arithmetic that would add easy members.
- Counter overflow at 64 bits, and the Redis cache.
- Two overlapping FASTag runs: rows are loaded once per run, so they could settle a row twice.
- The reward signal of a decision, which only matters as an error after the decision was stored; the
  time of a decision; the read-only listings of the approval queue.
- Handlers that publish again while an event is dispatched: in the object they subscribe and
  unsubscribe only, in the step machine a nested publish is a publish of its own.
- Time passing between two statements of one method other than the clock readings it makes itself.
- HTTP, templates, PDF and CSV output, drivers, provider clients, e-way bills.
- LossAboveNoiseIsReported: states one direction; that changes below the noise floor can exceed the
  threshold unreported is NoiseConditionIsNeeded, and UnreportedLossIsBounded gives the account for
  every stretch.
- FixedWindowLimit: for keys always hit with the same ttl and a clock that never goes back.
- SegmentsFitTheTrip: for rows in time order, which the query guarantees.
- ImportsNeverRepeat: one direction; a failing duplicate check lets the same toll in again.
- FailuresOnlyLoseAcrossSweeps: for equal warm-ups; a warm-up cut short leaves rows to be fed later
  with the gap check on.
