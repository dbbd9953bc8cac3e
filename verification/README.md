# AWS Ops Monitor: verified model

AWS Ops Monitor polls a host, an Xray proxy and the Lightsail control plane, keeps every reading in
one SQLite database, compacts old readings into hourly buckets and draws a dashboard from what is
left. This project models the parts of it that must stay in step with each other and proves what
they promise, for every input and every run.

- **The counter ledger** (`Models`, `Ledger`, `MetricStore.dfy`). Absolute readings become
  non-negative deltas against a per-counter cursor. A reset is a changed identity or a decrease; a
  batch out of time order is refused as a whole. A retention pass groups old rows into hourly
  buckets, deletes them, drops old buckets and leaves cursors alone. `MetricStores.MetricStore` is
  the object whose methods update the tables; `Ledger` says on values what each transaction does,
  and a *run* is any sequence of batches (committed or refused) and passes from an empty database.
  `Unpruned` is the same run with every pass erased: the history that was never pruned.
- **The program's own terms** (`Readings`, `PassWindow`, `SourceNames`, `ReaderNames`). The same
  operations said of their inputs and outputs alone: readings and the ones before them, cutoffs in
  seconds, counters by the names and labels of the collectors. These statements do not rest on the
  model's own derivation of rows, its cutoffs or its classification of counters.
- **Whole runs of the ledger** (`Retention`, `Schedule`, `Conservation`, `History`, `IntegerRange`,
  `BatchLaws`). Does it matter when retention ran? What is lost? What do the deltas add up to, and does
  it fit an integer? How do batches compose?
- **The query side** (`Queries`, `Refinement`, `Chart`, `Overlap`, `Alignment`, `Accumulation`,
  `Reader`, `XrayHalf`, `Orders`). Both series readers and the 24-hour window, over the compacted store
  and over the full history.
- **Identity of a counter** (`LabelsJson`, `XrayStats`). Canonical JSON, the key material, and why an
  Xray snapshot cannot conflict with itself.
- **The Lightsail adapter and its dashboard figures** (`AlarmPages`, `Firewalls`, `Lightsail`,
  `AwsProjection`, `AwsRuns`).
- **Two protocols** (`RateGate` and `Collector`; `Deploy`).

Timestamps are real numbers, counter values and sums are integers without a width; `MAX_INTEGER` is
written out where the program compares with it. A constructor that refuses a bad argument is a
subset type (`Timestamp`, `Reading`, `Name`, `Labels`, `Days`). The tables are keyed by the series
itself instead of its SHA-256 key and hold decoded labels instead of JSON text:
`LabelsJson.KeyMaterialIdentifies` and `LabelsJson.LabelsRoundTrip` are the reasons this changes
nothing as long as the hash does not collide. The clock, the network, the calendar month, HMAC
digests and the outcome of every shell command are parameters.

Five properties hold with an exact condition, each proved in both directions with a concrete witness:

- A pass gives the same tables whatever passes ran before it, if and only if its rollup cutoff is a
  whole hour or not after the epoch (`Schedule.ScheduleFreeExactly`). Otherwise one bucket, the one
  the cutoff cuts through, may hold more than a single pass would have kept, never less.
- The hourly totals of the writer's chart (`MetricStore.series`) over the compacted store are those
  over the full history if and only if the chart starts on a whole hour or not after the epoch
  (`Alignment.RefinementExactly`).
- The host totals of the reader's chart (`ReadOnlySQLiteRepository.series`, which the dashboard shows),
  before its oldest points are cut, are those over the full history if and only if the same holds of
  its start (`Alignment.ReaderTotalsExactly`). The cut to the newest `limit` points takes at most one
  point from a chart that starts on a whole hour, and with it the traffic of that point
  (`Reader.CutTotals`). The dashboard asks for a start that is now less whole hours, so usually inside
  an hour.
- A pass can add up an hour inside its window, whatever was recorded, if and only if the counter never
  started over in it; with resets some history exceeds the largest SQLite integer
  (`IntegerRange.FitsExactlyWithoutResets`).
- Every failed deployment to a host leaves it restored or offline if and only if two things hold: the
  command of last resort takes all services down, and the host was not running the dashboard without
  the collector while its current link named a release (`Deploy.SafeExactly`; a host whose backup is
  refused is left as it was). The deployment documentation (`deploy/README.md`, lines 38-45) promises
  it outright. But the script ignores a failure of its last resort, and the unit of the dashboard
  requires the collector: a rollback that starts the dashboard also starts a collector that had exited,
  and nothing checks that the collector should be down.

A start inside an hour draws that whole hour once it is compacted. For the reader, host totals before
the cut are then never too small, and they are exact as long as no rollup bucket lies across the start
(`Reader.ReaderTotalsSurviveRetention`). For the writer, every hour that begins at or after the start is
exact, no hour is too small, and with no bucket across the start all hours are exact
(`Overlap.AnyStart`; the Xray columns as long as both charts show the same scope). The Xray scope it
shows can only be a more preferred one, and only through an Xray bucket across the start
(`Overlap.ScopeFromAnyStart`).

## Model

| member | source | states |
|---|---|---|
| BatchLaws.RecordConcat | src/aws_ops_monitor/store.py:428-512 | the counters of a batch recorded in two parts give the rows, the cursors and the refusal of the whole |
| Ledger.HourBounds | src/aws_ops_monitor/store.py:562-578 | the truncating SQL cast and Python's floor division name the same hour for every accepted time, and that hour holds it |
| MetricStores.MetricStore.constructor | src/aws_ops_monitor/store.py:335-365 | opening a database shows the tables it holds, and empty ones when they had to be created |
| MetricStores.MetricStore.StoreCounter | src/aws_ops_monitor/store.py:428-512 | one reading: row, cursor and result as derived from the prior cursor, or a refusal that changes nothing |
| MetricStores.MetricStore.RecordBatch | src/aws_ops_monitor/store.py:399-529 | all or nothing: a refused batch leaves gauges, samples, cursors, rollups and health as they were, a committed one stores all of it; it commits if and only if no reading is older than, or at the same time different from, the one of its counter before it, and every reply tells baseline, reset and delta against that one |
| Readings.BatchTells | src/aws_ops_monitor/store.py:428-512 | a batch is committed if and only if every reading is acceptable after those before it, and then every row and reply keeps its reading and says how it compares with the one before |
| Readings.RefusedReading | src/aws_ops_monitor/store.py:449-458 | a refusal is for the first unacceptable reading, and names whether it was older or conflicting |
| Readings.RowTells | src/aws_ops_monitor/store.py:443-461 | in every history a row is a baseline if and only if it is the first of its counter, and a reset if and only if the identity changed or the reading fell since the row before it |
| Readings.ResetsAreSegments | src/aws_ops_monitor/store.py:453-461 | a counter has one baseline and a reset for every other stretch in which it never starts over |
| Readings.RunResets | src/aws_ops_monitor/store.py:443-611 | resets raw, rolled up and expired together are the stretches of the counter after its first |
| MetricStores.MetricStore.Restore | src/aws_ops_monitor/store.py:376-385 | a rolled back transaction puts every table back |
| MetricStores.MetricStore.AddToBucket | src/aws_ops_monitor/store.py:575-594 | upsert: deltas and resets are added to a bucket, or the bucket is created |
| MetricStores.MetricStore.Compact | src/aws_ops_monitor/store.py:566-596 | grouping row by row is grouping at once, and the count is the number of rows in the window |
| MetricStores.DeleteBefore | src/aws_ops_monitor/store.py:597-606 | exactly the records older than the cutoff go, the rest keep their order, and the count says how many went |
| MetricStores.MetricStore.PruneBuckets | src/aws_ops_monitor/store.py:607-611 | exactly the buckets that start before the boundary hour go |
| MetricStores.MetricStore.Pass | src/aws_ops_monitor/store.py:561-611 | a whole pass, including its five counts; cursors untouched |
| MetricStores.MetricStore.ApplyRetention | src/aws_ops_monitor/store.py:545-611 | each day setting out of range is refused and changes nothing; otherwise records at or after now less that many days stay, the rows between the two cutoffs are compacted into their hours, hours that ended by the rollup cutoff go, and the five counts say how many of each |
| PassWindow.SinceKeeps | src/aws_ops_monitor/store.py:597-606 | every record as often as before if it is not older than the cutoff, and not at all if it is |
| PassWindow.PrunedCount | src/aws_ops_monitor/store.py:597-606 | how much shorter a table becomes is the number of its records older than the cutoff |
| PassWindow.CompactedCount | src/aws_ops_monitor/store.py:566-574 | the compacted count is the number of rows between the cutoffs |
| PassWindow.PassBuckets | src/aws_ops_monitor/store.py:575-611 | an hour is left if and only if it ends after the rollup cutoff and was there or had a row between the cutoffs; it holds what it held and what those rows add |
| PassWindow.HoursGone | src/aws_ops_monitor/store.py:607-611 | no hour is compacted and pruned in one pass: the hours counted as pruned are the old ones that are gone |
| MetricStores.MetricStore.Series | src/aws_ops_monitor/store.py:1014-1091 | the accumulated dictionary, listed and cut, is the chart defined by sums over the tables: one point for every minute with a figure, each figure the sum of the counters of its name on real interfaces, or of the shown scope and direction |
| MetricStores.ChartPoints | src/aws_ops_monitor/store.py:1060-1090 | every point shows exactly the traffic of its minute, absent where nothing was recorded |
| SourceNames.ClassifiedByName | src/aws_ops_monitor/store.py:119-149 | a counter feeds a figure if and only if its source, name and labels say so |
| SourceNames.SinceHourIs | src/aws_ops_monitor/store.py:1032-1032 | rollups are read from the hour that holds the start, as a truncating division finds it |
| SourceNames.CellIsFed | src/aws_ops_monitor/store.py:1021-1072 | a cell of any time grid holds the sum of the deltas the counters of these names recorded in its time |
| SourceNames.PointIsNamed | src/aws_ops_monitor/store.py:1043-1090 | every point shows the received and transmitted bytes of its minute by counter name, and both Xray directions by label, in the first of the three scopes that is read |
| SourceNames.ChartIsNamed | src/aws_ops_monitor/store.py:1090-1091 | the chart has the point of every minute with a figure, once, in ascending order |
| Orders.Sorted | src/aws_ops_monitor/store.py:1090-1091 | sorted(keys): the one ascending listing of a set |
| Orders.AscendingUnique | src/aws_ops_monitor/store.py:1090-1091 | an ascending listing of a set is unique, so a sorted chart is determined by its content |
| Orders.StringLessIs | src/aws_ops_monitor/store.py:101-108 | strings compare by their first difference, and a prefix comes before what it begins |
| Queries.Newest | src/aws_ops_monitor/store.py:1090-1091 | the cut keeps the newest points in order, and all of them when they fit |
| Retention.SameCursors | src/aws_ops_monitor/store.py:538-543 | after any run the cursors are those of the never-pruned database |
| Retention.RetentionTransparent | src/aws_ops_monitor/store.py:538-543 | erasing every pass leaves every reply of every batch, result or refusal, unchanged |
| Retention.RawRecordsKept | src/aws_ops_monitor/store.py:597-606 | from any cutoff no pass exceeded, the raw rows, gauges and health records are those of the full history |
| Retention.BucketKept | src/aws_ops_monitor/store.py:566-606 | a bucket no pass could expire, rolled up part and raw part together, is that of the full history |
| Retention.RetainedLookup | src/aws_ops_monitor/store.py:566-611 | a pass seen through one bucket: dropped before the boundary hour, otherwise the old bucket plus the rows of the window |
| Schedule.ScheduleIndependence | src/aws_ops_monitor/store.py:561-611 | any schedule ending in a pass leaves the same raw records and the same buckets as one pass over the full history, except that the boundary bucket may hold more |
| Schedule.ScheduleFreeExactly | src/aws_ops_monitor/store.py:561-611 | nothing at all depends on the schedule if and only if the rollup cutoff is a whole hour or not after the epoch |
| Schedule.EarlyPass | src/aws_ops_monitor/store.py:561-611 | the witness for every other cutoff: a sample an earlier pass rescues from expiry |
| Schedule.BoundaryAtLeast | src/aws_ops_monitor/store.py:566-611 | earlier passes never take from the bucket the cutoff cuts through |
| Schedule.SteadyScheduleEndsInFinalPass | src/aws_ops_monitor/collector.py:325-337 | fixed settings and a clock that never runs back meet the conditions of these theorems |
| Conservation.BucketConservation | src/aws_ops_monitor/store.py:561-611 | over any run, raw + rolled up + expired is everything ever recorded in a bucket: deltas, resets and existence |
| Conservation.CounterConservation | src/aws_ops_monitor/store.py:561-611 | the same for a counter, summed over all its hours |
| Conservation.ExpiredOnlyWhenOld | src/aws_ops_monitor/store.py:561-564 | a bucket that starts at or after every rollup cutoff loses nothing |
| Conservation.CompactedRowSurvives | src/aws_ops_monitor/store.py:575-611 | a row compacted by a pass is not deleted by that pass's own bucket pruning |
| Conservation.PassIsIdempotent | src/aws_ops_monitor/store.py:538-543 | the same pass again changes nothing and compacts no row |
| History.HistoryIsGenuine | src/aws_ops_monitor/store.py:446-488 | every row of a history is derived from the row of its counter before it, and the cursors are the last rows |
| History.OneReadingPerInstant | src/aws_ops_monitor/store.py:449-455 | a counter's rows are in time order, and one instant has one reading and adds nothing twice |
| History.Telescoping | src/aws_ops_monitor/store.py:443-461 | the deltas of a counter add up to last less first reading over its reset-free segments |
| History.RunTelescopes | src/aws_ops_monitor/store.py:443-611 | the same for a pruned database: raw, rolled up and expired together are how far the counter moved |
| History.BucketFitsInteger | src/aws_ops_monitor/store.py:575-593 | an unexpired hour of one counter, in however many pieces compacted, is at most (resets + 1) times the largest SQLite integer |
| IntegerRange.PassSumBound | src/aws_ops_monitor/store.py:575-593 | whatever ran before, what a pass leaves in a bucket is at most (resets of its hour + 1) times that integer, so it fits without a reset |
| IntegerRange.BucketBoundIsReached | src/aws_ops_monitor/store.py:443-461 | the bound cannot be improved: for any number of resets some run reaches it in any hour |
| IntegerRange.FitsExactlyWithoutResets | src/aws_ops_monitor/store.py:575-593 | every history of an hour with so many resets can be added up by a pass over it if and only if there are none |
| BatchLaws.BatchSplits | src/aws_ops_monitor/store.py:399-529 | a joined batch commits if and only if its halves commit in sequence, with the same tables and results |
| BatchLaws.CounterAlone | src/aws_ops_monitor/store.py:428-512 | a committed batch treats each counter as if it had come alone |
| BatchLaws.CommitsIffEveryCounterDoes | src/aws_ops_monitor/store.py:428-458 | a batch commits if and only if the part of every single counter would |
| BatchLaws.SomeCounterRefuses | src/aws_ops_monitor/store.py:428-458 | a refusal is the refusal of one counter alone, for the same reason |
| BatchLaws.DistinctLaterBatchCommits | src/aws_ops_monitor/store.py:446-488 | distinct counters later than their cursors are never refused and move exactly those cursors |
| Queries.RollupSumWithout | src/aws_ops_monitor/store.py:1028-1039 | a sum over the rollup table does not depend on the order it is read in |
| Refinement.HourClosedHits | src/aws_ops_monitor/store.py:1023-1035 | a query of whole hours takes a row if and only if it takes the bucket the row compacts into |
| Refinement.MergeSnoc | src/aws_ops_monitor/store.py:575-594 | grouping one more row is one upsert-add |
| Refinement.PassKeepsTraffic | src/aws_ops_monitor/store.py:561-611 | a pass is invisible to a query of whole hours it cannot expire |
| Refinement.SameTraffic | src/aws_ops_monitor/store.py:1021-1041 | after any run such a query reads what the full history holds |
| Refinement.SameShownScope | src/aws_ops_monitor/store.py:1074-1082 | compaction does not change which Xray scope is shown |
| Chart.HourIsTraffic | src/aws_ops_monitor/store.py:1043-1091 | an hour of the uncut chart adds up to the traffic the tables hold for that hour |
| Chart.ChartRefinement | src/aws_ops_monitor/store.py:1021-1091 | host rx and tx, shown scope, Xray up and down: every hourly figure of the compacted store is that of the full history |
| Alignment.RefinementExactly | src/aws_ops_monitor/store.py:1023-1035 | this holds for a chart start if and only if it is a whole hour or not after the epoch |
| Alignment.OverlappingHour | src/aws_ops_monitor/store.py:1023-1035 | the witness for every other start: a compacted byte from before the start is drawn over a history that shows nothing |
| Alignment.ReaderTotalsExactly | src/aws_ops_monitor/web.py:388-469 | the reader's host totals, over all points before the cut, are those of the full history for a start if and only if it is a whole hour or not after the epoch |
| Overlap.AnyStart | src/aws_ops_monitor/store.py:1021-1091 | whatever the start, no hour of the compacted chart is too small, every hour that begins at or after the start is exact, and with no bucket across the start all are: host columns always, Xray columns whenever both charts show the same scope, as with no Xray bucket across the start |
| Overlap.ScopeFromAnyStart | src/aws_ops_monitor/store.py:1074-1082 | the scope a compacted chart shows is never a less preferred one, and the same with no Xray bucket across the start |
| Overlap.CompactionHidesNothing | src/aws_ops_monitor/store.py:561-611 | over any run, a query of whole hours with any start never reads less from the compacted store |
| Overlap.UnoverlappedTraffic | src/aws_ops_monitor/store.py:1023-1035 | with no rollup bucket across its start such a query reads exactly what the full history holds |
| Overlap.HistoryIsHeld | src/aws_ops_monitor/store.py:566-611 | a row no rollup cutoff has passed is still there, raw or as its bucket |
| Chart.WindowLosesNothing | src/aws_ops_monitor/web.py:139-143 | the 24-hour window over the pruned store is the one over the full history, per field |
| Accumulation.Accumulate | src/aws_ops_monitor/store.py:1043-1072 | the loops over rows and buckets put exactly the traffic of every figure and cell into the dictionary, and a key exactly where something was recorded |
| Reader.Series | src/aws_ops_monitor/web.py:382-485 | the points are the host sums over the reader's own grid joined with the result of its Xray query, at most `limit` of them, the newest, and each bears the time of its earliest record |
| XrayHalf.QueryXray | src/aws_ops_monitor/web.py:405-441 | one scope, the preferred one of the cursors; per bucket, counted with truncation, the sums of both directions and the earliest time; the oldest `limit` buckets |
| XrayHalf.XrayRollupSumWithout | src/aws_ops_monitor/web.py:415-428 | its sums do not depend on the order the rollups are read in |
| Reader.MergePoints | src/aws_ops_monitor/web.py:443-484 | every reader point shows the host traffic of its bucket and what the Xray half returned for it |
| Reader.HostEarliest | src/aws_ops_monitor/web.py:443-463 | the dictionary keeps, for every bucket with a host record, the earliest time read |
| Reader.HostWindow | src/aws_ops_monitor/web.py:556-580 | each of the eight figures is the sum of the deltas of the counter of its name, on interfaces that are neither the loopback nor virtual, since the given time |
| SourceNames.WindowIsNamed | src/aws_ops_monitor/web.py:556-580 | a figure of the window is the sum over the counter of its name on real interfaces |
| ReaderNames.ReaderPointIsNamed | src/aws_ops_monitor/web.py:443-469 | a point of the reader shows the bytes of its bucket by counter name, and has a host part if and only if such a counter has a record in it |
| ReaderNames.XrayHalfIsNamed | src/aws_ops_monitor/web.py:405-441 | every bucket of the Xray half holds both directions by label, in the first of the three scopes that has a cursor |
| ReaderNames.XrayBucketsAre | src/aws_ops_monitor/web.py:429-431 | the buckets it returns are those with a record of the scope, the oldest ones when there are more than the limit |
| ReaderNames.ReaderChartIs | src/aws_ops_monitor/web.py:443-485 | the reader's points before the cut: ascending, one for every bucket with a host byte or an Xray result |
| ReaderNames.HostTimeIs | src/aws_ops_monitor/web.py:451-463 | the times a point may bear are those of the host byte records in its bucket |
| Reader.GridIsNarrowest | src/aws_ops_monitor/web.py:384-384 | no narrower bucket spans the window with `limit` of them |
| Reader.GridSpansWindow | src/aws_ops_monitor/web.py:384-384 | bucket width times limit spans the window |
| Reader.BucketInRange | src/aws_ops_monitor/web.py:451-452 | every observation from the start to the end of the current second lands in buckets 0 to `limit` |
| Reader.CutDropsFew | src/aws_ops_monitor/web.py:384-485 | from a whole hour the cut drops at most one point; a start inside an already compacted hour adds at most one bucket of each half, both before the window |
| Reader.CutTotals | src/aws_ops_monitor/web.py:485-485 | the host totals before the cut are those shown plus those of the few oldest points that were dropped |
| Reader.XrayBucketsRead | src/aws_ops_monitor/web.py:410-441 | every bucket of the Xray half lies in the window, or is a negative one, that of a compacted hour across its start |
| Reader.XrayBucketInRange | src/aws_ops_monitor/web.py:410-410 | inside the window SQL truncation and floor division give the same bucket |
| Reader.RunIsUpToNow | src/aws_ops_monitor/store.py:575-594 | over any run recorded up to now, rollup buckets are whole hours that start by now |
| Reader.ReaderAgreesWithWriter | src/aws_ops_monitor/web.py:443-485 | before the cut, reader and writer show the same host bytes in total, whatever the grid |
| Reader.ReaderTotalsSurviveRetention | src/aws_ops_monitor/web.py:388-469 | from any unexpired start the reader's host totals, over all points before the cut, are never below those over the full history, and equal with no rollup bucket across the start, even on different grids |
| LabelsJson.InsertionOrderIsForgotten | src/aws_ops_monitor/store.py:101-112 | the stored text of a label map does not depend on insertion order |
| LabelsJson.LabelsRoundTrip | src/aws_ops_monitor/store.py:101-112 | decoding the stored text returns the label map |
| LabelsJson.StringRoundTrip | src/aws_ops_monitor/store.py:101-108 | every string, with every escape, reads back as itself up to its closing quote |
| LabelsJson.EscapesAre | src/aws_ops_monitor/store.py:101-112 | quotes, backslashes and control characters are escaped, and nothing else is |
| LabelsJson.UnicodeEscapeIs | src/aws_ops_monitor/store.py:101-112 | the decoder reads a four-digit escape as the character of that number, and none for half a surrogate pair |
| LabelsJson.KeyMaterialIdentifies | src/aws_ops_monitor/store.py:115-117 | two counters share key material if and only if source, name and labels are equal |
| LabelsJson.SeparatedByZero | src/aws_ops_monitor/store.py:115-117 | source, name and labels are separated by the character zero |
| XrayStats.TextItems | src/aws_ops_monitor/collectors/xray.py:88-98 | every match of the text pattern is an entry, unless there is none or a name cannot be decoded |
| XrayStats.ParsePayload | src/aws_ops_monitor/collectors/xray.py:73-156 | a short key, output that is too large, output that holds no list of entries and an infinite value under a supported name stop the parser, in that order; anything else is parsed |
| XrayStats.ParseStats | src/aws_ops_monitor/collectors/xray.py:120-156 | for every accepted key the last accepted entry, in the order of the keys, unless an entry raises |
| XrayStats.KeepLast | src/aws_ops_monitor/collectors/xray.py:120-155 | the dictionary holds exactly the accepted keys, each with its last accepted entry, unless an entry raises |
| XrayStats.WellFormedStatIsAccepted | src/aws_ops_monitor/collectors/xray.py:128-155 | an entry of the supported shape is taken apart correctly and only its pseudonym is kept |
| XrayStats.AcceptedIs | src/aws_ops_monitor/collectors/xray.py:124-155 | and nothing else is accepted: the name is scope, identity, traffic and direction joined, the value in range, the pseudonym that of the identity |
| XrayStats.RaisesIs | src/aws_ops_monitor/collectors/xray.py:136-139 | the parser raises exactly on an infinite value under a supported name |
| XrayStats.LastIs | src/aws_ops_monitor/collectors/xray.py:147-155 | what is kept for a key is its last accepted entry |
| XrayStats.JsonItemsAre | src/aws_ops_monitor/collectors/xray.py:73-85 | a list is the document itself, or under `stat`, or without that key under `stats` |
| XrayStats.ParsedCountersAreDistinct | src/aws_ops_monitor/collector.py:518-535 | whatever the payload, no counter is named twice and every label is valid |
| XrayStats.SnapshotAlwaysCommits | src/aws_ops_monitor/collector.py:518-535 | a snapshot later than the Xray cursors is never refused and moves exactly its own cursors, each to its parsed value under its scope, direction and identity labels |
| XrayStats.CycleAlwaysCommits | src/aws_ops_monitor/collector.py:366-366 | so does a whole cycle, host and Xray counters in one batch, when its host counters are distinct and later too |
| AlarmPages.CollectAlarmPages | src/aws_ops_monitor/collectors/aws_lightsail.py:736-788 | against any server: at most 100 requests, no token sent twice, an unflagged list if and only if the pages are a complete chain, and in every list the first 10000 alarms of the pages received |
| AlarmPages.CompleteChainIsFollowed | src/aws_ops_monitor/collectors/aws_lightsail.py:736-788 | a chain within every limit is followed to its end |
| AlarmPages.CompleteIs | src/aws_ops_monitor/collectors/aws_lightsail.py:736-788 | the limits in numbers: 100 pages, tokens of 1024 characters and none twice, 10000 alarms |
| AlarmPages.KeepWithinLimit | src/aws_ops_monitor/collectors/aws_lightsail.py:764-771 | the alarms of a page are kept in order as far as there is room, and truncation is reported if and only if there was not |
| AlarmPages.PageSplitIrrelevant | src/aws_ops_monitor/collectors/aws_lightsail.py:764-788 | two servers that split the same alarms differently over complete chains give the same list and the same counts |
| AlarmPages.EvaluateAlarms | src/aws_ops_monitor/collectors/aws_lightsail.py:362-385 | every alarm looked at is counted once as active, fine or indeterminate; beyond 10000 the result is truncated |
| AlarmPages.CountsAre | src/aws_ops_monitor/collectors/aws_lightsail.py:368-379 | active and fine alarms by their texts, in whatever case |
| AlarmPages.NoneActiveAllOk | src/aws_ops_monitor/collectors/aws_lightsail.py:368-379 | no active and no indeterminate alarm if and only if every alarm is OK |
| Lightsail.MetricValues | src/aws_ops_monitor/collectors/aws_lightsail.py:132-148 | exactly the usable, non-negative values, in order |
| Lightsail.SumMetric | src/aws_ops_monitor/collectors/aws_lightsail.py:151-158 | saturating after every addition equals the exact sum saturated once; no usable point gives no sum |
| Lightsail.MonthSumIsOrderFree | src/aws_ops_monitor/collectors/aws_lightsail.py:151-158 | the sum does not depend on the order of the points |
| Lightsail.MonthSumOfOne | src/aws_ops_monitor/collectors/aws_lightsail.py:132-158 | a usable point counts with its whole part, an unusable or negative one not at all |
| Lightsail.MonthSumAddsUp | src/aws_ops_monitor/collectors/aws_lightsail.py:151-158 | sums of two lists of points add up, saturated at the largest SQLite integer |
| Lightsail.FiguresAre | src/aws_ops_monitor/collectors/aws_lightsail.py:523-545 | the transfer is the saturated sum of both directions; the plan is what is configured, or the reported gigabytes of 1073741824 bytes |
| Firewalls.RuleScopes | src/aws_ops_monitor/collectors/aws_lightsail.py:236-261 | exactly the categories of the named sources, and exactly how many are invalid |
| Firewalls.ScopesTell | src/aws_ops_monitor/collectors/aws_lightsail.py:219-261 | none is invalid if and only if every list is a list of networks and something is named; a world scope if and only if some prefix, of either version, has length zero |
| Firewalls.CategoryIs | src/aws_ops_monitor/collectors/aws_lightsail.py:219-233 | every category by what the source is, the first that applies |
| Firewalls.CategoryTextIs | src/aws_ops_monitor/collectors/aws_lightsail.py:219-233 | and the text recorded for it |
| Firewalls.ShapeIs | src/aws_ops_monitor/collectors/aws_lightsail.py:264-288 | a shape is valid if and only if the protocol has no ports or the ports are whole numbers in range and order; expected if and only if it is one expected TCP port |
| Firewalls.DescriptorIs | src/aws_ops_monitor/collectors/aws_lightsail.py:264-288 | what is shown of protocol and ports |
| Firewalls.EvaluateFirewall | src/aws_ops_monitor/collectors/aws_lightsail.py:291-327 | the safe texts of the open rules, the scopes seen and both counts, collected over the rules |
| Firewalls.RulesText | src/aws_ops_monitor/collectors/aws_lightsail.py:328-338 | the text shown is the first rules in order, cut before the first that makes it longer than 480 characters and marked as cut; with at most 485 characters a health record always accepts it |
| Firewalls.HarmlessFirewall | src/aws_ops_monitor/collectors/aws_lightsail.py:291-344 | both counts are zero if and only if every rule is harmless |
| Firewalls.HarmlessIs | src/aws_ops_monitor/collectors/aws_lightsail.py:264-327 | a harmless rule by its fields alone |
| Firewalls.HarmlessWorldOpen | src/aws_ops_monitor/collectors/aws_lightsail.py:264-288 | an open harmless rule with a source that is every address is for one TCP port, an expected one |
| Lightsail.CheckMetrics | src/aws_ops_monitor/collectors/aws_lightsail.py:547-578 | no concern about CPU, burst capacity and status checks if and only if all points are inside the thresholds |
| Lightsail.Extreme | src/aws_ops_monitor/collectors/aws_lightsail.py:791-820 | the maximum is below a bound if and only if every value is, the minimum above one if and only if every value is |
| Lightsail.CheckInstance | src/aws_ops_monitor/collectors/aws_lightsail.py:580-603 | no concern about the instance if and only if its state is known, its address static and a plan allocation configured or reported |
| Lightsail.CheckFirewall | src/aws_ops_monitor/collectors/aws_lightsail.py:618-626 | no concern about the firewall if and only if its rules are a list and every one is harmless |
| Lightsail.CheckAlarms | src/aws_ops_monitor/collectors/aws_lightsail.py:628-637 | no concern about the alarms if and only if they are a complete list and every one is OK |
| Lightsail.CheckSecurity | src/aws_ops_monitor/collectors/aws_lightsail.py:618-637 | no concern about firewall and alarms if and only if every rule is harmless and every alarm is OK and none is missing |
| Lightsail.Evaluate | src/aws_ops_monitor/collectors/aws_lightsail.py:523-654 | HEALTHY if and only if every read worked and everything is well, and then every rule open to the world is for an expected port; UNAVAILABLE if and only if the instance is known to be down or no read worked; the traffic figures |
| Lightsail.HealthySawEveryAlarm | src/aws_ops_monitor/collectors/aws_lightsail.py:629-654 | HEALTHY over paged alarms means a complete chain with every alarm on every page OK |
| Lightsail.HealthyExposure | src/aws_ops_monitor/collectors/aws_lightsail.py:291-327 | HEALTHY means that every open rule with a source that is every address, in either list, is for one expected TCP port |
| Lightsail.Poll | src/aws_ops_monitor/collectors/aws_lightsail.py:512-654 | paging and evaluating together: HEALTHY if and only if everything is well, and then every alarm of a complete chain is OK and every rule open to the world is for an expected port |
| AwsRuns.LightsailCollector.Collect | src/aws_ops_monitor/collectors/aws_lightsail.py:450-476 | a fresh cache is repeated unchanged; otherwise the attempt is noted, and a snapshot is cached unless the attempt raises |
| AwsRuns.LightsailCollector.Observe | src/aws_ops_monitor/collector.py:288-323 | a cycle records what the adapter returns, or a bare health record when it raises or is switched off |
| AwsRuns.LightsailCollector.ObserveAll | src/aws_ops_monitor/collectors/aws_lightsail.py:450-476 | over any run of cycles every snapshot was taken at its own or an earlier call, snapshots are distinct when the cycles are a millisecond apart, and once the first call stores one the polls are the attempts of the rate gate |
| AwsProjection.TablesHoldSnapshots | src/aws_ops_monitor/store.py:413-426 | after any run the AWS gauges and health records in the tables are those of whole snapshots |
| AwsProjection.OnlyNewestIsAttested | src/aws_ops_monitor/store.py:207-217 | against the newest health record only gauges of its own poll are attested |
| AwsProjection.AttestedIs | src/aws_ops_monitor/store.py:207-217 | a gauge is attested if and only if its time is that of the health record to the millisecond |
| AwsProjection.FiguresComeFromOnePoll | src/aws_ops_monitor/store.py:958-979 | every AWS figure shown is the one of the poll whose health record is newest, or absent |
| AwsProjection.TransferShownIsSum | src/aws_ops_monitor/collectors/aws_lightsail.py:527-545 | the transfer shown is the saturated sum of the two directions shown, and is shown if and only if both are |
| AwsProjection.ShownIsMonthSum | src/aws_ops_monitor/collectors/aws_lightsail.py:527-545 | each direction shown is the saturated sum of the points of the newest poll, and the transfer their saturated sum |
| AwsProjection.CurrentExactly | src/aws_ops_monitor/store.py:163-204 | a health record vouches for figures if and only if its poll was answered, of an instance not known to be down, in the current month, within its freshness and not more than a minute ahead |
| AwsProjection.ShownExactly | src/aws_ops_monitor/store.py:958-994 | the four figures by name: those of the newest poll while it vouches for them, and none otherwise |
| AwsProjection.NothingShown | src/aws_ops_monitor/store.py:958-994 | with no poll, or after a cycle that failed or was switched off, nothing is shown |
| AwsRuns.Live | src/aws_ops_monitor/collector.py:288-366 | a whole life of adapter and store, with passes, refusals, failures and cycles without AWS, meets the hypotheses of these theorems, and the transfer shown at its end is the sum of the directions shown |
| RateGate.PathProbeCollector.constructor | src/aws_ops_monitor/collectors/probes.py:365-378 | an interval below 300 seconds is raised to 300 |
| RateGate.PathProbeCollector.Collect | src/aws_ops_monitor/collectors/probes.py:380-388 | the attempt is noted before the probes run, whether or not they raise |
| RateGate.PathProbeCollector.CollectAll | src/aws_ops_monitor/collectors/probes.py:380-388 | over a run of calls the attempts are those of the gate |
| RateGate.AttemptsAreSpaced | src/aws_ops_monitor/collectors/probes.py:380-387 | consecutive attempts are at least the interval apart |
| RateGate.NoNeedlessWait | src/aws_ops_monitor/collectors/probes.py:380-387 | after any call the newest attempt is younger than the interval |
| RateGate.AttemptIffDue | src/aws_ops_monitor/collector.py:325-331 | a call is an attempt if and only if none came before it or the newest is the interval away |
| RateGate.WindowBound | src/aws_ops_monitor/collector.py:325-331 | any window holds at most one attempt more than the whole intervals that fit into it |
| Collector.Collector.CollectOnce | src/aws_ops_monitor/collector.py:325-366 | a cycle notes a due attempt, runs the pass, which may fail before or after it takes effect, records outcome and counts, and commits everything as one batch |
| Collector.CollectedIsStored | src/aws_ops_monitor/collector.py:325-366 | whatever a cycle collected is stored after it, however old: its pass comes first |
| Collector.CycleIsReported | src/aws_ops_monitor/collector.py:332-366 | a cycle commits what was collected, and a due attempt is reported by name: outcome, settings, and how many records the pass compacted and pruned |
| Collector.Collector.Live | src/aws_ops_monitor/collector.py:325-366 | a whole life of the daemon, on the database of any earlier run, continues that run; its passes are attempts of the gate |
| Collector.LifeEndsInFinalPass | src/aws_ops_monitor/collector.py:325-337 | such a run meets the conditions of the schedule theorems at any time neither its clock nor the earlier run has passed |
| Deploy.Machine.Script | deploy/transaction.sh:99-105 | a script stops at its first failing command |
| Deploy.RestStays | deploy/install.sh:266-285 | enabling, starting and checking services leaves link, pointer and releases alone |
| Deploy.ReplacedWhileDown | deploy/rollback.sh:131-140 | the database is replaced only after both services were stopped |
| Deploy.Machine.Deploy | deploy/transaction.sh:69-114 | the backup that may refuse, then the deployment with its exit trap, command by command |
| Deploy.Restarted | deploy/aws-ops-monitor-web.service:4-5 | restarting what was active makes that active again, and besides it only a collector that was down and that the dashboard requires |
| Deploy.SuccessfulRollbackRestores | deploy/rollback.sh:131-191 | a rollback that succeeds restores link, pointer, enablement and the database that was there, up to what was written since, from whatever the failure left, and all that was captured if and only if it started no collector that was down, or one that was gone again without a trace |
| Deploy.FailedDeployment | deploy/transaction.sh:75-97 | a failure at any step: a rollback that succeeds restores if and only if it started no such collector; when the last resort takes every service down, the machine ends restored or offline if and only if that did not happen; a failed first installation ends without `current` |
| Deploy.SafeExactly | deploy/transaction.sh:75-97 | for each captured host: every failed deployment is safe if and only if the last resort takes every service down and the host did not run the dashboard alone with a release to go back to |
| Deploy.StuckMachine | deploy/transaction.sh:86-91 | the first witness: on any host, a deployment whose verification fails and whose services cannot all be taken down |
| Deploy.CollectorPulledIn | deploy/rollback.sh:174-185 | the second witness: on any host with the dashboard alone, a rollback in which everything goes well ends with both services running |
| Deploy.CurrentNeverDangles | deploy/install.sh:125-264 | wherever the installation stops, `current` is the old link or the complete new release |
| Deploy.SuccessfulDeployment | deploy/install.sh:252-285 | success means the new release is staged and linked, both services enabled and running, and the replaced release remembered |

## Left out

- SQLite itself: WAL, locking, checkpoints, file modes, float rounding of timestamps and gauge values, and the overflow of a SUM, which aborts a pass; `IntegerRange.FitsExactlyWithoutResets` says when a sum always fits.
- SHA-256, SHA-1 and HMAC: the digest is a parameter, and nothing is claimed about collisions or about `deploy/tree-hash.py`.
- Python strings beyond Dafny's characters: lone surrogates, and escaped surrogate pairs, which the decoder here refuses although the encoder never writes them; it also refuses JSON whitespace.
- MetricStores.MetricStore.Series: the dictionary also sums figures the chart does not draw, and the ORDER BY of the union is not modelled, because sums do not depend on it.
- Reader.ReaderAgreesWithWriter: says nothing about the Xray columns: the reader takes its scope from the cursors and the writer from the records drawn, and they truncate differently.
- AwsRuns.LightsailCollector.Collect: snapshots hold the traffic gauges only; CPU, burst and status gauges, gauge labels, the remaining health details and the wording of messages are not modelled.
- AwsProjection.FiguresComeFromOnePoll: the calendar is a parameter; a freshness given as text, which Python would convert, counts as not fresh; the provenance text the plan allocation is shown with is not modelled.
- AwsRuns.LightsailCollector.ObserveAll: promises the spacing of polls only when the first call stores a snapshot, because the program does not wait after an attempt that raised before any was stored.
- AwsRuns.Live: an earlier life is one with the same settings; snapshots of two lives are distinct when their clocks were, which is then a hypothesis.
- Lightsail.Evaluate: values beyond the range of a float, for which the program raises, do not occur among real numbers.
- Firewalls.EvaluateFirewall: what Python makes of a source or a port is a parameter, and the compatibility wrappers are left out.
- XrayStats.ParsePayload: JSON syntax and the matches of the text pattern are parameters, and so is the reset identity of the container.
- Collector.Collector.CollectOnce: what the collectors return is a parameter.
- Deploy.Machine.Deploy: a command on one thing takes effect or does not, one on several services may reach any of them, and a service goes down by itself only when one is started; what the units require is fixed, and otherwise unit files, users, secrets, argument checks, the lock and the content of releases are commands without modelled effect.
- Deploy.FailedDeployment: a restored database holds what was captured plus what the restarted old collector wrote since.
- The HTTP server, authentication, scrubbing, static pages, configuration parsing, subprocesses, sockets, procfs and boto3: foreign code and user interface.
- The status texts, alerts, resource percentages and all-time totals of the overview: they are read off single records and depend on no history.
