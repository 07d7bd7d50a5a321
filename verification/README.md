# Verification of Harry's scraping and storage logic

Harry is a Go scraper: a scheduled scrape, an activity sampler and a dead connection detector (DCD) share
in-memory state, collect from Oracle databases and push batches into PostgreSQL, where writes can fail. This
project models the parts of it that are hard to get right by reading one function at a time, and proves what
they keep over every input, every run and every interleaving.

Every section of code under one lock is one atomic step. An instant is a whole number of nanoseconds since the
zero value of Go's `time.Time`. Code that works on fields, maps and slices is a class or a method with loops; what
such a method promises is a function or predicate on values, and the state machines and lemmas are about those.
A step of a state machine that cannot happen changes nothing, so a run is any sequence of steps.

| file | models |
|---|---|
| `RepositoryIngest.dfy` | ingest accounting: batch counts, pending map, flush, upsert, and the conservation of counts |
| `RuntimeQueue.dfy` | the runtime telemetry queue on Go slices, and every interleaving of its writers |
| `RuntimeStatus.dfy`, `SqlTexts.dfy`, `CursorMetadata.dfy` | the latest-wins tables and the day-throttled refresh |
| `Calendar.dfy`, `Retention.dfy` | dates as partition names, daily partitions, retention, references |
| `ActivitySampling.dfy` | the ASH watermark protocol |
| `LeaderElection.dfy` | the elector, its monitor, and a server with session-level advisory locks |
| `ConnectionLifecycle.dfy`, `SessionLock.dfy`, `ConnectionGate.dfy` | connection states and DCD, the session lock, the connect gate |
| `ScrapeFanOut.dfy` | workers on bounded channels, drained one after another |
| `AlertLog.dfy` | the chunked backward scan of the alert log and the append |
| `SqlConsumers.dfy`, `PlanCache.dfy`, `OperationalCounters.dfy` | stateful counters, top-N and the plan cache |
| `Common.dfy` | options, results, instants |

## What the code does not do

Where a property turned out false of the code, the code is modelled as it is: a lemma gives an input that breaks
the property, and another the condition under which it holds.

- A row dated before year one has a negative instant, which the zero-valued latest-times of a counts record
  swallow: counts are conserved exactly for days from year one on and days without rows
  (`RepositoryIngest.Conservation`, `RowBeforeYearOneIsForgotten`, `CollectIsHomomorphismIff`).
- Telemetry can be stored out of record order by two writers (`RuntimeQueue.TwoWritersCanReorder`); order is safe
  exactly while at most one writer holds a batch (`OrderIsSafeIff`).
- The runtime status table depends on batching and commit order exactly if a key has a tie at its latest time
  (`RuntimeStatus.TiesDependOnBatching`, `CommitOrderDoesNotMatterIff`); so does a SQL text.
- A reference that reaches the table before its SQL text is lost, so `last_referenced_at`, by which retention
  deletes, depends on batching and commit order (`SqlTexts.ReferenceBeforeTextIsLost`, `BatchingDoesNotMatterIff`,
  `CommitOrderDoesNotMatterIff`).
- `first_seen_at` of cursor metadata never moves once a row exists, although the upsert contains `least`: the
  `where` clause never lets an older sighting through (`CursorMetadata.FirstSeenIsFirstArrival`). Metadata that
  arrives out of order can stay stale (`OutOfOrderMetaCanBeStale`, `MetaAgreesThroughoutIff`).
- A row that becomes visible between a poll's query and the end of its write is not covered by the watermark in
  force when it appeared, but by that of the first successful poll that queries afterwards
  (`ActivitySampling.RowBetweenReadAndWriteIsMissed`, `ExactlyOnceIffInTime`). A row that the first poll of a process
  passes over can be stored by the second, which may ask from further back (`RowPassedOverIsStoredLater`); what
  holds of every row is `StoredOnceIffCaught`.
- The ASH watermark can move back when rows leave the source (`WatermarkFallsIfRowsLeave`); it never does exactly
  if every successful poll reads a row at or past it, or none past its bound (`WatermarkNeverDecreasesIff`).
- Two servers that are both writable can each have a leader (`LeaderElection.TwoServersCanHaveTwoLeaders`); on one
  server there is only one. An outage shorter than two validation intervals can go unnoticed
  (`ShortOutageGoesUnnoticed`, `AlwaysNoticedIff`).
- `scanRows` and four collectors of `performance.go` check the deadline before they defer the release of the
  session lock, so a query that succeeds just as its deadline passes keeps the read lock for good
  (`SessionLock.CheckDeadlineThenRelease`); a writer can ever enter again exactly if no query has done so
  (`WritersCanEnterIffNothingAbandoned`).
- An alert log whose last line is unterminated glues the next record to it, and one line over the limit makes
  every later scan that reaches it fail, for every database of a shared file
  (`AlertLog.UnterminatedTailSwallowsRecord`, `ReadsBackIff`).
- A table name over 52 bytes leaves no room for a partition's date within PostgreSQL's 63 bytes: days share a
  partition name, and retention never drops those partitions (`Retention.NamesAreDistinctIff`). Nor does it drop
  days outside years 0 to 9999.
- Retention can delete a SQL text or plan under a sample that remains, in four ways: the sample is dated a day
  ahead of its reference; the row comes after the sample with an earlier date; the sample is older than the cutoff
  of a cleanup under way; or its partition is never dropped, because of its year or of its table's name
  (`Retention.SampleAheadLosesItsRow`, `LateTextLosesItsRow`, `OldSampleInSweepLosesItsRow`,
  `UndroppableSampleLosesItsRow`). Otherwise it cannot (`ReferencesStayWholeIff`).

## Model

| member | source | states |
|---|---|---|
| RepositoryIngest.AddIsCommutative | postgresql/postgresql.go:1439-1475 | merging two counts records gives the same whichever is merged into which |
| RepositoryIngest.AddIsAssociative | postgresql/postgresql.go:1439-1475 | merging is associative, with the zero time as "none" |
| RepositoryIngest.ZeroIsIdentityIff | postgresql/postgresql.go:1439-1475 | the zero record is neutral on exactly the records whose latest-times do not precede the zero time |
| RepositoryIngest.LatestMeaning | postgresql/postgresql.go:1427-1437 | the specification's latest time is attained by a counted row and exceeded by none |
| RepositoryIngest.EarliestMeaning | postgresql/postgresql.go:1427-1437 | the earliest time is attained and undercut by none |
| RepositoryIngest.TallyMeaning | postgresql/postgresql.go:1496-1574 | each counter is the number of dated, named rows of its kind on that day and database |
| RepositoryIngest.CollectRepositoryIngest | postgresql/postgresql.go:1477-1574 | one pass over a batch gives, for each (day, database) it has, the row-by-row count and times, and no other key |
| RepositoryIngest.CollectIsHomomorphismIff | postgresql/postgresql.go:1496-1574 | collecting two batches joined is collecting each and merging, exactly if the day is from year one on, or both batches have rows of the key, or neither has |
| RepositoryIngest.AccountedIsHomomorphism | postgresql/postgresql.go:1439-1475 | merging a batch into the account of a history gives the account of the longer history |
| RepositoryIngest.IngestAccounting.RecordRepositoryIngest | postgresql/postgresql.go:1576-1588 | the pending map becomes its merge with the batch's counts |
| RepositoryIngest.IngestAccounting.TakeForFlush | postgresql/postgresql.go:1590-1611 | a flush takes the whole pending map and leaves it empty exactly when forced, first, or the interval after the last attempt is over; five minutes if none is configured |
| RepositoryIngest.IngestAccounting.PutBack | postgresql/postgresql.go:1613-1621 | a failed flush merges what it took back under what was recorded meanwhile |
| RepositoryIngest.UpsertAdds | postgresql/postgresql.go:1670-1696 | the SQL upsert, with NULL-ignoring least and greatest, is the in-memory merge read through `nullableTime`; the flush time kept is the later one |
| RepositoryIngest.WriteRepositoryIngest | postgresql/postgresql.go:1625-1728 | every taken key is upserted once, in whatever order, and nothing else changes; without a commit nothing does |
| RepositoryIngest.NoBatchIsLost | postgresql/postgresql.go:1144-1151 | every committed batch is recorded or still held by its writer, counted with multiplicity |
| RepositoryIngest.DroppedIffBeforeCutoffDay | postgresql/postgresql.go:2870-2910 | retention takes from the accounting table exactly the rows of the days before that of its cutoff |
| RepositoryIngest.FlushTakesAllPending | postgresql/postgresql.go:1590-1611 | in the state machine too a flush begins exactly when none is under way and it is due, and then has all that was pending |
| RepositoryIngest.FlushEndsEitherWay | postgresql/postgresql.go:1613-1735 | in every reachable state a flush that fails adds all it took to what is pending, and one that commits to what is stored |
| RepositoryIngest.Conservation | postgresql/postgresql.go:1576-1623 | in every reachable state, durable + in flight + pending of a key retention has not reached is the row-by-row summary of all recorded batches, exactly when the day is not before year one or has no rows |
| RepositoryIngest.LastFlushIsDurable | postgresql/postgresql.go:2927-2937 | once all writers have recorded and no flush is under way, a forced flush that commits leaves the summary of every committed batch in the table |
| RepositoryIngest.RowBeforeYearOneIsForgotten | postgresql/postgresql.go:1439-1475 | a row dated before year one whose latest time the pending map forgets |
| RuntimeQueue.Append | postgresql/postgresql.go:1265 | Go's append: the same contents in place or in a fresh array, and the old array untouched in the second case |
| RuntimeQueue.ShiftDown | postgresql/postgresql.go:1266-1270 | the overlapping in-place copy leaves the newest samples, in order, at the front |
| RuntimeQueue.Queue.QueueRuntime | postgresql/postgresql.go:1260-1275 | the queue becomes the newest 10000 of itself followed by the new samples, never on an array a writer holds |
| RuntimeQueue.Queue.TakePendingRuntime | postgresql/postgresql.go:1277-1295 | all or nothing is handed over, all exactly when there is something and it is forced, first, or the interval after the last attempt is over (a minute if none is configured); the handed array is no longer the queue's |
| RuntimeQueue.Queue.RequeueRuntime | postgresql/postgresql.go:1297-1311 | the queue becomes the newest 10000 of the failed batch followed by itself, and takes over the batch's array or a fresh one |
| RuntimeQueue.EverySampleInOnePlace | postgresql/postgresql.go:1055-1067 | for any writers and any run, each recorded sample is once in exactly one of pending, a writer's batch, committed or dropped; nothing else is; pending stays within the cap |
| RuntimeQueue.FailedBatchGoesInFront | postgresql/postgresql.go:1297-1311 | of a failed batch followed by the queue the newest 10000 are kept and the rest dropped |
| RuntimeQueue.TakeTakesAllPending | postgresql/postgresql.go:1277-1295 | a writer without a batch takes the whole queue exactly when there is one and a flush is due |
| RuntimeQueue.DropsOnlyOldestAboveCap | postgresql/postgresql.go:1266-1270 | a step drops only what would exceed the cap, and then the front of what would be queued |
| RuntimeQueue.Queue.FlushRuntime | postgresql/postgresql.go:2939-2964 | undisturbed, a flush writes the whole queue and empties it, or leaves it as it was if the write fails |
| RuntimeQueue.OrderIsSafeIff | postgresql/postgresql.go:1055-1067 | in any state: every order and outcome of finishing the batches now held leaves committed and pending samples in record order exactly if at most one writer holds a batch and committed, held and pending are in order |
| RuntimeQueue.RecordOrderKept | postgresql/postgresql.go:2939-2964 | over any run in which no writer takes a batch while another holds one, committed, held and pending samples together are in record order |
| RuntimeQueue.SingleWriterKeepsOrder | postgresql/postgresql.go:1260-1311 | with one writer that always holds, so committed ++ pending is a subsequence of record order |
| RuntimeQueue.TwoWritersCanReorder | postgresql/postgresql.go:1055-1067 | a run of two writers that commits two samples in the opposite order |
| RuntimeStatus.KeysAgreeIffColumnsDo | postgresql/postgresql.go:1366-1369 | two samples are of one key iff they agree in scope and scheduler |
| RuntimeStatus.SelectedIsLatest | postgresql/postgresql.go:1370-1376 | the sample selected for a key is of that key, in the batch, and of greatest time; every key of the batch is selected |
| RuntimeStatus.SelectLatest | postgresql/postgresql.go:1366-1376 | the loop over indices selects just those samples |
| RuntimeStatus.WriteRuntimeSamples | postgresql/postgresql.go:1339-1392 | the table after a batch holds, per key, the selected sample unless the stored one is newer |
| RuntimeStatus.RunHoldsLatest | postgresql/postgresql.go:1339-1392 | after any batches each row is a committed sample of maximum observed_at, and each key seen has one |
| RuntimeStatus.CommitOrderDoesNotMatterToTimes | postgresql/postgresql.go:1364 | any order and batching of the same samples gives the same keys and the same times |
| RuntimeStatus.CommitOrderDoesNotMatterIff | postgresql/postgresql.go:1364-1376 | any order and batching of the same samples gives the same table exactly if no key has two samples at its latest time |
| RuntimeStatus.TiesDependOnBatching | postgresql/postgresql.go:1364-1376 | two samples of one time end differently in one batch and in two |
| SqlTexts.UsableIffNamedAndDated | postgresql/postgresql.go:1806-1809 | a reference counts iff its database and SQL ID are not blank and its time is not zero |
| SqlTexts.CollectSQLTextUpdates | postgresql/postgresql.go:1803-1871 | each text key gets its batch's reduction in loop order; each usable reference key its latest time |
| SqlTexts.RecordDescribes | postgresql/postgresql.go:1821-1857 | a batch's record has the earliest and latest time of its sightings and a text seen at the latest |
| SqlTexts.WriteSQLTexts | postgresql/postgresql.go:1748-1801 | every row after the upserts and the reference update is the row rule applied to the row before, key by key |
| SqlTexts.RunDescribes | postgresql/postgresql.go:1752-1763 | after any batches a row exists iff its text was seen, with minimum first seen, maximum last seen and a text seen at that maximum |
| SqlTexts.CommitOrderDoesNotMatterToTimes | postgresql/postgresql.go:1752-1763 | any order and batching of the same sightings gives the same rows with the same first and last times |
| SqlTexts.BatchingOfTextsDoesNotMatterIff | postgresql/postgresql.go:1752-1763 | any order and batching of the same sightings gives the same text and times exactly if the key has no two texts at its latest instant |
| SqlTexts.CommitOrderDoesNotMatterIff | postgresql/postgresql.go:1752-1796 | whole rows, last reference included, are the same in every commit order of the same batches exactly if none has the text, or no two latest texts clash and no batch without the text refers to it later than all batches with it |
| SqlTexts.BatchingDoesNotMatterIff | postgresql/postgresql.go:1748-1871 | collecting two batches together and upserting gives the text and times of upserting them in turn, ties included; and the same last reference exactly if a row existed, or the first batch has the text, or the second has not, or what the first refers to is no later than the second |
| SqlTexts.ReferenceBeforeTextIsLost | postgresql/postgresql.go:1791-1796 | a reference and a text, whose row is referenced at ten written together or text first, and at five reference first |
| SqlTexts.ReferencesReachRows | postgresql/postgresql.go:1791-1796 | a row is last referenced at the latest of the batch's usable references, its sightings, and what it had before |
| CursorMetadata.SightsIfUsable | postgresql/postgresql.go:1884-1894 | a sample counts for a key iff it agrees in all five columns, is not blank in database or SQL ID, and has a time |
| CursorMetadata.CollectSQLCursorMetadata | postgresql/postgresql.go:1881-1900 | a key is collected iff it has a usable sample, and then with the first of its latest ones |
| CursorMetadata.WriteSQLCursorMetadata | postgresql/postgresql.go:1902-1948 | a key's row becomes the throttled upsert of its first latest usable sample, and a key without one keeps its row |
| CursorMetadata.FirstLatestIsUnique | postgresql/postgresql.go:1895-1897 | there is only one such sample, so the order of keys does not show |
| CursorMetadata.WrittenIffDayOverOrChanged | postgresql/postgresql.go:1924-1928 | a stored row is rewritten exactly when its UTC day is over, or a sighting no older than it differs in schema or module |
| CursorMetadata.DeletedIffLastSeenBefore | postgresql/postgresql.go:2804-2832 | a delete that reaches a row takes it exactly if it was last seen before the cutoff |
| CursorMetadata.DecisionsAgreeIffAligned | postgresql/postgresql.go:2764-2766 | two times on one day are always on the same side of a cutoff exactly when the cutoff is a midnight |
| CursorMetadata.ThrottledRefinesEager | postgresql/postgresql.go:1908-1928 | over any sightings in any order, interleaved with day-aligned retention deletes, the table has exactly the rows it would have had every sighting been written, each last seen on the UTC day of the true maximum, so every day-aligned delete decides the same |
| CursorMetadata.EagerIsExact | postgresql/postgresql.go:1913-1923 | the upsert without its `where` clause stores the exact minimum and maximum of all sightings, and metadata seen at the maximum |
| CursorMetadata.MetaAgreesIff | postgresql/postgresql.go:1913-1928 | a sighting keeps schema and module the same as in the unthrottled table exactly unless it differs and lies between the stored and the true latest time |
| CursorMetadata.MetaAgreesThroughoutIff | postgresql/postgresql.go:1913-1928 | over any run of sightings and aligned deletes they are the same at every point exactly if no sighting is such |
| CursorMetadata.InOrderMetaIsLatest | postgresql/postgresql.go:1913-1928 | with sightings in time order, stored schema and module are those of the last sighting, whose time the unthrottled table has |
| CursorMetadata.OutOfOrderMetaCanBeStale | postgresql/postgresql.go:1913-1928 | three sightings out of order that leave stale schema and module |
| CursorMetadata.FirstSeenNeverMoves | postgresql/postgresql.go:1922-1928 | the `where` clause never lets `first_seen_at` change |
| CursorMetadata.FirstSeenIsFirstArrival | postgresql/postgresql.go:1922-1928 | over any sightings and deletes it is the time of the sighting that made the row, and so the earliest since then exactly if no later arrival is older |
| Calendar.DateOfIsInverse | postgresql/postgresql.go:2683-2686 | every day number has a valid Gregorian date with that number |
| Calendar.DayNumberIsInjective | postgresql/postgresql.go:2683-2686 | and no two valid dates share one |
| Calendar.TomorrowFollowsToday | postgresql/postgresql.go:2683-2686 | counting from 0001-01-01 each day is followed by the next by the Gregorian rule, leap years included |
| Calendar.ParseFormat | postgresql/postgresql.go:2689 | a date reads back from its own text iff its year takes four digits, and is not read at all otherwise |
| Calendar.TextIsDigits | postgresql/postgresql.go:2689 | a date's text is four, two and two digits, the decimal digits of year, month and day, with underscores between |
| Calendar.FormatParse | postgresql/postgresql.go:2920-2923 | any text that reads as a date is that date's own text |
| Calendar.FormatIsInjective | postgresql/postgresql.go:2689 | no two dates share a text, whatever their years |
| Retention.NameIsTableAndDate | postgresql/postgresql.go:2688-2696 | a partition is named table, underscore, date, in the table's schema; PostgreSQL keeps 63 bytes of that |
| Retention.PartitionDayUndoesIdentifier | postgresql/postgresql.go:2688-2696 | a partition's name gives its day back exactly for four-digit years and table names that leave room, and no day otherwise |
| Retention.IdentifierUndoesPartitionDay | postgresql/postgresql.go:2912-2925 | a partition from which a day is read has the name that day is given |
| Retention.NamesAreDistinctIff | postgresql/postgresql.go:2688-2696 | days have partition names of their own exactly when the table name leaves room |
| Retention.EnsureDailyPartitions | postgresql/postgresql.go:2630-2655 | existing partitions stay as they were, a partition of one day is there for each nonzero time's day and for nothing else |
| Retention.PartitionsAreDisjoint | postgresql/postgresql.go:2630-2655 | no two partitions hold one instant |
| Retention.WrittenTimesHaveOnePartition | postgresql/postgresql.go:2630-2655 | each written time is held by exactly one partition, the one named after its day |
| Retention.DropExpiredPartitions | postgresql/postgresql.go:2870-2910 | exactly the partitions whose read day is wholly past the cutoff are dropped, and counted |
| Retention.DroppedIffBeforeCutoffDay | postgresql/postgresql.go:2895 | a day's partition is dropped iff the day is before the day of the cutoff |
| Retention.UnreadableIsNeverDropped | postgresql/postgresql.go:2891-2894 | a partition whose name gives no day is kept for every cutoff |
| Retention.ReferenceOutlivesSampleIff | postgresql/postgresql.go:2786-2802 | for every table and sample: a text or plan is safe from every cutoff that spares the sample iff the table name leaves room, the day's year takes four digits, and the row was last referenced no earlier than the day |
| Retention.CleanupDeletesUnreferenced | postgresql/postgresql.go:2786-2802 | a cleanup deletes a row exactly if it was last referenced before the day of the cutoff |
| Retention.EnsuringAddsDays | postgresql/postgresql.go:2630-2655 | for a table whose name leaves room, ensuring partitions adds just the days written to |
| Retention.DroppingRemovesDays | postgresql/postgresql.go:2870-2910 | and dropping removes just the droppable days before that of the cutoff - none if the name leaves no room |
| Retention.CleanupsSpareIffSafe | postgresql/postgresql.go:2702-2737 | no cleanups to come, interrupted, completed or given up, can delete a row under a remaining sample exactly if every sample's partition is droppable and the row was last referenced no earlier than its day, nor than the cutoff day of a cleanup under way |
| Retention.ReferencesStayWholeIff | postgresql/postgresql.go:2702-2737 | for every table, over any run of writes and interrupted or given-up cleanups, with writes between dropping and deleting, that holds at every point exactly if every committed batch was a safe write: it leaves no row, or a row covering its own samples and, if it brings the row, those already there |
| Retention.ReferencesStayWhole | postgresql/postgresql.go:2786-2802 | so a run whose writes are safe, as defined there, deletes no row under a remaining sample |
| Retention.TextRowsAreReferenced | postgresql/postgresql.go:1752-1796 | the SQL text rows of `SqlTexts` move as the rows of that run do |
| Retention.SampleAheadLosesItsRow | postgresql/postgresql.go:2584-2590 | unsafe: a sample dated a day past its reference |
| Retention.LateTextLosesItsRow | postgresql/postgresql.go:1752-1796 | unsafe: a timely reference that finds no row, and a row that comes later with an earlier date |
| Retention.OldSampleInSweepLosesItsRow | postgresql/postgresql.go:2712-2734 | unsafe: a sample from before the cutoff of a cleanup that has dropped partitions and not yet deleted rows |
| Retention.UndroppableSampleLosesItsRow | postgresql/postgresql.go:2891-2897 | unsafe: a sample from year 10000 on, or of a table whose name leaves no room, however timely its reference |
| ActivitySampling.KeysAgreeIffColumnsDo | postgresql/postgresql.go:395 | two rows are one entry of the unique index iff they agree in time, database, instance, sample ID, session ID and serial number, a missing one being -1 |
| ActivitySampling.QueryMeaning | collector/activity.go:293-305 | a poll reads exactly the visible rows past its bound |
| ActivitySampling.LatestMeaning | collector/activity.go:182-186 | the watermark candidate of a database is the greatest positive sample time among its rows |
| ActivitySampling.InsertAllStores | postgresql/postgresql.go:2246 | inserting a batch stores an absent key once and leaves a present one alone, however often it is offered |
| ActivitySampling.InsertAllAdds | postgresql/postgresql.go:2194-2246 | a write leaves the stored rows as they are; every row offered finds one agreeing in all six columns; what is added are offered rows, unchanged, none agreeing with any other |
| ActivitySampling.Sampler.SinceFor | collector/activity.go:293-301 | the bound is the watermark less one interval, or two minutes back without one |
| ActivitySampling.Sampler.SampleActivity | collector/activity.go:158-217 | the write adds, by those columns, just the rows of the databases polled without failure, and each one's watermark becomes its latest time, if the write succeeds; otherwise neither table nor watermark changes |
| ActivitySampling.PollKeepsWatermarkIff | collector/activity.go:182-216 | a successful poll does not lower the watermark exactly if some row it queried is at or past it, or none is past zero and the bound |
| ActivitySampling.WatermarkNeverDecreasesIff | collector/activity.go:206-216 | over any run, with rows coming and going between query and write and any failures, the watermark never decreases exactly if every successful poll met that condition |
| ActivitySampling.WatermarkNeverDecreases | collector/activity.go:206-216 | so it never decreases once it is set from a row that is there, while no row leaves |
| ActivitySampling.ColdStartIsAnchored | collector/activity.go:293-305 | a process starts without a watermark; while no row leaves, every one it sets is from a row that is there |
| ActivitySampling.ColdStartNeverDecreases | collector/activity.go:206-216 | so from the start of a process, while no row leaves, the watermark never decreases |
| ActivitySampling.StoredOnceIffCaught | collector/activity.go:158-217 | in every reachable state a row shown is stored exactly once if its key was stored before or some successful poll queried past its time while it was there, and otherwise not at all |
| ActivitySampling.ExactlyOnceIffInTime | collector/activity.go:206-216 | once a watermark is set from a row that is there, while no row leaves, for each row that no successful poll has queried for yet, in particular each that appears later, that is: iff stored before or sample_time > watermark - interval for the first successful poll that queried after it appeared; so also for a row queried for already if its first bound was its lowest and no later than watermark - interval |
| ActivitySampling.ColdStartExactlyOnce | collector/activity.go:158-217 | and so from the start of a process, for each row that no successful poll has queried for when a watermark is set |
| ActivitySampling.RowPassedOverIsStoredLater | collector/activity.go:293-305 | a row that the first poll of a process passes over and the second stores |
| ActivitySampling.RowBetweenReadAndWriteIsMissed | collector/activity.go:206-216 | a row within the interval of the watermark when it appears, between a query and its write, that is never stored |
| ActivitySampling.WatermarkFallsIfRowsLeave | collector/activity.go:293-305 | a run in which the row that set the watermark leaves and a late row pulls it back |
| ActivitySampling.JointWriteProjects | collector/activity.go:164-187 | in a write shared by all databases, each database's part is its own write |
| LeaderElection.Elector.Acquire | ha/election.go:71-108 | it succeeds on the first attempt that is answered yes and keeps that connection; closed are, in order and once each, exactly the connections opened by attempts up to then that did not win, whatever was or was not answered |
| LeaderElection.Elector.Monitor | ha/election.go:113-146 | it ends with the first check that is not a plain yes, when that is answered, and not before |
| LeaderElection.Elector.Close | ha/election.go:148-157 | the connection is closed and forgotten |
| LeaderElection.BeliefEndsWithinTwoIntervals | ha/election.go:120-144 | without scheduling delay, a monitor has returned two validation intervals after leadership became unsound, if it stays so long enough to hold a whole check |
| LeaderElection.TwoIntervalsAreReached | ha/election.go:120-144 | the bound is met |
| LeaderElection.AlwaysNoticedIff | ha/election.go:120-144 | outages of a given length are noticed by every monitor exactly if they last two intervals, or a nanosecond less when they do not begin with monitoring |
| LeaderElection.OutageAtStartGoesUnnoticed | ha/election.go:120-144 | an outage from the start of monitoring, of any length under two intervals, with the check that misses it |
| LeaderElection.ShortOutageGoesUnnoticed | ha/election.go:120-144 | an outage between one interval and three, with the checks just before and just after |
| LeaderElection.LeadershipIsExclusive | ha/election.go:22-108 | with lost and late replies, killed sessions, demotion and retries, each lock is held once, by one live session; two electors with live connections to one server are the same elector |
| LeaderElection.AcquireIsGrantedIff | ha/election.go:22-28 | in every reachable state the acquire query answers yes iff its server is a writable primary and the lock is free, and then its session holds it once; otherwise the locks stay as they were |
| LeaderElection.EndSessionFreesItsLocks | ha/election.go:148-157 | the end of a session frees the locks it holds and no others |
| LeaderElection.BeliefNeedsAYes | ha/election.go:76-87 | an elector takes up a connection only on a yes to the query it is waiting for, and gives it up only by closing |
| LeaderElection.StepsTakeEffect | ha/election.go:87-157 | an attempt given up is waited for no longer, a closed elector has no connection, and nothing else changes |
| LeaderElection.TwoServersCanHaveTwoLeaders | ha/election.go:22-28 | two writable servers can each have a leader of one scope |
| LeaderElection.CampaignWins | ha/election.go:74-86 | an undisturbed attempt on a writable primary with the lock free wins and changes nothing else |
| ConnectionLifecycle.ReachableStatesAreConsistent | collector/database.go:290-342 | queue time set iff QUARANTINED or PROBING, PROBING only the database DCD handles, attempts equal accepted probes, collectors only after startup |
| ConnectionLifecycle.AtMostOneProbing | collector/dead_connection_detection.go:43-79 | at most one database is PROBING |
| ConnectionLifecycle.StepOfOneDatabase | collector/database.go:290-342 | queue time is set by the failure that takes a database down and then fixed; only its own accepted probe, finished without error, brings it back |
| ConnectionLifecycle.FailureQuarantines | collector/database.go:290-303 | a reported failure leaves QUARANTINED, with its time and message or the default one, a queue time only if there was none, and the probe fields alone |
| ConnectionLifecycle.WarmupActivates | collector/database.go:336-342 | the warmup's success leaves ACTIVE, with no queue time and no probe error |
| ConnectionLifecycle.QueueTimeIsFixedWhileDown | collector/database.go:290-303 | over any run during which a database stays down its queue time does not change |
| ConnectionLifecycle.Fleet.BeginProbe | collector/database.go:305-317 | accepted iff quarantined; the step of the state machine |
| ConnectionLifecycle.Fleet.FinishProbe | collector/database.go:319-334 | without an error ACTIVE and no queue time; with one QUARANTINED under the old queue time, the error being probe error and last failure; other databases untouched |
| ConnectionLifecycle.Fleet.RunDeadConnectionDetection | collector/dead_connection_detection.go:43-79 | a pass, with others interfering anywhere, takes each database in turn until cancelled: one found quarantined ends its turn ACTIVE without an error, and otherwise QUARANTINED under its old queue time with that error; all else is changed by others only; one status per probed database, a success iff its turn left it ACTIVE; nothing is left PROBING |
| ConnectionLifecycle.NobodyIsProbing | collector/dead_connection_detection.go:43-79 | with no database being handled none is PROBING |
| SessionLock.QueryContext | collector/database.go:417-434 | the read lock stays held iff rows are returned |
| SessionLock.CheckDeadlineThenRelease | collector/collector.go:550-564 | the read lock is given back exactly unless the query succeeded and the deadline had passed by the check |
| SessionLock.ReleaseUnlessError | collector/operational.go:399-408 | the read lock is always given back |
| SessionLock.QueriesHoldTheLock | collector/database.go:417-434 | under the state machine a query on the current session holds the read lock while its rows are open and until it gives it back, which abandoning them does not |
| SessionLock.Database.Reconnect | collector/database.go:148-186 | without a connection nothing changes; a session that fails its warmup is closed and the current one stays; otherwise the new one is current and the one before, if any, is closed, and nothing else is |
| SessionLock.ReconnectIsTwoSteps | collector/database.go:148-186 | such a reconnect is the building step and the swapping or failing step of the state machine |
| SessionLock.SwapClosesTheOldSession | collector/database.go:148-186 | under every interleaving a session is replaced only by the one a reconnect built, and is closed by that; a session that fails its warmup is closed; no other step closes or replaces any |
| SessionLock.FailedDatabaseCanRecover | collector/database.go:148-186 | with no query holding the lock, a database that fails, is probed and reconnects is ACTIVE on a new session, the old one closed |
| SessionLock.NoSessionClosesUnderItsUsers | collector/database.go:148-186 | in every reachable state no open rows, no startup warmup and no reconnect in progress has a closed session |
| SessionLock.ActiveDatabasesHaveOpenSessions | collector/database.go:305-342 | in every reachable state an ACTIVE database has a current, open session: the first one, or after a recovery the one its latest probe swapped in |
| SessionLock.ClosedStaysClosed | collector/database.go:148-186 | a closed session is never current again |
| SessionLock.AbandonedLockFreezesDatabase | collector/collector.go:550-564 | after one leaked read lock the session and the connection state never change again |
| SessionLock.WritersCanEnterIffNothingAbandoned | collector/database.go:148-186 | from any consistent state some continuation lets a reconnect or quarantine have the write lock exactly if no query has leaked the read lock |
| ConnectionGate.Gate.Connect | collector/connect_godror.go:42-63 | cancelled exactly at a wait, leaving the spacing clock alone; otherwise started an interval or more after the last completion, which it then becomes; the slot is free either way |
| ConnectionGate.ConnectsAreSpaced | collector/connect_godror.go:24-63 | for any callers and cancellations, connects never overlap and each starts at least the interval after every earlier completion |
| ConnectionGate.CallersGetThrough | collector/connect_godror.go:42-63 | who gets the slot after the interval connects at once, and before it as soon as it is over, or frees the slot by cancelling |
| ConnectionGate.OnlyTheHolderMoves | collector/connect_godror.go:42-63 | while one caller has the slot no event of another changes anything, nor does its own timer before the interval is over |
| ScrapeFanOut.ScrapeDatabaseSamples | collector/collector.go:247-394 | on every control path a worker keeps within its quota of each channel, sends all it collected, and reports each collector that ran once, with success exactly if that succeeded: `connectivity` iff ready, active and pinged, `scheduled` iff besides nothing that ran failed; its error messages tell, one for each collection reached, which failed |
| ScrapeFanOut.ScrapeMetrics | collector/collector.go:299-334 | metrics are scraped up to the one that loses the connection, with one error message each, telling whether it failed, and at most one batch each |
| ScrapeFanOut.SendsNeverBlock | collector/collector.go:178-182 | in every reachable state a worker with something to send finds room on its channel |
| ScrapeFanOut.SendsWaitIffFull | collector/collector.go:178-182 | a send would wait only on a full channel, of the capacities given there |
| ScrapeFanOut.PassNeverStalls | collector/collector.go:184-228 | until all is received some step is enabled |
| ScrapeFanOut.EveryStepProgresses | collector/collector.go:184-228 | every enabled step lowers a measure, so every pass ends |
| ScrapeFanOut.PassDeliversEverything | collector/collector.go:203-228 | a finished pass has received, channel by channel and with multiplicity, exactly what the workers sent |
| ScrapeFanOut.ReceivedIsOwed | collector/collector.go:203-228 | and so the same under any other way of counting messages |
| ScrapeFanOut.ChannelsKeepOrder | collector/collector.go:203-228 | a worker's messages on a channel are received in the order it sent them |
| ScrapeFanOut.OneStatusPerDatabase | collector/collector.go:225-228 | a finished pass has received exactly one status of each of the two kinds for every database |
| ScrapeFanOut.EveryStatusIsTruthful | collector/collector.go:225-228 | every status a finished pass has received says how the collector it names fared on the database it names |
| AlertLog.FlushLine | alertlog/alertlog.go:83-109 | the accumulated bytes, reversed, are judged as the line they came from: nothing left by trimming is skipped, what does not decode is an error, another database's record is skipped in a shared file only, and any other record is the answer |
| AlertLog.ReadLastMatchingLogRecord | alertlog/alertlog.go:65-149 | for every file and every positive chunk size the scan equals splitting the file into lines and walking them from the end |
| AlertLog.BreakBytes | alertlog/alertlog.go:119 | a line is broken by bytes 10 and 13 and no others |
| AlertLog.EachBreakStartsALine | alertlog/alertlog.go:118-129 | there is one line more than there are such bytes |
| AlertLog.LinesPartitionTheFile | alertlog/alertlog.go:112-137 | the lines hold all bytes but the breaks, and no break |
| AlertLog.AppendAddsLine | alertlog/alertlog.go:238 | a record is its line and a byte 10; on a terminated file it is judged first and, if skipped, the answer is the old one |
| AlertLog.WriteRecords | alertlog/alertlog.go:208-243 | the file grows by the records written before an error stops the loop |
| AlertLog.ReadsBackLastWritten | alertlog/alertlog.go:208-243 | what is read after writing is the last record written, or the old answer |
| AlertLog.OtherDatabasesDoNotMatter | alertlog/alertlog.go:104-106 | in a shared file other databases' records within the limit never change the answer |
| AlertLog.ReadsBackIffWithinLimit | alertlog/alertlog.go:131-134 | on a terminated file a record is read back iff its line is within the limit; past it every database's scan fails |
| AlertLog.AppendedIsJudgedWithTail | alertlog/alertlog.go:238 | on any file what is appended is judged together with the unterminated tail, and after it what came before the tail |
| AlertLog.ReadsBackIff | alertlog/alertlog.go:238 | on any file a record is what is read after an append iff tail and line together are within the limit and decode to it, or are skipped and it was read before the tail |
| AlertLog.UnterminatedTailSwallowsRecord | alertlog/alertlog.go:238 | after an unterminated tail the record is judged glued to it |
| SqlConsumers.KeysAgreeIffColumnsDo | collector/performance.go:258-261 | two rows are of one key iff they agree in instance, SQL ID and plan hash, a missing one being 0 |
| SqlConsumers.RowAddsItsRise | collector/performance.go:262-271 | a row adds to its SQL ID alone: the whole counter if its key is new, the rise if it rose, nothing if it fell |
| SqlConsumers.LookupIsLast | collector/performance.go:262-263 | of several rows of one key a snapshot keeps the last |
| SqlConsumers.Consumers.RecordSQLConsumerDeltas | collector/performance.go:238-274 | the snapshot becomes the new one and each SQL ID's pending counters grow by the increments of its rows; other databases are untouched |
| SqlConsumers.Consumers.TakeTopSQLConsumers | collector/performance.go:337-374 | as many as the limit allows of the SQL IDs with positive elapsed time, the longest first, ties broken by CPU time, then user I/O wait, then the lexicographically smaller SQL ID, none passed over that outranks one of them; the interval is then empty |
| SqlConsumers.DrainedPlusPendingIsGrowth | collector/performance.go:238-274 | over any run, what was drained, for IDs in the top list or not, plus what is pending of a SQL ID is the sum of its growth between consecutive snapshots |
| SqlConsumers.GrowthIsSumOverKeys | collector/performance.go:297-323 | with distinct keys that growth is the sum over its keys, a new key in full and a decrease as zero |
| SqlConsumers.TotalGrowthIsSumOverKeys | collector/performance.go:238-274 | over the whole run a SQL ID's growth is the sum of the growth of its keys |
| SqlConsumers.GrowthTelescopes | collector/performance.go:314-323 | a key in every snapshot that never falls has grown by last minus first |
| SqlConsumers.RankingIsStrictTotalOrder | collector/performance.go:353-364 | the comparator is a strict total order on distinct SQL IDs |
| SqlConsumers.BeforeMeans | collector/performance.go:353-364 | the comparator puts first the longer elapsed time, then CPU time, then user I/O wait, then the SQL ID that is a proper prefix or smaller where they first differ |
| SqlConsumers.PrefixIsTop | collector/performance.go:365-373 | the first `limit` of all eligible IDs in rank order are a top list: everything passed over ranks behind everything chosen |
| SqlConsumers.TopIsUnique | collector/performance.go:337-374 | and there is only one such list |
| PlanCache.NamesIfItHasPlan | collector/performance.go:394-402 | a sample names a key iff it agrees in all four columns and its plan hash is positive |
| PlanCache.DistinctKeysAreTheKeysNamed | collector/performance.go:388-409 | the keys listed are exactly those named with a positive plan hash, none twice |
| PlanCache.CandidatesAreTheFirstNamed | collector/performance.go:388-409 | the candidates are the keys named while fewer than `limit` others had been; there are at most `limit` |
| PlanCache.ExcludingMeans | collector/performance.go:416-424 | what is asked for is the candidates not known, none twice |
| PlanCache.ExcludingKeepsOrder | collector/performance.go:416-424 | in candidate order |
| PlanCache.ListCandidates | collector/performance.go:387-409 | the loop with its early exit computes the candidates |
| PlanCache.Cache.UncachedSqlPlanCandidates | collector/performance.go:387-427 | unknown candidates are returned, known ones stay known, all else is forgotten |
| PlanCache.Cache.MarkSqlPlansCollected | collector/performance.go:429-441 | the collected keys become known |
| PlanCache.KnownIffKeptSince | collector/performance.go:411-441 | a key is known iff some collection had it and every round since has had it among its candidates |
| PlanCache.AskedForIffNotKept | collector/performance.go:176-190 | so a candidate is asked for again exactly unless that is so |
| PlanCache.CacheStaysWithinLimit | collector/performance.go:176-190 | if plan queries return only candidates, the cache never exceeds the limit |
| OperationalCounters.Collector.ShouldCollectOperational | collector/operational.go:247-262 | let through iff enabled and due, and only then is the time remembered |
| OperationalCounters.Collector.OperationalDelta | collector/operational.go:264-281 | the reading becomes the snapshot, and its change since the one before is reported |
| OperationalCounters.Collector.Collect | collector/operational.go:283-306 | a gated collection of any rows is one step of the state machine |
| OperationalCounters.CollectionsAreSpaced | collector/operational.go:247-262 | accepted times of a database are at least one interval apart for each collection between them |
| OperationalCounters.RefusedIffTooSoon | collector/operational.go:255-260 | a collection is refused iff the last accepted one was less than an interval ago |
| OperationalCounters.OneRowIsReported | collector/operational.go:283-306 | each counter row of an accepted collection is reported once, against the snapshot before the collection |
| OperationalCounters.DeltasTelescope | collector/operational.go:264-281 | between any two readings, whatever the rows: reported intervals sum to the elapsed time, and deltas to the change in value plus what resets lost less the growth within collections - so to the change exactly if those are equal |
| OperationalCounters.ReadingsAreApart | collector/operational.go:283-306 | with each counter read once in a collection no two readings are of one time |
| OperationalCounters.DeltasAreGrowth | collector/operational.go:264-281 | and then deltas on a stretch without resets sum to last minus first |
| OperationalCounters.ResetIffDecrease | collector/operational.go:275-278 | a reset is flagged exactly on a decrease since an earlier collection |
| OperationalCounters.SecondRowLosesGrowth | collector/operational.go:264-281 | what the subtracted term is: two rows of one key in one collection, which the collector's own queries never give |

## Left out

- Oracle and PostgreSQL access, row scanning, DDL, migration and grants: tables are maps under the upsert rule of the SQL, and a failed commit is taken as not applied.
- Waiting for a lock, writer preference of Go's RWMutex, and fairness: steps are interleaved freely, so nothing is claimed about how long a writer waits.
- JSON decoding, regular expressions, white-space trimming of log lines and error-text matching: unknown functions; a collector failing is a step that can happen at any time after startup.
- 64-bit wrap-around of counters and microsecond rounding of timestamps by PostgreSQL: integers and instants are exact.
- Sink writes after leadership is lost, and loss of watermarks and queues over a restart.
- Retry backoff, missed intervals, scope validation, map joins of operational rows: easy to see from their bodies.
- Connection states and latest scrape statuses written by the sink, and table names of more than one byte a character.
- Agreement of the plan cache with the plan rows stored: plans are marked collected before they are written.
- The SHA-256 that makes a lock ID of a scope: a lock ID is given per elector.
- ReadLastMatchingLogRecord: does not model read errors or a file that changes during the scan, because both come from the operating system.
- SampleActivity: every row counts as an ASH row, because rows sampled from sessions never move a watermark.
- Monitor: a check that fails because the connection was closed meanwhile is one without an answer, because only the end of the loop matters to the caller.
- BeliefEndsWithinTwoIntervals: assumes checks start at their ticks and end within their timeout, because scheduling delay is unbounded.
- TakeTopSQLConsumers: sorts by insertion where the source calls the library sort, because by `TopIsUnique` any sorting gives the same list.
- ScrapeDatabaseSamples: sample counts and durations in statuses are left out, because no rule depends on them.
- Append: how far Go over-allocates is a parameter, because the language leaves it open.
- OperationalDelta: reports intervals in nanoseconds where the source divides into seconds of floating point, because rounding is not the point.
- ReferencesStayWholeIff: speaks of one sample table and one row at a time and of days instead of partition names, because every table and row moves independently under the same cutoff, and names and days agree for tables whose name leaves room; for others it allows more writes than PostgreSQL, which refuses days whose partition name is taken.
- InsertAllStores: the activity table only grows, because retention drops partitions days after the polls whose overlap matters.
- ExactlyOnceIffInTime: a row that has left the source does not come back, because the source never shows a sample again.
- FlushRuntime: has no other writer in between, because the interleavings are those of the state machine.
