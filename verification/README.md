# Verified model of the lab telemetry pipeline

This project models, in Dafny 4.11, the parts of the cryo-lab telemetry system that decide whether a reading
arrives, arrives once, is charted correctly and raises the right alerts; and it proves what the system promises
about them. `dafny verify dfyconfig.toml` checks everything.

## What is modelled

- **Reliable delivery.** The collector journals every batch to a directory of numbered files, a sender drains it
  oldest first with retries and backoff, the network drops, delays, hides and repeats, and the server writes each
  request in statements of 1000 rows with `ON CONFLICT DO NOTHING`. `Delivery` puts all of it into one machine whose
  steps may be scheduled in any order. The file names, listings, crash points and counter recovery it uses are those
  of `Journal`, which the imperative class `DiskBuffer` is proved against. `SenderLoop` is the sender's own loop,
  proved to empty the queue in order through good and bad attempts in any order. `BoundedQueue` is acquisition and
  sender over a queue with a bound.
- **Server writes.** `Store` builds the parameterised statements and inserts in chunks; `Ingest` is the request
  handler with its validation; `Telemetry` is the row counters under any interleaving of handlers.
- **Downsampling.** `Series` compares the count-weighted query over a rollup with the plain average over raw
  readings; `Steps` parses and chooses bucket widths.
- **Alerting.** `Alerts`, `Alerter` and `AlertRuns`: thresholds, edge-triggered state, the daily cap, and any
  interleaving of concurrent checks and reloads.
- **Migrations.** `SplitSql` is the statement splitter, `Migrate` the boot-time runner cut short anywhere.
- **Backfill, load harness, chaos proxy.** `Backfill`, `Percentile`, `WorkClaiming`, `ChaosProxy`.

Times are integer microseconds and values are reals. A run is a fold over a list of steps in which a step that is not
enabled does nothing, so a statement about every list is a statement about every schedule. What the outside world
decides (a response, a database error, a random draw, the day, where a crash falls) is a parameter.

## Where the code and its own documentation part

The model follows the code; each of these is a theorem below.

- A rollup answer is described as exact (`server/internal/store/store.go:157-159`). It is, if and only if the
  rollup's width divides the step: "90s" is accepted and does not divide. Both ends of the range also move up to the
  next rollup bucket, because the range is applied to bucket starts.
- Lexical file order is described as chronological order (`collector/buffer.py:8-10`). It is, if and only if the
  indices stay within twelve digits.
- Loading a listed path is taken for granted (`collector/collector.py:147-150`). With a bound, an enqueue may evict a path
  that the sender has listed and not loaded; loading it raises, and the sender thread ends. Some schedule does so for
  every bound, and none without one. `Delivery` therefore uses the default, unbounded queue.
- `InsertReadings` is said to return the rows actually inserted. It does, if and only if the statement that ended the
  batch did not commit new rows and lose its reply.
- A migration is said never to leave a half state. It cannot, if and only if it runs in a transaction or has at most one
  statement. Recovery after a half state ends right if and only if the file run whole after a cut leaves what it leaves
  without one, which is less than that each statement does nothing when it is run again.
- The daily cap forgets a day as soon as it sees another. It is kept, if and only if no day that comes back is consulted
  more often than the cap in all.

## Model

| member | source | states |
|---|---|---|
| `Delivery.ExactlyOnceInOrder` | collector/collector.py:138-169 | in every reachable state of every schedule (drops, ambiguous successes, late requests, failures between statements, crashes) the journaled batches are the settled ones, OK exactly if the server takes them, followed by those still on disk; and the source's rows are the settled batches written once each in enqueue order plus at most some first statements of the oldest pending one |
| `Delivery.NothingLostNothingDoubled` | collector/collector.py:14-17 | once the queue is empty, readings with distinct fresh keys are all in the table with their own values, and the table has grown by exactly their number |
| `Delivery.LoadAlwaysFinds` | collector/collector.py:147-150 | with an unbounded queue the sender never loads a missing or torn file, whatever acquisition and crashes do, in the middle of a write as anywhere |
| `BoundedQueue.SenderLivesIff` | collector/collector.py:147-150 | the sender's next listed path loads under every schedule of the two threads, and the sender thread never dies of a missing one, exactly if the queue has no bound |
| `BoundedQueue.OvertakenFails` | collector/buffer.py:50-54 | for every bound, a schedule that fails: fill the queue, list it, start one more enqueue, load the first listed path |
| `Delivery.EveryScheduleKeeps` | collector/collector.py:126-169 | the invariant linking directory, sender, requests in flight and table holds after every list of steps |
| `Delivery.LateCommitIsSilent` | server/internal/store/store.go:68-72 | a statement of an abandoned request that commits after its batch was settled, or after a later attempt passed it, changes nothing |
| `Delivery.HeadCommitExtends` | server/internal/store/store.go:75-85 | the next statement of the oldest pending batch extends what has got through by exactly its chunk |
| `Delivery.HeardVerdict` | collector/collector.py:151-162 | in every reachable state in which the sender is about to unlink a path, that path is the oldest pending batch's, the verdict is OK exactly if the server takes the batch, and the source's rows are the settled batches and then the whole of this one |
| `Delivery.PublishLists` | collector/buffer.py:55-63 | the rename adds exactly the batch being written, at the end of the listing |
| `SenderLoop.SenderLoop` | collector/collector.py:138-169 | with good and bad attempts in any order, finitely many of them bad, statements of abandoned requests committing at any later attempt, and at least one attempt per batch, the loop ends with an empty queue, every batch the server takes written once in enqueue order, `sent` and `dropped` counting accepted and rejected rows, and nothing late left to come |
| `SenderLoop.Sweep` | collector/collector.py:147-167 | one pass settles batches from the oldest on and stops at the first that does not go through, wherever in the listing that is, having used up weather, or empties the listing |
| `SenderLoop.SendOldest` | collector/collector.py:150-167 | one batch is loaded, posted and unlinked exactly when its verdict is not transient |
| `Draining.PostProgress` | collector/collector.py:92-120 | one post_batch, with requests of earlier attempts and batches still committing, only moves forward along its own batch, returns OK only when all of it is written, and gives up only after using up weather |
| `Draining.LateCommitsAreSilent` | server/internal/store/store.go:68-72 | with every batch settled, whatever requests that went astray still commit changes nothing |
| `Draining.SettleHead` | collector/collector.py:150-167 | a settled head leaves the listing one shorter and the delivery one batch further; a transient one leaves both |
| `Sender.Link.Send` | collector/collector.py:100-102 | one attempt: the statements, its own and late ones, that reach the table meanwhile, and what the client sees |
| `Sender.PostBatch` | collector/collector.py:92-120 | the retry loop yields the verdict, the waits and the state of the recursive definition |
| `Sender.VerdictIff` | collector/collector.py:98-120 | OK (or PERMANENT) is returned exactly when some attempt within the limit gets it, every earlier one having been transient and no shutdown having come between |
| `Sender.Backoff` | collector/collector.py:98-119 | fewer waits than attempts, the k-th being base * 2^k cut at the cap |
| `Sender.BackoffTotal` | collector/collector.py:116-119 | one batch waits at most (attempts - 1) * cap in all |
| `FileNames.NameOrder` | collector/buffer.py:58 | zero-padded names of indices below 10^12 sort as the indices |
| `FileNames.NamesInOrderIff` | collector/buffer.py:8-10 | all names of indices below n sort as the indices exactly when n <= 10^12 |
| `FileNames.ParseFileName` | collector/buffer.py:41-46 | reading an index back from a journal name gives the index it was written for |
| `FileNames.OnlyFinishedFilesListed` | collector/buffer.py:65-67 | a finished file is matched by the listing and a temporary one is not |
| `Journal.EnqueueIsFifo` | collector/buffer.py:48-63 | enqueue drops just the oldest batches that do not fit and appends the new one last; a bound is kept |
| `Journal.CrashIsClean` | collector/buffer.py:12-13 | a crash after any number of enqueue's file operations, or half way through its write, leaves whole batches in order, some oldest evicted, the new one all there or not at all |
| `Journal.RecoveredCounter` | collector/buffer.py:38-46 | after a restart the counter exceeds every index on disk and is not ahead of where it stood |
| `Journal.ListingRemove` | collector/buffer.py:76-81 | removing one listed file takes out that batch and keeps the order of the rest |
| `Journal.NextIndexUnique` | collector/buffer.py:38-46 | the recovered counter is determined by the names on disk: above every index, and 0 or one more than one of them |
| `DiskBuffer.DiskBuffer.constructor` | collector/buffer.py:25-46 | opening a directory leaves it as it is and resumes numbering after its highest index |
| `DiskBuffer.DiskBuffer.Pending` | collector/buffer.py:65-67 | the finished files in sorted order |
| `DiskBuffer.DiskBuffer.Count` | collector/buffer.py:69-70 | the number of pending batches |
| `DiskBuffer.DiskBuffer.Load` | collector/buffer.py:72-74 | the batch of a file that is there and whole |
| `DiskBuffer.DiskBuffer.Remove` | collector/buffer.py:76-81 | unlinks the path, and is a no-op for a missing one |
| `DiskBuffer.DiskBuffer.MakeRoom` | collector/buffer.py:50-54 | evicts the oldest files until one more fits, counting each |
| `DiskBuffer.DiskBuffer.Enqueue` | collector/buffer.py:48-63 | the evictions, the temporary write and the rename, the counter and the drop count |
| `DiskBuffer.HistoryRefinesFifo` | collector/buffer.py:24-81 | over any history of enqueues, removals, crashes and restarts the buffer is a FIFO: its contents are, in enqueue order, exactly the untaken batches from a cutoff on, and batches in equal batches queued, taken and counted as dropped |
| `DiskBuffer.BoundKept` | collector/buffer.py:30-36 | an enqueue under a bound leaves at most that many batches, the new one last |
| `ChaosProxy.Proxy.HandleOne` | mock/chaos_proxy.py:59-83 | which fate a request meets, what the client sees, and one counter up by one |
| `ChaosProxy.OnlyTheServerSettles` | mock/chaos_proxy.py:66-83 | a status that settles a batch is always the server's own |
| `ChaosProxy.ProxyIsCovered` | mock/chaos_proxy.py:59-83 | each fate, an upstream that answers, is down or takes too long included, is a sequence of delivery steps that takes the sender where the seen status would, leaves table and journal alone, and keeps the request alive exactly when the upstream may still be at work on it or has been hidden |
| `Readings.FirstWriterWins` | server/migrations/0001_init.sql:21-24 | exactly the offered keys are added and existing keys keep their values |
| `Readings.FirstOfferTaken` | server/migrations/0001_init.sql:21-24 | a new key gets the first value offered for it |
| `Readings.ResumeInsert` | server/internal/store/store.go:68-72 | a batch that got part of the way and is then sent whole ends where one whole send ends |
| `Readings.PrefixesOverlap` | server/internal/store/store.go:68-72 | two prefixes of one batch, in either order, leave the longer one |
| `Readings.RowsAffectedIsGrowth` | server/internal/store/store.go:105-109 | the row count of a statement is the growth of the table |
| `Readings.FreshRowsAllLand` | server/migrations/0001_init.sql:21-24 | rows with fresh distinct keys all land, once, with their own values |
| `Readings.InsertsCommute` | server/migrations/0001_init.sql:21-24 | two writers that offer the same value first for each key they share may come in either order |
| `Store.BuildStatement` | server/internal/store/store.go:89-103 | n rows use placeholders 1..4n in row order, at most 4000, and bound to their arguments they are the chunk again |
| `Store.Store.Execute` | server/internal/store/store.go:105-109 | one statement runs, is refused, or runs and loses its reply |
| `Store.Store.InsertChunk` | server/internal/store/store.go:89-110 | a chunk is one insert of its rows, reported as the growth |
| `Store.Store.InsertReadings` | server/internal/store/store.go:73-87 | the table of one whole insert cut after the last statement that committed, and a count that is the growth of the table exactly if no new row was hidden by a lost reply, and never more |
| `Store.CountIsGrowthIff` | server/internal/store/store.go:68-72 | the count is the growth unless the statement that ended the batch committed new rows and lost its reply |
| `Store.LostReplyHidesRow` | server/internal/store/store.go:68-72 | one new row whose reply is lost is in the table and counted as 0 |
| `Store.CleanSend` | server/internal/store/store.go:73-87 | without a fault the chunks are the whole batch and the count is the table's growth |
| `Store.RetryCompletes` | server/internal/store/store.go:68-72 | after any fault a clean resend gives the table of one undisturbed send, and a further one adds nothing |
| `Ingest.Refusal` | server/internal/api/ingest.go:50-69 | a refused batch gets 413 exactly when it decodes and is too large, and always a permanent 4xx |
| `Ingest.RowsAreSamples` | server/internal/api/ingest.go:64-76 | an accepted batch is written as sent, under the token's source, which is the one it claims if it claims any |
| `Ingest.Server.HandleIngest` | server/internal/api/ingest.go:39-91 | refused batches touch nothing, a failed insert is neither counted nor alerted on, and a taken batch is written whole, counted and checked |
| `Ingest.RetryIsSilent` | server/internal/api/ingest.go:78-88 | retrying a taken batch whose reply was lost adds no row and counts none, and raises no alert exactly if the batch's readings of each metric agree in level |
| `Ingest.Tracker.RecordIngest` | server/internal/metricsx/metricsx.go:40-51 | total and the source's rows grow by n |
| `Ingest.Tracker.Snapshot` | server/internal/metricsx/metricsx.go:60-73 | uptime, the total, and every source's rows and the time of its last delivery, if there was one |
| `Telemetry.TotalsAreHonest` | server/internal/metricsx/metricsx.go:39-51 | under any interleaving the total is the sum of its sources and at most the rows this process added |
| `Telemetry.TotalsExactIff` | server/internal/api/ingest.go:78-88 | with no request under way the total equals the rows added exactly if no request failed after a statement of its own added rows |
| `Telemetry.EveryRunBalances` | server/internal/store/store.go:75-86 | the table's growth is what running, counted and failed requests added, and the total is the counted part |
| `Series.RollupIsRaw` | server/internal/store/store.go:157-170 | if the rollup width divides the step, the count-weighted query over the rollup is the raw average query over the range with both ends rounded up to rollup buckets, point for point |
| `Series.RollupExactIff` | server/internal/store/store.go:157-170 | the rollup answers every channel and every range of whole buckets like the raw readings exactly when its width divides the step |
| `Series.OddStepMisplaces` | server/internal/api/series.go:18-21 | for every step that does not divide, one reading that the rollup puts in the wrong step |
| `Series.QuerySeriesExactIff` | server/internal/store/store.go:134-144 | on ranges of whole rollup buckets, of the steps the API accepts, of a second or more, all are exact except those of 60 seconds or more in odd seconds |
| `Series.RangeExactIff` | server/internal/store/store.go:161-168 | for a step of whole rollup buckets, the rollup answers every channel over one range like the raw readings exactly if both range ends are bucket starts |
| `Series.AnswerExactIff` | server/internal/api/series.go:157-178 | so does the API's answer to one request, whatever step it asks for or is given, unless that step is odd or under a second |
| `Series.AutomaticStepsExact` | server/internal/api/series.go:157-178 | automatic steps always give the raw averages of the range rounded up |
| `Series.AutomaticStepsBounded` | server/internal/api/series.go:157-178 | spans up to 31 days give at most 745 points, longer ones at most ceil(span / 6h) + 1 |
| `Series.WeightedIsPlain` | server/migrations/0002_continuous_aggregate.sql:13-23 | count-weighted averages of whole buckets add up to the sum and number of their readings |
| `Series.AverageTimesCount` | server/migrations/0003_continuous_aggregate_1s.sql:14-24 | an aggregate row gives its bucket's sum back |
| `Series.BucketOfBucket` | server/internal/store/store.go:161-168 | bucketing by a multiple goes through bucketing by the part |
| `Series.RangeRoundsUp` | server/internal/store/store.go:166 | a bucket starts at or after a time exactly when its readings are at or after the time rounded up |
| `Series.PointBound` | server/internal/store/store.go:161-168 | a query has at most one point more than the steps its range holds |
| `Steps.PatternStepSeconds` | server/internal/store/store.go:190-212 | an accepted step means its number times its unit, with no error or wrap-around |
| `Steps.DividesIff` | server/internal/api/series.go:18-21 | which accepted steps are whole numbers of the rollup buckets they are answered from |
| `Steps.AutoStepSafe` | server/internal/api/series.go:163-177 | each automatic step, the rollup it is answered from, and that it divides |
| `Alerts.Evaluate` | server/internal/alert/alert.go:109-120 | a crossing is reported exactly when the value is out of range, with the bound that it broke |
| `Alerts.FixedCap` | server/internal/alert/alert.go:175-194 | under one positive cap exactly the first `cap` consultations of a day are allowed |
| `Alerts.FixedCapTotal` | server/internal/alert/alert.go:175-194 | a day with n consultations has min(cap, n) allowed |
| `Alerts.VaryingCap` | server/internal/alert/alert.go:175-194 | under a moving positive cap a day never exceeds the largest it was under |
| `Alerts.CapKeptIff` | server/internal/alert/alert.go:184-188 | for every cap: the first `cap` consultations of each day are the allowed ones exactly if no day that comes back after another is consulted more than `cap` times in all |
| `Alerts.ReturningDayFails` | server/internal/alert/alert.go:184-188 | a day that comes back is notified twice under a cap of one |
| `Alerter.Alerter.Reload` | server/internal/alert/alert.go:80-99 | replaces the thresholds, and the cap by a non-negative one |
| `Alerter.Alerter.MakeTransition` | server/internal/alert/alert.go:150-163 | an event exactly when the metric's level changes, after which the state holds that level and other metrics are as before |
| `Alerter.Alerter.Allow` | server/internal/alert/alert.go:178-194 | one consultation of the cap |
| `Alerter.Alerter.Fire` | server/internal/alert/alert.go:199-215 | one log row, marked notified if a notifier is configured and the cap allows |
| `Alerter.Alerter.Check` | server/internal/alert/alert.go:124-145 | a whole batch checked in order |
| `Alerter.SilentWhenSettled` | server/internal/alert/alert.go:147-163 | a check is silent exactly when every reading stands where the stored state says |
| `Alerter.RedeliverySilent` | server/internal/alert/alert.go:122-135 | checking a batch again at once adds no event, and changes nothing, exactly when the batch's readings of each metric agree in level |
| `Alerter.RedeliverySilentOncePerMetric` | server/internal/api/ingest.go:85-88 | in particular for a batch with each metric at most once |
| `AlertRuns.EventsAreChangePoints` | server/internal/alert/alert.go:122-163 | under every interleaving of checks and reloads a metric's events are exactly the change points of its levels, and the stored state is the last level |
| `AlertRuns.AlertsAlternate` | server/internal/alert/alert.go:147-163 | a recovery answers the alert just before it, and two alerts in a row differ in kind |
| `AlertRuns.DailyCap` | server/internal/alert/alert.go:175-200 | under every interleaving, with a notifier, a clock that does not step back a day and reloads that keep one positive cap, exactly a day's first `cap` dispatches are marked notified, min(cap, n) of n |
| `AlertRuns.MovingCap` | server/internal/alert/alert.go:79-99 | under every interleaving with reloads that move a positive cap, a day is granted no more than the largest it was consulted under |
| `AlertRuns.NotifiedFlagsTrue` | server/internal/alert/alert.go:199-213 | under every interleaving, rows being written after the lock is released and in any order: the rows written and those still to be written are, as a multiset, the rows decided on, and each is marked exactly if a notifier is configured and the cap allowed the consultation made for its own event |
| `AlertRuns.EventsConserved` | server/internal/alert/alert.go:196-215 | every emitted event is logged once or still held by the goroutine that emitted it |
| `SplitSql.SplitStatements` | server/internal/store/migrate.go:91-111 | the two loops compute the statements of the recursive definition |
| `SplitSql.StatementsAreClean` | server/internal/store/migrate.go:91-111 | every statement is non-empty, trimmed and free of ";" and "--" |
| `SplitSql.SplitOfJoin` | server/internal/store/migrate.go:91-111 | clean statements joined by ";" split into themselves |
| `SplitSql.SplitTwice` | server/internal/store/migrate.go:91-111 | splitting what was split and joined gives the same list |
| `SplitSql.SplitOfPrint` | server/internal/store/migrate.go:91-111 | a file of clean statements and comment lines in any order is read back as its statements |
| `SplitSql.TrailingCommentIgnoredIff` | server/internal/store/migrate.go:97-103 | a comment at the end of a line is ignored exactly when the code before it does not end in "-" |
| `Migrate.FilesOfDistinct` | server/internal/store/migrate.go:131-145 | the files are exactly the ".sql" ones, each once, in lexical order |
| `Migrate.Server.ApplyNoTx` | server/internal/store/migrate.go:78-89 | statement by statement, then the record, cut short anywhere |
| `Migrate.Server.Apply` | server/internal/store/migrate.go:62-76 | both commit modes |
| `Migrate.Server.Migrate` | server/internal/store/migrate.go:20-54 | one boot, skipping what was recorded when it began |
| `Migrate.BootStands` | server/internal/store/migrate.go:41-52 | a boot goes on from where the last one stopped and stops further on, with a prefix recorded |
| `Migrate.BootsStand` | server/internal/store/migrate.go:78-89 | if statements may be run again after later ones of their file, any boots cut anywhere leave whole files and the first statements of the next |
| `Migrate.HalfStateIff` | server/internal/store/migrate.go:15-19 | wherever it is cut, a file leaves the schema as it was or wholly applied, for all effects and schemas, exactly if it runs in a transaction or has at most one statement |
| `Migrate.RecoversIff` | server/internal/store/migrate.go:78-81 | from every schema and after any cut boots, the first boot that succeeds leaves a file applied once exactly if running it whole after a cut of it anywhere leaves what it leaves without one |
| `Migrate.RerunnableResumes` | server/internal/store/migrate.go:78-81 | a file each of whose statements does nothing when run again after later ones recovers so |
| `Migrate.DropThenCreate` | server/internal/store/migrate.go:78-81 | dropping and creating again recovers so, though its statements are not each without effect when run again |
| `Migrate.Recovery` | server/internal/store/migrate.go:15-54 | if every file recovers alone: after any number of boots cut short anywhere the recorded names are a prefix of the sorted files, and the first boot that succeeds leaves the schema of one in-order application of all |
| `Migrate.MigratedBootsDoNothing` | server/internal/store/migrate.go:15-19 | with everything recorded a boot changes nothing |
| `Migrate.EnoughSucceeds` | server/internal/store/migrate.go:41-53 | a boot whose operations all succeed does succeed |
| `Backfill.Ingest.Post` | forwarder/backfill.py:56-61 | a post is stored, or the run dies with some first part of it stored |
| `Backfill.Flush` | forwarder/backfill.py:85-89 | posts the whole batch in chunks and counts what is new, or dies with a prefix stored |
| `Backfill.Day` | forwarder/backfill.py:92-117 | reads one window and flushes when the batch is full |
| `Backfill.Run` | forwarder/backfill.py:82-121 | a completed run stores everything read, in posts of at most the batch size that concatenate to it, with right totals; a run that dies has stored a prefix |
| `Backfill.WindowsPartition` | forwarder/backfill.py:91-117 | the half-open windows read each point of the span once and no other |
| `Backfill.RerunCompletes` | forwarder/backfill.py:5-8 | however often and wherever runs died, and whatever others wrote between them or between their posts as long as shared readings have the same values, the run that completes leaves what one undisturbed run followed by the others leaves |
| `Backfill.PostIsLongerPart` | forwarder/backfill.py:85-89 | a post on top of what its run has stored is a longer first part of it |
| `Percentile.ComputePct` | bench/main.go:92-108 | the clamped index into the sorted samples; a sample whenever there is one |
| `Percentile.NearestRank` | bench/main.go:92-108 | for 0 < p <= 100 at least p% of the samples are at most the result and fewer than p% are below it |
| `Percentile.PctMonotone` | bench/main.go:100-107 | a higher percentile is no smaller |
| `WorkClaiming.NeverTwice` | bench/main.go:119-135 | under every interleaving no index is sent twice, and none outside the load |
| `WorkClaiming.Quiescent` | bench/main.go:114-140 | when all workers are done each index was sent once, the counter is total + concurrency, and samples and ok + errs equal the total |
| `WorkClaiming.StepProgresses` | bench/main.go:123-135 | every step of an unfinished worker brings the end one step nearer |

## Left out

- HTTP, JSON, sockets, tokens, JWT, SMTP, Slack, the dashboard, CSV export, the simulator and the instrument readers:
  a request is its decoded batch, and which bodies decode within the size limit is a parameter of `Ingest.Gate`.
- Postgres and TimescaleDB: a statement is atomic, conflicts follow first writer wins, and aggregates are fresh;
  refresh policies and the aggregates' min and max columns are not modelled.
- Floating point: values, delays and percentages are reals.
- Power loss: a crash is of the process, with the rename atomic.
- A failed write of an alert_log row, which the code only logs.
- DiskBuffer.HistoryRefinesFifo: limited to 10^12 moves, which is how far file names sort as their indices.
- Delivery.ExactlyOnceInOrder: acquisition stops numbering at 10^12 for the same reason.
- Delivery.LoadAlwaysFinds: says nothing of a bounded queue, for which it fails; `BoundedQueue.SenderLivesIff` says when.
- BoundedQueue.SenderLivesIff: leaves out the network; a posted batch is settled or given up on as it pleases.
- SenderLoop.SenderLoop: ends when the queue is empty, where the code goes on polling, and shutdown does not come.
- Backfill.Run: the span is fixed, where the code takes it from the clock; with a batch size of 0 the code's flush
  would not end, so it is at least 1.
- Series.QuerySeriesExactIff: steps below one second ("0s") reach the database as a zero interval and are excluded.
- The spelling of placeholder numbers in the statement text: a placeholder is its number.
- Foreign files in the journal directory: the listing of a directory holds journal files only.
- The collector's sampling interval, configuration poll and status lines, and the harness's scheduling of send times.
