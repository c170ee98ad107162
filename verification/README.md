# TokenFx: a Dafny model of ingest, delivery and the derived figures

TokenFx reads the transcript files of coding sessions into SQLite tables, keeps per-session sums over them, derives
figures from the stored rows and delivers sessions to a central server. This project models the parts where something
has to stay true over many steps, and proves it.

| files | what they model |
|---|---|
| `Tables`, `ReconcileSql`, `Reconcile`, `ReconcileColumns` | the tables as maps in a class, the four reconcile statements as methods over them, the laws of the three reconcile entry points, and what they leave in each column |
| `Pricing`, `Writer`, `StoredRows`, `IngestLaws`, `IngestRuns`, `Overlays`, `Confluence` | the cost of a turn, writing a session and what each column of its rows holds, the mtime gate, and what whole runs of ingest steps keep |
| `Recompute`, `Effectiveness`, `MetricColumns` | repricing with a dry run, the batched metrics against the per-session ones, and what each metric is in terms of the stored columns |
| `Watcher` | the per-path promise queue as interleaved steps |
| `Client`, `OfflineQueue`, `QueueFates`, `Runner`, `RunnerLaws`, `StaleSessions` | bounded retry, the bounded FIFO table and what becomes of its rows, a reporter run against an adversarial server, and what happens to a session between reading and marking it |
| `Regression`, `Percent`, `Quota`, `Heatmap` | least squares, percentages that add up, quota resets, the calendar grid |
| `OtelLabels`, `OtelLines`, `Fence` | label parsing, the line pattern before it, and Markdown fences, each with the text round trip |
| `PrLookup` | the pull-request cache with its rate-limit pause, and the count built on it |
| `Options`, `Numbers` | an optional value; a number that may be NaN or infinite |

Code that changes state step by step is a method over a class or over local variables, proved equal to a specification
function or predicate; the laws are lemmas about that specification. Each specification is also tied to the columns,
statuses or characters it reads by lemmas that write them out without its definitions. A SQL statement is a method that
visits its rows one by one: `ROW_NUMBER` takes the least remaining row, `SUM`, `COUNT`, `MIN` and `MAX` are folds.

## How values are modelled

- Ids, paths and hashes are opaque: naturals whose order stands for the collation order where a query sorts by id.
- Cost is an integer number of micro-dollars. Prices are in hundredths of a micro-dollar a token, so the price table is
  exact, and `Math.round` is rounding to the nearest integer with halves going up.
- Other fractions are reals, timestamps integers in milliseconds, days 24 hours long and counted from 1 January 1970.
- The parser, the sanitizer, the payload hash and the classified answer of the `gh` command are inputs of the model. So
  are clocks, mtimes and every answer of the server; nothing is assumed of the server.
- Strings are sequences of characters. White space is the set a JavaScript regular expression uses.
- A SQL transaction is atomic. The three steps of a settled promise (start, settle, cleanup callback) are separate and
  may interleave with those of every other promise.

## What came out differently from the comments or the expectation

Each point names the exact condition and, in brackets, a lemma with an input on the failing side.

- `lib/ingest/writer.ts:106` lets an upsert move a turn to another session, but only the written session is reconciled
  (line 327). From a consistent database the result is consistent if and only if no turn and no tool call of the file
  is stored under another session (`IngestLaws.WriteConsistentIff`; `IngestLaws.SharedTurnLeavesStale`). Run-level
  theorems carry that condition.
- The upserts of a file are committed before its session is reconciled in a second transaction
  (`lib/ingest/writer.ts:299-327`), so the comment at lines 307-308 (no half-written session) holds for the rows and not
  for what is derived from them. The sessions a run leaves unreconciled are exactly those for which the last file that
  was stored lost its reconcile (`IngestRuns.UnsettledIff`; `IngestLaws.LostReconcileLeavesStale`); all others are right
  (`IngestRuns.RunKeepsInvariant`). The mtime of such a file is not recorded, and the next file stored under the
  session, or the same one again, puts it right (`IngestRuns.NextStoreSettles`, `IngestRuns.RetryHeals`).
- `lib/ingest/reconcile.ts:74-78` calls the difference between the two rollups inert. They agree on a database exactly
  if every session without turns already has an all-zero row (`Reconcile.FormsDivergeOnTurnlessRows`;
  `Reconcile.TurnlessRowDiverges`).
- `scripts/recompute-costs.ts:281-292` passes no service tier, and bills the aggregate when both split buckets are zero,
  while ingest bills the buckets (`lib/ingest/writer.ts:219-227`). `Pricing.NoDrift` is the exact condition, on the
  stored columns, under which both give the same cost (`Pricing.DriftingTurns`).
- `lib/reporter/runner.ts:525-526` says that the next run retries from the queue. No code takes anything out of the
  queue. A payload that was not acknowledged leaves its session's mark as it was, and is prepared again exactly if the
  candidate query still selects the session by that old mark (`RunnerLaws.UnacknowledgedIsPreparedAgain`). That is
  always so for a session never pushed before. A session whose content changed without a newer ingest, rating or
  evaluation time is selected by its recent start alone; once the hour is over the update is lost to every later run
  until the row changes (`RunnerLaws.UnselectedForGood`; `RunnerLaws.QueuedUpdateIsLost`). Two parts of the payload
  change in this way: `total_cost_usd_otel` in the sweep after an ingest run (`lib/ingest/writer.ts:495-511`, sent at
  `lib/reporter/runner.ts:422`), and `total_cost_usd` in the reconcile of a recompute run
  (`scripts/recompute-costs.ts:304-309`).
- A run reads a payload before it pushes and marks the session with the time after the acknowledgement. A session that
  is ingested in between is stale on the server, yet its mark is later than its ingest. The next run misses a stale
  session exactly if it did not start recently and every change since the read is without a time column or not later
  than the acknowledgement (`StaleSessions.StaleIsMissedIff`; `StaleSessions.OverlapLosesUpdate`).
- The drop loop of `lib/reporter/queue.ts:164` ends if and only if `maxEntries` is at least 1. For any smaller bound its
  guard holds after every number of iterations (`OfflineQueue.DropLoopEndsIff`).
- In `lib/ingest/otel/parser.ts:94` a label named `__proto__` is lost, because assigning a string to that property of a
  plain object does nothing; every other map of labels comes back (`OtelLabels.MapRoundTrip`; `OtelLabels.ProtoIsLost`).
- The line pattern at `lib/ingest/otel/parser.ts:10-11` ends the label block at the first closing brace. A printed line
  comes through intact if and only if no label value contains a closing brace; otherwise the whole line is skipped
  (`OtelLines.LineRoundTripIff`; `OtelLines.BraceLineIsSkipped`).
- A fenced text that ends in a carriage return comes back one line short, and no other text does (`Fence.RoundTrip`;
  `Fence.ReturnIsLost`).
- The pull-request cache is keyed by the commit hash alone (`lib/ingest/git/pr-lookup.ts:194`). A good reply is sure to
  be that of the repository it is for if and only if the command's one good answer for the commit was about that
  repository (`PrLookup.ReplyOfOwnRepoIff`; `PrLookup.ForkGetsOthersAnswer`).
- `lib/queries/quota.ts:287-293` says that only a long idle gap moves the block cycle. But once the anchor is older than
  seven days the oldest turn in the window takes its place. The next reset is then whole windows from the previous one
  exactly if that turn is from the old anchor, and it goes back exactly if a block counted from that turn ends between
  now and the previous reset (`Quota.ResetsAfterSliding`; `Quota.ResetGoesBack`).
- In the heuristic 5-hour estimate the final check that the reset lies in the future never fails
  (`Quota.BlockEndBounds`).

## Model

| member | source | states |
|---|---|---|
| `ReconcileSql.RenumberOneSql` | lib/ingest/reconcile.ts:19-28 | numbering the rows of one session by (timestamp, id) gives each its rank, one more than the number of earlier rows of the session, and touches nothing else |
| `ReconcileSql.RenumberAllSql` | lib/ingest/reconcile.ts:64-72 | one pass over all rows, restarting at each new session, gives every turn its rank within its own session |
| `ReconcileSql.RollupOneSql` | lib/ingest/reconcile.ts:30-62 | one session row becomes the sums, counts and bounds over its stored turns and tool calls, keeping the old bounds if it has no turns |
| `ReconcileSql.RollupAllSql` | lib/ingest/reconcile.ts:87-131 | the two grouped passes and their join give each session with turns its rollup and leave the others alone; tool calls inflate no turn sum |
| `ReconcileSql.RankSameOrder` | lib/ingest/reconcile.ts:19-28 | the rank depends only on session, timestamp and id of the rows, not on the stored sequence |
| `ReconcileSql.SequencesAreOneToN` | lib/ingest/reconcile.ts:151-155 | sequences that equal the ranks number a session's turns exactly 1..N: of two turns the one with the smaller timestamp, or the smaller id if those are equal, has the smaller sequence |
| `Reconcile.ReconcileSession` | lib/ingest/reconcile.ts:156-163 | renumbering and then rolling up one session, on the whole database |
| `Reconcile.ReconcileAllSessions` | lib/ingest/reconcile.ts:170-176 | the grouped renumbering and then the grouped rollup |
| `Reconcile.ReconcileSessionsByIds` | lib/ingest/reconcile.ts:187-200 | the per-session form run over a list of ids in order; an empty list changes nothing |
| `Reconcile.ReconcileSessionRestores` | lib/ingest/reconcile.ts:156-163 | afterwards the session's sequences and rollup are those of its stored rows; no other turn, session or table has changed |
| `Reconcile.GlobalRefinesPerSession` | lib/ingest/reconcile.ts:87-176 | for every database, the global form gives a session with turns exactly the row and the turns the per-session form gives it, and leaves a session without turns unchanged |
| `Reconcile.GlobalIsAnyOrderOfSessions` | lib/ingest/reconcile.ts:165-176 | the global form equals the per-session form run over the sessions with turns, in any order and with any repetitions |
| `Reconcile.ByIdsIsReconciled` | lib/ingest/reconcile.ts:178-200 | a list of ids may come in any order, with repetitions and unknown ids; only the set of ids matters |
| `Reconcile.ReconcileIdempotent` | lib/ingest/reconcile.ts:151-176 | running either form twice is running it once |
| `Reconcile.FormsDivergeOnTurnlessRows` | lib/ingest/reconcile.ts:74-78 | the two forms agree on a database if and only if the rows of all sessions without turns are already zero |
| `Reconcile.TurnlessRowDiverges` | lib/ingest/reconcile.ts:74-78 | for any row that is not all zero, a database with that row and no turns is left alone by the global form and changed by the per-session form |
| `Reconcile.ConsistentIsFixedPoint` | lib/ingest/reconcile.ts:4-17 | stored sequences and rollups are right if and only if reconciling everything changes nothing |
| `ReconcileColumns.SequenceFollowsTime` | lib/ingest/reconcile.ts:19-28 | after any of the three entry points, of two turns of a reconciled session the one with the smaller timestamp, or the smaller id if those are equal, has the smaller sequence |
| `ReconcileColumns.SequenceInRange` | lib/ingest/reconcile.ts:64-72 | its sequences lie between 1 and the number of its turns, and no two are equal |
| `ReconcileColumns.TotalsAddUp` | lib/ingest/reconcile.ts:87-131 | the five totals add up the token columns and the cost of its stored turns, each its own column |
| `ReconcileColumns.CountsAndBounds` | lib/ingest/reconcile.ts:30-62 | its counts are those of its stored turns and of their tool calls, its bounds the first and last timestamp, or as before without turns; the other columns stay |
| `Pricing.RoundIsNearest` | lib/analytics/pricing.ts:215-217 | a cost is rounded to the nearest micro-dollar, an exact half upwards |
| `Pricing.RecomputeMatchesIngest` | lib/analytics/pricing.ts:172-218 | the script's cost of a stored turn equals the ingest cost if and only if no aggregate is billed in place of empty buckets and halving for the batch tier does not show after rounding |
| `Pricing.StandardSplitTurnsDoNotDrift` | scripts/recompute-costs.ts:276-293 | a turn outside the batch tier with non-zero split buckets or a zero aggregate is recomputed to the cost it was ingested with |
| `Pricing.DriftingTurns` | scripts/recompute-costs.ts:281-292 | a turn whose aggregate is billed by the script alone, and a batch turn billed at twice its ingest cost |
| `Pricing.ListPrices` | lib/analytics/pricing.ts:36-70 | what a million tokens of each of the five kinds cost for each of the four price families, and nothing for an unknown model |
| `Pricing.CostIsNearest` | lib/analytics/pricing.ts:205-217 | a turn costs its tokens at what a million of each kind costs, to the nearest micro-dollar with halves up, and half that in the batch tier |
| `Pricing.RecomputeIsListPrice` | scripts/recompute-costs.ts:281-292 | the script's cost is the ingest cost in the standard tier, with the aggregate as 5-minute tokens if both buckets are zero |
| `Writer.WriteSession` | lib/ingest/writer.ts:201-327 | the rows of the file are laid over the tables, then the written session alone is reconciled; if the first transaction throws, nothing has changed, and if the reconcile throws, the rows stay as they were laid |
| `Writer.IngestSingleFile` | lib/ingest/writer.ts:381-428 | an unchanged mtime, a parse error or an error of the write transaction changes nothing; an error after its commit leaves the rows stored and the mtime unrecorded; otherwise the session is written and the mtime recorded if it could be read |
| `Writer.IngestAll` | lib/ingest/writer.ts:480-493 | the database and the counters after a list of files, each file judged against what the earlier ones left |
| `StoredRows.TurnIsStored` | lib/ingest/writer.ts:215-256 | each turn id of the file gets the session, timestamp, model, usage, tier, text and cost of the last turn with that id, its sequence being the file's or else its place in the file; the reconcile changes the sequence alone |
| `StoredRows.OtherTurnsStay` | lib/ingest/writer.ts:105-123 | a turn the file does not mention stays as it is, but for its sequence if it is of the written session |
| `StoredRows.CallIsStored` | lib/ingest/writer.ts:286-297 | each tool-call id of the file gets the columns of the last call with that id and the turn it stands in; all other calls stay |
| `StoredRows.EventIsStored` | lib/ingest/writer.ts:309-319 | an event is stored under its session, file and number with the data of the last such event; all other events stay |
| `StoredRows.SessionIsStored` | lib/ingest/writer.ts:258-276 | the session row records the file and the time of the write; no other session row changes, and no session is lost |
| `StoredRows.InMemoryRollup` | lib/ingest/writer.ts:208-233 | for a new session wholly in one file, the sums and counts added up in memory are those the reconcile computes from the stored rows |
| `StoredRows.RecordedIsGated` | lib/ingest/writer.ts:394-401 | once a file is processed it is turned away exactly as long as its mtime can be read and is not later, and then nothing changes |
| `StoredRows.OutcomeByFault` | lib/ingest/writer.ts:402-428 | a file that is let through is processed exactly if it parses and nothing it gets to throws; its rows are stored unless the upserts throw, and only a processed file is recorded |
| `StoredRows.ProcessedCounts` | lib/ingest/writer.ts:413-421 | a processed file is counted with its session, its turns and its tool calls |
| `StoredRows.RunStoresFiles` | lib/ingest/writer.ts:215-256 | after any run every stored turn has the columns it had before the run, or those of a turn in a file of the run |
| `Confluence.SummaryCountsWrites` | lib/ingest/writer.ts:480-493 | a file is counted as processed exactly if it is stored, reconciled and recorded, the upserted turns and tool calls are those of the processed files, the files turned away are counted apart, and each file is counted once |
| `IngestLaws.WriteKeepsForeignKeys` | lib/ingest/writer.ts:299-327 | after a write every turn has a session and every tool call a turn |
| `IngestLaws.WriteConsistentIff` | lib/ingest/writer.ts:93-137 | from a consistent database, a write leaves it consistent if and only if no turn and no tool call of the file is stored under another session |
| `IngestLaws.SharedTurnLeavesStale` | lib/ingest/writer.ts:105-106 | of any two one-turn files that claim the same turn for different sessions, the second leaves the first session's row stale |
| `IngestRuns.RunLeavesUnclaimed` | lib/ingest/writer.ts:93-137 | what no session has claimed twice at the start of a run, no session has claimed twice at any point in it |
| `IngestLaws.StoredAgain` | lib/ingest/writer.ts:93-137 | a file stored again, whether or not its first reconcile threw, leaves exactly what storing it only then leaves |
| `IngestLaws.LostReconcileLeavesStale` | lib/ingest/writer.ts:321-327 | a new session whose one turn is not numbered 1 by its file is wrong if its reconcile throws |
| `IngestRuns.RunKeepsInvariant` | lib/ingest/writer.ts:299-327 | after any run of ingest steps, with sessions split over any files and errors anywhere, every stored sequence and rollup is that of the stored rows, but for the sessions whose last reconcile threw, and the ratings are untouched |
| `IngestRuns.UnsettledIff` | lib/ingest/writer.ts:321-327 | the sessions excepted there are exactly those for which the last file of the run that was stored lost its reconcile |
| `IngestRuns.NextStoreSettles` | lib/ingest/writer.ts:323-327 | whatever threw before, a session is right after the next file of it that is stored and reconciled |
| `IngestRuns.RetryHeals` | lib/ingest/writer.ts:394-428 | after an error anywhere in the write the gate lets the file through as before, and trying again gives what the second attempt alone would give |
| `Overlays.OverlayAt` | lib/ingest/writer.ts:105-137 | in a sequence of upserts whose equal keys carry equal rows, a key holds the row of any upsert that mentions it, or else the old row |
| `Confluence.WrittenAllLayered` | lib/ingest/writer.ts:93-158 | a run of writes, reconciled or not, lays the rows of the files, but for the derived sequences, over the tables in order |
| `Confluence.SufficientFilesSameView` | lib/ingest/writer.ts:105-137 | leaving out files that repeat others, or whose rows are stored already, changes nothing that queries can see, but in sessions whose last reconcile threw |
| `Confluence.RunIsPassedWrites` | lib/ingest/writer.ts:394-411 | a run with the gate is the writes of the files that pass it, and the recorded mtimes; it unsettles the sessions those writes unsettle |
| `Confluence.GateInvisible` | lib/ingest/writer.ts:394-401 | if an mtime that has not advanced means unchanged content, a run gives the same turns, calls and events as storing every file, and the same sequences and rollups of all sessions but those whose last reconcile threw |
| `Confluence.IngestConfluent` | lib/ingest/writer.ts:375-428 | two runs over the same files, in any order and with any repetitions, end with the same turns, tool calls and events, and with the same sequences and turn-derived rollups of every session whose last reconcile threw in neither |
| `Recompute.RecomputeTurnsDefault` | scripts/recompute-costs.ts:215-334 | updated + unchanged = total; a dry run reports the counters of the real run and leaves the database as it was; a real run reprices the stale turns in scope and reconciles |
| `Recompute.ScopesSelect` | scripts/recompute-costs.ts:225-240 | the scopes select every turn, the turns of sessions that started at or after the given time, and the turns of one session |
| `Recompute.RunReprices` | scripts/recompute-costs.ts:276-302 | a real run gives the selected turns the cost of the price table and changes no other column but sequences |
| `Recompute.RunSettles` | scripts/recompute-costs.ts:304-309 | it reconciles the sessions with a repriced turn, in scope `all` every session with turns, and leaves the row of any other as it is |
| `Recompute.CountersAre` | scripts/recompute-costs.ts:294-302 | the counters are the selected turns, those whose cost is not that of the price table, and those that cost nothing before and after |
| `Recompute.RecomputeKeepsConsistent` | scripts/recompute-costs.ts:304-309 | a real run keeps the rollup invariant, although it reconciles only touched sessions outside scope `all` |
| `Recompute.SecondRunUpdatesNothing` | scripts/recompute-costs.ts:274-310 | a second run right after a real one updates no row, and from a consistent database changes nothing |
| `Recompute.NothingStaleNoOp` | scripts/recompute-costs.ts:293-302 | a run that finds no stale cost in its scope updates no row, and from a consistent database changes nothing at all |
| `Recompute.IngestKeepsFreshCosts` | lib/ingest/writer.ts:219-227 | after any ingest run the stored costs are those ingest computes |
| `Recompute.RunAfterIngest` | scripts/recompute-costs.ts:276-302 | right after ingest a run updates nothing if and only if no turn in scope is one of those the two computations bill differently |
| `Effectiveness.RereadIsReadsMinusPaths` | lib/queries/effectiveness-v2.ts:180-193 | the re-read count is the number of Read calls that name a path less the number of distinct paths |
| `Effectiveness.FirstTurnShortcut` | lib/queries/effectiveness-v2.ts:381-385 | with sequences from 1 up, the shortcut for an edit on the first turn returns what the skipped query would |
| `Effectiveness.SelectTokensUntilFirstEdit` | lib/queries/effectiveness-v2.ts:162-179 | null without an edit, otherwise the input, output and cache-creation tokens of the turns before the first edit |
| `Effectiveness.AggregateMetricsForSessions` | lib/queries/effectiveness-v2.ts:248-307 | for every database the batched query yields for each session the counts the per-session queries yield for it alone |
| `Effectiveness.RowGivesMetrics` | lib/queries/effectiveness-v2.ts:239-307 | every per-session metric but the tokens before the first edit can be computed from the batched row, the subagent ratio included |
| `MetricColumns.RatesAre` | lib/queries/effectiveness-v2.ts:198-213 | the error rate is failed calls over calls, reads to edits is Read calls over Edit, MultiEdit and Write calls, each null if there is nothing to divide by |
| `MetricColumns.RereadsAre` | lib/queries/effectiveness-v2.ts:180-193 | the re-reads are the Read calls of the session that name a path less the paths they name |
| `MetricColumns.SubagentRatioIs` | lib/queries/effectiveness-v2.ts:217-221 | the subagent ratio is the turns of the session with a subagent type over its stored turn count |
| `MetricColumns.NoEditNoTokens` | lib/queries/effectiveness-v2.ts:162-179 | the tokens until the first edit are null exactly if no call of the session is an Edit, MultiEdit or Write |
| `MetricColumns.TokensUntilEdit` | lib/queries/effectiveness-v2.ts:162-179 | otherwise they are zero if the first edit is in the first turn, else the input, output and cache-creation tokens of the turns before it |
| `Effectiveness.GetPersonalEffectivenessAggregates` | lib/queries/effectiveness-v2.ts:445-540 | each of the four averages is the null-skipping average of the per-session metric over the sessions of the window; compacted and total sessions are counted as in the tables |
| `Effectiveness.AverageAnyOrder` | lib/queries/effectiveness-v2.ts:437-443 | the null-skipping average does not depend on the order the window query yields |
| `Effectiveness.AverageOfPresent` | lib/queries/effectiveness-v2.ts:437-443 | for any values the average is the plain mean of those that are present, and null exactly if none is |
| `Effectiveness.NullIsSkipped` | lib/queries/effectiveness-v2.ts:437-443 | a null leaves the average as it was, wherever it stands |
| `Effectiveness.AverageIsMean` | lib/queries/effectiveness-v2.ts:437-443 | the average of values that are all present is their sum divided by their number |
| `Watcher.TaskQueue.Enqueue` | lib/ingest/watcher.ts:92-97 | a job is chained to the path's tail, or to a resolved promise, and becomes the tail |
| `Watcher.TaskQueue.Finally` | lib/ingest/watcher.ts:98-100 | the cleanup callback removes the entry only if the promise is still the tail |
| `Watcher.LegalInv` | lib/ingest/watcher.ts:90-102 | the queue invariant (chaining, turns, tails, start log) holds after every interleaving of enqueue, start, settle and cleanup steps |
| `Watcher.AtMostOneRunning` | lib/ingest/watcher.ts:79-82 | in every interleaving at most one task of a path is running |
| `Watcher.StartOrder` | lib/ingest/watcher.ts:79-82 | tasks of a path start in enqueue order and none is passed over |
| `Watcher.StartEnabledIff` | lib/ingest/watcher.ts:94-96 | a task can start if and only if all earlier tasks of its path have settled, fulfilled or rejected |
| `Watcher.FinallyKeepsNewerTail` | lib/ingest/watcher.ts:98-100 | a late cleanup never deletes a newer tail: the entry goes exactly if no newer job exists |
| `Watcher.EntryIff` | lib/ingest/watcher.ts:87-101 | the map has an entry for a path exactly until the path's last job has been cleaned up |
| `Watcher.QuiescentIsDrained` | lib/ingest/watcher.ts:84-88 | when nothing but an enqueue is possible, every task has settled and been cleaned up and the map is empty: no deadlock, no leak |
| `Watcher.DrainsInBoundedSteps` | lib/ingest/watcher.ts:90-102 | without further enqueues every schedule is exactly as long as the work left |
| `Watcher.OutcomesDoNotMatter` | lib/ingest/watcher.ts:84-85 | replacing fulfilments by rejections leaves the same steps possible and the same state, but for the error count |
| `Watcher.RejectionsLogged` | lib/ingest/watcher.ts:94-97 | every rejected task is logged once, and nothing else is |
| `Client.PushBatch` | lib/reporter/client.ts:120-230 | the requests sent are identical and as many as it takes to the first final answer, at most 7; one sleep fewer; a transient result reports 7 attempts |
| `Client.StopsAtFirstFinal` | lib/reporter/client.ts:134-221 | the number of requests is between 1 and 7: all answers but the last were retryable, and the last is final unless it is the seventh |
| `Client.ResultOfLast` | lib/reporter/client.ts:155-226 | the result by the status and the body of the last response: ok, permanent, unsupported version, or transient after seven requests |
| `Client.WaitIs` | lib/reporter/client.ts:88-105 | after a 429 with a usable header the client waits that many seconds but at most a minute, otherwise 1, 2, 4, 8, 16 and 32 seconds in turn |
| `Client.SleepsAddUp` | lib/reporter/client.ts:79-105 | every wait is between 1 s and 60 s, all together at most 360 s, and exactly 2^k - 1 seconds for k waits without a usable Retry-After (section 10.2.3 of RFC 9110) |
| `OfflineQueue.Queue.Enqueue` | lib/reporter/queue.ts:155-177 | the table becomes the last `maxEntries` of the old rows and the new one, and the loop drops exactly the rest |
| `OfflineQueue.Queue.DequeueOldest` | lib/reporter/queue.ts:179-183 | the first min(limit, size) rows, without removing them |
| `OfflineQueue.Queue.Remove` | lib/reporter/queue.ts:185-193 | the listed ids are deleted one by one |
| `OfflineQueue.DeleteAllRemoves` | lib/reporter/queue.ts:185-193 | removal takes out exactly the rows with a listed id and keeps the order |
| `QueueFates.HistoryFates` | lib/reporter/queue.ts:155-197 | after any history each id there was at the start or has been handed out since is exactly one of present, removed or dropped, and no other id is any |
| `QueueFates.HistoryDropsOldest` | lib/reporter/queue.ts:160-169 | over any history rows are dropped in the order of their ids, and all before every row that is still there |
| `QueueFates.HistoryKeepsItems` | lib/reporter/queue.ts:155-197 | ids are handed out one by one, and each row present holds the item enqueued under its id |
| `QueueFates.HistoryAccounts` | lib/reporter/queue.ts:155-197 | rows at the start and enqueues make up the rows present, removed and dropped |
| `OfflineQueue.HistoryBounded` | lib/reporter/queue.ts:160-169 | once an enqueue has run the size never exceeds the bound, even if the table was over it before |
| `OfflineQueue.EnqueueRefinesFifo` | lib/reporter/queue.ts:155-177 | enqueueing is appending an item and keeping the last `maxEntries` items |
| `OfflineQueue.DrainRefinesFifo` | lib/reporter/queue.ts:179-193 | removing what `dequeueOldest` returned takes that many items off the front |
| `OfflineQueue.DropLoopIterations` | lib/reporter/queue.ts:163-167 | from any table the drop loop runs once for each row from the bound on, for a bound of at least 1 |
| `OfflineQueue.DropLoopEndsIff` | lib/reporter/queue.ts:163-167 | from any table the drop loop ends if and only if the bound is at least 1; otherwise the guard holds after every number of iterations |
| `Runner.SelectCandidates` | lib/reporter/runner.ts:153-179 | the sessions never pushed, changed, rated or evaluated since, or started recently, each once, by start time |
| `Runner.RunReporter` | lib/reporter/runner.ts:355-566 | the counters, the marks, the queue and the batches that were sent after a run against any server, in the order the candidate query answered |
| `RunnerLaws.CandidatesAnswered` | lib/reporter/runner.ts:153-179 | the candidates are the sessions never pushed, started at or after the cutoff, or ingested, rated or evaluated after their mark, each once, the earliest start first |
| `RunnerLaws.SkippedAndFailed` | lib/reporter/runner.ts:409-469 | skipped are exactly the candidates whose mark carries the hash of their payload, failed those that do not sanitize |
| `RunnerLaws.PreparedInOrder` | lib/reporter/runner.ts:409-469 | payloads are prepared in the order of the candidates |
| `RunnerLaws.RunDelivers` | lib/reporter/runner.ts:484-559 | fifty payloads a batch up to the first that fails, which goes into the queue after a transient failure and counts as failed after any other; no batch after it is sent |
| `RunnerLaws.QueueTakes` | lib/reporter/runner.ts:513-527 | the queue takes the payloads of that batch in order and keeps the newest if there are too many |
| `RunnerLaws.RunAccounts` | lib/reporter/runner.ts:409-561 | pushed + skipped + failed + queued = candidates less the payloads never attempted after the first failing batch |
| `RunnerLaws.DryRunForetells` | lib/reporter/runner.ts:475-480 | the candidates a dry run counts neither as skipped nor as failed are as many as the real run pushes if every batch is acknowledged |
| `RunnerLaws.PreparedIff` | lib/reporter/runner.ts:409-469 | what is prepared is the payload, with its hash, of exactly the candidates that sanitize and whose mark, if they have one, carries another hash |
| `RunnerLaws.RunMarksPrefix` | lib/reporter/runner.ts:484-559 | a real run marks exactly a prefix of the prepared payloads, made of whole batches of 50 (the last may be shorter) up to the first that fails, each with its hash at the time of its batch; every other session keeps its mark |
| `RunnerLaws.MarkedAt` | lib/reporter/runner.ts:484-511 | a payload of an acknowledged batch keeps the hash and time of that batch through the later batches |
| `RunnerLaws.NotMarked` | lib/reporter/runner.ts:491-559 | a session without a payload in the acknowledged batches keeps the mark it had |
| `RunnerLaws.MarksWereAcknowledged` | lib/reporter/runner.ts:507-511 | over all runs, a session is marked with a hash only if some run sent a batch holding that payload and its push gave an ok result |
| `RunnerLaws.OkMeansAnswered` | lib/reporter/client.ts:157-173 | an ok result means that one of the requests that were sent, at most 7, was answered with a readable success |
| `RunnerLaws.RerunPushesNothing` | lib/reporter/runner.ts:458-462 | after a fully successful run, with unchanged data and a clock that has not gone back, the next run pushes and queues nothing |
| `RunnerLaws.UnacknowledgedIsPreparedAgain` | lib/reporter/runner.ts:513-527 | a payload that was not acknowledged is prepared again by the next run if and only if the candidate query selects its session by the mark it had before |
| `RunnerLaws.UnselectedForGood` | lib/reporter/runner.ts:167-178 | a session the query does not select is selected by no later run, and keeps its mark, until its row changes |
| `RunnerLaws.QueuedUpdateIsLost` | lib/reporter/runner.ts:513-527 | a session pushed before whose update goes into the queue in one run and is no candidate of the next |
| `StaleSessions.CandidateIff` | lib/reporter/runner.ts:167-178 | over every history of changes, reads and acknowledgements, a marked session is a candidate if and only if it started recently or a change with a time column came later than its mark |
| `StaleSessions.MarkWasRead` | lib/reporter/runner.ts:455-511 | the hash of a mark is that of the content at an earlier read, in flight until the acknowledgement whose time the mark carries |
| `StaleSessions.StaleIsMissedIff` | lib/reporter/runner.ts:167-178 | a stale session has changed since the read behind its mark, and the next run misses it if and only if it did not start recently and all those changes are without a time column or not later than the acknowledgement |
| `StaleSessions.QuietRunsMissNothing` | lib/reporter/runner.ts:484-511 | if no change falls between a read and its acknowledgement, and later changes are strictly later and carry a time, every stale session is a candidate |
| `StaleSessions.StaysMissed` | lib/reporter/runner.ts:167-178 | a missed session is left as it is by any number of later runs until it changes |
| `StaleSessions.OverlapLosesUpdate` | lib/reporter/runner.ts:484-511 | a session ingested between the read and the acknowledgement is stale and no candidate |
| `Regression.LinearRegression` | lib/analytics/regression.ts:36-78 | null exactly for fewer than 3 finite points or equal x; points on a line that is not vertical give that line with r2 = 1; otherwise every other line leaves a strictly larger sum of squared residuals, 0 <= r2 <= 1, and 1 - r2 is the share of the variation the line leaves |
| `Regression.FiniteAt` | lib/analytics/regression.ts:33-39 | the fit is over the points with two finite coordinates, in order, x as x and y as y |
| `Regression.ResidualsNext` | lib/analytics/regression.ts:66-73 | each point adds the square of its vertical distance from the line |
| `Regression.VariationIsBestFlat` | lib/analytics/regression.ts:66-75 | the total variation is what the best flat line leaves, the one through the mean |
| `Regression.FitIsUniqueOptimum` | lib/analytics/regression.ts:63-64 | no (a, b) has a smaller sum of squared residuals than slope and intercept, and if the x differ no other has the same |
| `Regression.ExcessIsGap` | lib/analytics/regression.ts:66-73 | any line leaves what the fitted line leaves plus the sum of squared distances between the two |
| `Regression.FitWithinVariance` | lib/analytics/regression.ts:66-75 | the residuals of the fitted line are between zero and the total variation |
| `Regression.VerticalIff` | lib/analytics/regression.ts:61 | the spread of x around its mean is zero if and only if all x are equal |
| `Percent.DistributeUnits` | lib/analytics/percent.ts:24-61 | all zero without a positive fraction; otherwise Hamilton's shares: the exact total, each the floor of its quota or one more, larger remainders and then lower indices served first |
| `Percent.DistributePercents` | lib/analytics/percent.ts:20-64 | one text a fraction with the given number of decimals; read back, the texts show Hamilton's shares, or all zero without a positive fraction |
| `Percent.ReadsPercent` | lib/analytics/percent.ts:63 | the digits of a text, read as one number, are its units: nothing is lost in formatting |
| `Percent.WholeIsQuotient` | lib/analytics/percent.ts:63 | what stands before the decimal point is the units divided by 10^decimals, rounded down |
| `Percent.HamiltonUnique` | lib/analytics/percent.ts:48-61 | only one list of units meets those conditions |
| `Percent.DistributionIsFair` | lib/analytics/percent.ts:1-18 | units sum to 100 * 10^decimals, a zero, negative or non-finite fraction keeps zero, and a larger fraction, or the first of two equal ones, never gets fewer |
| `Percent.SharesAreProportional` | lib/analytics/percent.ts:36-47 | the units of a positive fraction are at most one away from its part of the whole, measured against the sum of the positive fractions |
| `Percent.TextIsFixed` | lib/analytics/percent.ts:63 | a text is the whole percents without leading zeros, a point and exactly the given number of decimals if there are any, and a percent sign |
| `Percent.OrderOfSorts` | lib/analytics/percent.ts:48-53 | the order lists every index once, remainders descending and ties by index |
| `Percent.AllServed` | lib/analytics/percent.ts:55-61 | serving every entry would give out more than the whole, so the loop ends because the residue is used up |
| `Quota.SessionAnchor` | lib/queries/quota.ts:128-140 | null exactly without turns in the window; otherwise the turn that continues no run while every later one does |
| `Quota.AnchorOfTwo` | lib/queries/quota.ts:128-140 | of two turns the later one is the anchor if and only if the gap between them is longer than the limit |
| `Quota.AnchorStartsRun` | lib/queries/quota.ts:123-127 | every turn from the anchor on is reached from it by turns whose gaps are all within the limit |
| `Quota.GetQuotaResetEstimates` | lib/queries/quota.ts:325-384 | calibrated: the least calibrated value plus whole windows that lies in the future; heuristic: null exactly if no turn is within 5 h, otherwise the end of the current block counted from the anchor; 7 days after the oldest recent turn |
| `Quota.NextResetUnique` | lib/queries/quota.ts:369-377 | only one value is a calibrated reset plus whole windows, in the future and not one window too late |
| `Quota.NextResetIsFirst` | lib/queries/quota.ts:337-343 | a calibrated reset is the first time after now that is whole windows after the calibrated one |
| `Quota.BlockResetIff` | lib/queries/quota.ts:344-353 | there is a 5-hour estimate if and only if a turn is at most 18 000 000 ms old |
| `Quota.RollingResetIs` | lib/queries/quota.ts:378-381 | the 7-day estimate is 604 800 000 ms after the oldest turn that is at most that old, and null without one |
| `Quota.BlockEndBounds` | lib/queries/quota.ts:356-363 | a block end is a whole number of windows after the anchor, after now, and at most one window after now exactly if the anchor is not in the future |
| `Quota.ResetWithinOneWindow` | lib/queries/quota.ts:281-310 | with no turn in the future the reset lies in (now, now + 5 h] and is congruent to the anchor |
| `Quota.SuccessiveResets` | lib/queries/quota.ts:285-310 | while activity goes on without a long gap and the anchor stays in the window, later resets never decrease and differ by whole windows |
| `Quota.AnchorSlides` | lib/queries/quota.ts:123-140 | once the anchor has left the window, activity going on without a long gap, the oldest turn in the window is the anchor |
| `Quota.ResetsAfterSliding` | lib/queries/quota.ts:123-140 | the reset is then counted from that turn; it is whole windows from the previous one if and only if that turn is from the old anchor, and earlier than it if and only if a block counted from that turn ends in between |
| `Quota.ResetGoesBack` | lib/queries/quota.ts:285-310 | with a turn every four hours for a week, the reset goes back by an hour |
| `Quota.FreshBlock` | lib/queries/quota.ts:287-293 | after an idle gap of more than 5 h the reset is 5 h after the first new turn |
| `Heatmap.ComputeLevels` | lib/analytics/heatmap.ts:55-66 | one level a value, measured against the running maximum of the values |
| `Heatmap.LevelLaws` | lib/analytics/heatmap.ts:44-54 | for non-negative spends: between 0 and 4, 0 exactly for no spend, 4 at the maximum, otherwise the quarter of the maximum the spend falls into, never decreasing with the spend |
| `Heatmap.ArrangeWeeks` | lib/analytics/heatmap.ts:93-162 | whole weeks whose cell (week, row) shows its day with the last point given for it, or is blank outside the window, and carries the level of its own spend |
| `Heatmap.EveryDayOnce` | lib/analytics/heatmap.ts:82-92 | each of the n days ending at the end date stands in the row of its weekday, in one cell and no other |
| `Heatmap.BlanksAtTheEnds` | lib/analytics/heatmap.ts:87-88 | a cell is blank if and only if it is before the first day in the first week or after the last day in the last week |
| `Heatmap.DaysInOrder` | lib/analytics/heatmap.ts:82-92 | the distance of two cells in reading order is the distance of their days |
| `Heatmap.GridLevels` | lib/analytics/heatmap.ts:146-161 | the level laws hold of the levels attached to the cells in the second pass |
| `Heatmap.LevelIsQuarterOfTop` | lib/analytics/heatmap.ts:44-66 | the level of a cell is the quarter of the largest spend in the grid that its own spend falls into, upper bounds included |
| `Heatmap.CellShowsLastPoint` | lib/analytics/heatmap.ts:98-136 | a cell shows the spend and the sessions of the last point given for its day, or zero without one |
| `OtelLabels.ParseLabels` | lib/ingest/otel/parser.ts:26-109 | for every text the cursor loops end and give what the grammar gives for the trimmed text, or null where it has no reading |
| `OtelLabels.ParsesPrinted` | lib/ingest/otel/parser.ts:26-109 | printed pairs, with any white space around their parts, are read back in order |
| `OtelLabels.RoundTrip` | lib/ingest/otel/parser.ts:26-109 | parsing undoes printing for any list of labels with well-formed names and arbitrary values |
| `OtelLabels.MapRoundTrip` | lib/ingest/otel/parser.ts:26-109 | printing a map in any order and parsing gives the map without `__proto__`, hence the map itself if and only if it has no such label |
| `OtelLabels.ProtoIsLost` | lib/ingest/otel/parser.ts:94 | a printed map with the one label `__proto__` is read back empty |
| `OtelLabels.BadStartIsNull` | lib/ingest/otel/parser.ts:40-44 | a block whose first character is neither white space nor the start of a name is no block |
| `OtelLabels.NoEqualsIsNull` | lib/ingest/otel/parser.ts:49-50 | a name without an equals sign after it makes no block |
| `OtelLabels.NoQuoteIsNull` | lib/ingest/otel/parser.ts:56-57 | nor does an equals sign without a quote after it |
| `OtelLabels.OpenValueIsNull` | lib/ingest/otel/parser.ts:60-91 | nor does a value without a closing quote |
| `OtelLabels.GarbageIsNull` | lib/ingest/otel/parser.ts:96-105 | nor does a pair followed by anything but white space, a comma or the end |
| `OtelLabels.SpacesAre` | lib/ingest/otel/parser.ts:35-37 | which code points are white space: a block of one character is empty for exactly these |
| `OtelLabels.NamesStartWith` | lib/ingest/otel/parser.ts:39-44 | a name of one character is an ASCII letter or an underscore |
| `OtelLabels.NamesGoOnWith` | lib/ingest/otel/parser.ts:42 | from its second character on a name may have ASCII digits as well |
| `OtelLabels.EscapesMean` | lib/ingest/otel/parser.ts:64-85 | a backslash takes a quote, a backslash or a newline from the next character, and stands for itself before any other |
| `OtelLines.LineRoundTripIff` | lib/ingest/otel/parser.ts:10-11 | for any metric name, labels and value, the block of a printed line reaches the label parser intact, and its labels come back, if and only if no value contains a closing brace; otherwise the line does not match at all |
| `OtelLines.BraceLineIsSkipped` | lib/ingest/otel/parser.ts:121-132 | the line `up{path="}"} 1` yields nothing |
| `OtelLines.ValuesOfOneChar` | lib/ingest/otel/parser.ts:10-11 | a value of one character is a digit, a point, an exponent or a plus sign |
| `OtelLines.MinusBefore` | lib/ingest/otel/parser.ts:10-11 | of two-character values that begin with a minus the second is one of those |
| `OtelLines.TimestampsOfOneChar` | lib/ingest/otel/parser.ts:10-11 | a timestamp of one character is a digit |
| `OtelLines.SpecialValues` | lib/ingest/otel/parser.ts:10-11 | NaN and the three spellings of infinity are values |
| `OtelLines.MetricNamesStartWith` | lib/ingest/otel/parser.ts:10-11 | a metric name starts with an ASCII letter, an underscore or a colon |
| `OtelLines.MetricNamesGoOnWith` | lib/ingest/otel/parser.ts:10-11 | from its second character on it may have digits as well |
| `Fence.FenceWidthIsLeast` | lib/share/session-markdown.ts:28-39 | the fence is as wide as the shortest run of 3 or more backticks that the content does not contain |
| `Fence.NoLineCloses` | lib/share/session-markdown.ts:28-33 | no line of the content is a closing fence for the chosen width |
| `Fence.RoundTrip` | lib/share/session-markdown.ts:107-111 | a reader after section 4.5 of the CommonMark specification gets exactly the lines of the content and nothing after the block, if and only if the content does not end in a carriage return |
| `Fence.TextRoundTrip` | lib/share/session-markdown.ts:107-111 | newline-separated text comes back exactly |
| `Fence.ReturnIsLost` | lib/share/session-markdown.ts:107-111 | a single carriage return is two lines, of which the reader gets one back |
| `PrLookup.Lookup.LogOnce` | lib/ingest/git/pr-lookup.ts:107-115 | a reason is logged at most once |
| `PrLookup.Lookup.LookupMergedPrCount` | lib/ingest/git/pr-lookup.ts:183-265 | cache first, then the pause, then the command; a good answer is cached and a rate limit starts a pause |
| `PrLookup.Lookup.ComputeMergedPrCount` | lib/ingest/git/evaluator.ts:479-533 | null without flag, commits or remote, and otherwise exactly if some lookup failed; else the number of different pull requests in all replies |
| `PrLookup.OkIsFinal` | lib/ingest/git/pr-lookup.ts:193-200 | over every sequence of lookups a commit once answered ok is never spawned again and gets the same list |
| `PrLookup.PauseIsKept` | lib/ingest/git/pr-lookup.ts:202-206 | with a monotone clock nothing is spawned within 3 600 000 ms of a rate-limited answer |
| `PrLookup.SpawnedIff` | lib/ingest/git/pr-lookup.ts:178-206 | the command is spawned if and only if the commit has no good answer yet and no pause is running; the reply is then the command's, and otherwise a good answer or rate-limited |
| `PrLookup.ReasonsLogged` | lib/ingest/git/pr-lookup.ts:226-263 | each kind of failure is logged under its own reason, a good answer or an unknown commit under none |
| `PrLookup.PrsOfIsUnion` | lib/ingest/git/evaluator.ts:504-531 | the counted set is the union of the lists in the replies |
| `PrLookup.RecountSpawnsNothing` | lib/ingest/git/evaluator.ts:476-478 | looking the same commits up again after good answers spawns nothing and gives the same lists |
| `PrLookup.GoodReplyWasAsked` | lib/ingest/git/pr-lookup.ts:193-227 | every good reply is what the command answered to the same or an earlier call for the commit |
| `PrLookup.ReplyOfOwnRepoIff` | lib/ingest/git/pr-lookup.ts:193-200 | whatever pull requests the repositories have, a good reply has those of the repository it is for, if and only if the good answer for the commit came from a call about that repository |
| `PrLookup.ForkGetsOthersAnswer` | lib/ingest/git/pr-lookup.ts:193-200 | a commit looked up for a second repository gets the list of the first without a command |

## Left out

- User interface, routes, charts, setup and seed scripts, the identity-provider stub and the central server.
- The transcript parser, the payload sanitizer, canonical JSON and hashing, and the patterns that classify `gh` output:
  inputs of the model.
- OTEL: scraping, the OTEL cost columns and their sweep, cost calibration, and the outcome sweep of an ingest run.
- The number and the timestamp of a Prometheus line: the pattern they must match is modelled, their conversion is not,
  nor that a number whose conversion fails drops the line.
- The column with subagent types, which ingest does not write, enters the metrics as a set of turns; the texts and the
  JSON columns are not carried.
- Error texts, log lines (but for the reasons `PrLookup` logs once), URLs, headers and the idempotency key of a push.
- `Client.PushBatch`: the Retry-After header enters as the number it parses to, or as absent.
- `OfflineQueue.Queue.Enqueue`: requires `maxEntries >= 1`, because the loop of the source does not end otherwise.
- `RunnerLaws.RerunPushesNothing`: says nothing about sessions that fail to sanitize, which are counted as failed again.
- `Percent.DistributePercents`: the rounding that absorbs floating-point drift has nothing to absorb over reals, and the
  error of `toFixed` for more than 100 decimals is not modelled.
- `Effectiveness.AggregateMetricsForSessions`: the branch for a session row deleted between two queries of one call is
  left out.
- `StaleSessions.StaleIsMissedIff`: follows one session; deleted rows and withdrawn ratings are not events.
- Model-name normalisation and the family pattern of the price table: a turn has one of the price families or none.
- Daylight saving, time zones and date strings: a heatmap day is a day number.
- Quota usage sums, the quota heatmap, daily sums, month labels and date-parameter parsing: easy members.
- `markBatchPushed` failing after a push, and two reporters running at once.
