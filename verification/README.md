# Signal analytics on Snowflake: a Dafny model of the orchestrator and its two jobs

The repository runs three Snowflake stored procedures in Python:

- `PIPELINE_SPROC` is the orchestrator. It keeps a ledger table `run_stats` with one record per (DATE, TYPE); TYPE is `download` or `analytics`. On each run it:
  - backfills the ledger with missing dates up to yesterday;
  - selects the records that are not completed and have fewer than three attempts, in the order `DATE ASC, TYPE DESC`;
  - runs the selected jobs one at a time, recording each attempt before the call;
  - stops at the first job that does not return `'success'`.
- `RITIS_SPROC` (download) stores one batch of INRIX XD travel times, but only when enough segments report in the last hour of the day.
- `ANALYTICS_SPROC` reads six weeks of travel times and computes anomalies, change points and free-flow times. It writes them in one transaction.

This project models those three procedures with the database taken out.

- **Common** (`common.dfy`): the shared values.
  - Dates are integer day numbers and timestamps are integer minutes.
  - A table row is `Row(xd, tstamp, values)`.
  - A time filter is `>= lo` or `>= lo AND < hi`.
  - What a procedure call yields is `Outcome`: a returned value, possibly NULL; an exception with its message; or `Interrupted`, meaning the run was stopped while the call was in progress.
- **SqlLiteral** (`sql_literal.dfy`): the escape helper, together with the reading-back of an SQL character-string literal (ISO/IEC 9075-2, subclause 5.3).
- **Ledger** (`ledger.dfy`): the ledger's keys and records, the SQL ordering, the selected queue, the per-type maximum dates, the backfill, and which queue position is the last analytics job.
- **Pipeline** (`pipeline.dfy`): the class `JobLedger`, which holds `run_stats` as a map.
  - Its methods `Backfill`, `RunJob`, `RunQueue`, `RunJobs` and `PipelineRun` update that map in place. `Conclude` and `Except` compute how a job ends without touching the map.
  - `RunQueue` is the dispatch loop. It is proved against the specification functions `Dispatched`, `CallsFor` and `RunStatus`, and run-level lemmas state what a run does.
  - The two procedures it calls are an oracle from a call to its outcome. The clock and the text of the warehouse's SQL errors are functions in `Env`.
  - A job that does not succeed is handled by `Handle`. An UPDATE whose ERROR_MSG literal does not parse raises an SQL error: inside the `try` it is caught like a job exception, and inside the `except` branch it leaves the procedure. The procedure's own result is therefore an `Outcome` too: a returned text, a raised error, or nothing when the run is stopped during a call.
- **Ritis** (`ritis.dfy`): the completeness gate on the downloaded batch, the upper-case column rename, and the single append to `XD_TRAVEL_TIME`. The class is `TravelTimeTable`.
- **Analytics** (`analytics.dfy`): the flag parsing, the four time windows, the data flow through the opaque statistics, and the transaction.
  - The three result tables are `Table` objects held as constants in `ResultTables`. The transaction changes their rows but never replaces a table, so `FREEFLOW` is emptied and refilled in place.
  - `ApplyResults` is proved equal to the all-or-nothing function `Transaction`.

Two facts about the download procedure's code:

- **Empty batch.** If a downloaded batch has no segments at all, line 80 of ritis_setup.py divides by zero and the procedure raises "division by zero". `Ritis.Gate` returns `DivisionByZero`, and `RitisSproc` returns `Exception("division by zero")` without writing anything.
- **Last-hour filter.** The filter at line 76 of ritis_setup.py has only a lower bound, `measurement_tstamp >= end_date 20:59 - 1 day - 1 hour`. `Ritis.LastHourSegments` uses `AtLeast` for this reason.

A run's stored `ERROR_MSG` is held as the text placed between the quotes of the UPDATE statement, which is the output of the escape helper. `SqlLiteral.Unquote` reads that text back under the quote-doubling rule of ISO/IEC 9075-2 only (see "## Left out" for the warehouse's backslash escapes). When it does not read back, the UPDATE does not parse.

## Model

| member | source | states |
|---|---|---|
| Common.Restrict | analytics_setup.py:80-83 | a timestamp filter keeps every row whose timestamp lies in the range, as often as it occurs, and no other row |
| Common.Upper | ritis_setup.py:84 | `str.upper` on ASCII: the same length, each letter upper-cased, every other character unchanged |
| Common.Lower | analytics_setup.py:65 | `str.lower` on ASCII: the same length, each letter lower-cased, every other character unchanged |
| Common.Capitalize | pipeline.py:93 | `str.capitalize`: the same length, the first letter upper-cased and the rest lower-cased |
| Common.UpperIdempotent | ritis_setup.py:84 | upper-casing twice is the same as upper-casing once, and it leaves no lower-case letter |
| SqlLiteral.DoubleQuotes | pipeline.py:20 | `replace("'", "''")`: the length grows by one per quote, and text without quotes is unchanged |
| SqlLiteral.EscapeSqlLiteral | pipeline.py:18-20 | the result is at most 2000 characters; it is a prefix of the quote-doubled text, with its exact length given; NULL and "" give "" |
| SqlLiteral.Unquote | pipeline.py:88-92 | the value of the literal text placed between the quotes of an UPDATE, under the quote-doubling rule; when it reads back, the value is no longer than the text |
| SqlLiteral.UnquoteDoubleQuotes | pipeline.py:20 | reading back a quote-doubled text as a literal gives the original text |
| SqlLiteral.EscapeRoundTrip | pipeline.py:18-20 | a message whose escaped form fits in 2000 characters reads back, under the quote-doubling rule, as exactly that message |
| SqlLiteral.EscapeUnchanged | pipeline.py:18-20 | a message without quotes and of at most 2000 characters is stored unchanged |
| SqlLiteral.EscapeReadsBackAsPrefix | pipeline.py:18-20 | whenever the cut literal reads back at all, it reads back as a prefix of the message |
| SqlLiteral.EscapeCanSplitQuotePair | pipeline.py:20 | there is a message (1999 letters and a quote) whose cut literal ends in a lone quote and does not read back |
| Ledger.SqlOrderIsDownloadFirst | pipeline.py:49 | `ORDER BY DATE ASC, TYPE DESC`, compared as strings, is the order by date and then download before analytics |
| Ledger.SortedKeys | pipeline.py:46-50 | the ordered listing of a set of keys has exactly its members, each once |
| Ledger.SortedKeysOrdered | pipeline.py:49 | the listing is strictly increasing in (date, download first) |
| Ledger.Queue | pipeline.py:46-50 | the queue holds exactly the records with COMPLETED = FALSE and ATTEMPTS < 3 |
| Ledger.QueueSorted | pipeline.py:49 | the queue is strictly ordered and has no repeats |
| Ledger.QueueInSqlOrder | pipeline.py:46-50 | any two queue positions are in SQL order; the dates do not decrease; on one date, download comes first |
| Ledger.SortedUnique | pipeline.py:46-50 | two strictly ordered listings of the same keys are equal, so the queue is the one ordering the query returns |
| Ledger.MaxOf | pipeline.py:23-27 | `MAX(DATE)` is a member of the dates and is at least every date |
| Ledger.MaxDates | pipeline.py:23-27 | `GROUP BY TYPE`: a type has a maximum exactly when it has a record; that maximum is the date of one of its records and is at least the date of every record of that type |
| Ledger.PlanBackfill | pipeline.py:31-39 | the keys generated are exactly those of each recorded type from its max date + 1 through yesterday, with no repeats |
| Ledger.BackfillKeys | pipeline.py:31-43 | the keys inserted are exactly those dates of recorded types after the type's maximum and up to yesterday, and none of them is already present |
| Ledger.Backfilled | pipeline.py:41-43 | the ledger after the insert has the old keys plus the new ones, and the old records are unchanged |
| Ledger.BackfillPlanIsBackfill | pipeline.py:41-43 | inserting the planned keys as new records gives the backfilled ledger; an empty plan leaves the ledger as it was |
| Ledger.BackfillReachesYesterday | pipeline.py:36-39 | after backfill, each recorded type's maximum date is the larger of its old maximum and yesterday |
| Ledger.BackfillIdempotent | pipeline.py:22-43 | a second backfill on the same day inserts nothing |
| Ledger.CountAnalytics | pipeline.py:53 | `total_analytics_jobs`: at most one per job of the queue |
| Ledger.CountAnalyticsZero | pipeline.py:53 | `total_analytics_jobs` is 0 exactly when the queue has no analytics job |
| Ledger.AnalyticsInSplit | pipeline.py:53 | counts of analytics jobs over adjacent ranges of the queue add up |
| Ledger.AnalyticsInZero | pipeline.py:53 | a range of the queue has zero analytics jobs exactly when none of its positions is an analytics job |
| Ledger.IsLastAnalyticsMeans | pipeline.py:75-76 | a position is the last analytics job exactly when it is an analytics job and no later position is one |
| Ledger.CounterMarksLastAnalytics | pipeline.py:53-76 | at an analytics position, the incremented counter equals the total exactly when the position is the last analytics job |
| Ledger.LastAnalyticsFrom | pipeline.py:75-76 | from any analytics position, a last analytics job exists at or after it |
| Ledger.LastAnalyticsExactlyOne | pipeline.py:53-76 | a queue with an analytics job has exactly one last analytics job |
| Pipeline.FirstFailure | pipeline.py:56-102 | the first queue position whose outcome is not 'success'; every earlier position succeeded; None means every position succeeded |
| Pipeline.CallFor | pipeline.py:72-77 | the call for a queue position: a download covers its date to the next day; an analytics call carries its date and 'true' exactly for the last analytics job of the queue |
| Pipeline.ExceptBranch | pipeline.py:95-102 | the `except` branch returns a value exactly when it stores an ERROR_MSG, and that value is the exception's message |
| Pipeline.ExceptBranchCases | pipeline.py:95-102 | an exception's escaped message is stored and the message returned when that UPDATE parses; otherwise nothing is stored and the procedure raises the UPDATE's SQL error; a stored text reads back as a prefix of the message |
| Pipeline.Handle | pipeline.py:87-102 | the procedure ends without a result exactly when the call was stopped, and then nothing is stored |
| Pipeline.HandleCases | pipeline.py:87-102 | a returned value whose UPDATE parses is stored and reported as "<Type> failed: ..."; one whose UPDATE does not parse is handled as an exception carrying that UPDATE's SQL error; an exception goes to the `except` branch, which stores and returns its message when the UPDATE parses and raises otherwise |
| Pipeline.AfterJob | pipeline.py:62-101 | ATTEMPTS goes up by one and STARTTIME is set on every path, even when the call is stopped; COMPLETED is set only by 'success'; DURATION and ERROR_MSG are written exactly when an error UPDATE goes through |
| Pipeline.RunStatusCases | pipeline.py:87-104 | "success" when no job fails; the run ends without a result exactly when the first failure was a stopped call; it raises exactly when that failure's ERROR_MSG update does not parse and, for a returned value, neither does the update storing the SQL error raised in its place |
| Pipeline.CallsForAt | pipeline.py:72-77 | the n-th call made is the call for queue position n |
| Pipeline.DispatchedAt | pipeline.py:56-102 | after n dispatches, each of the first n records is its job's record after the call, and every other record is unchanged |
| Pipeline.RunEffectRecords | pipeline.py:56-104 | after a run, each record reached is written by its outcome, records not reached or not selected are unchanged, and the keys are the same |
| Pipeline.StoredErrorIsPrefix | pipeline.py:88-101 | whatever a failed job stores as ERROR_MSG reads back as one literal, and as a prefix of the job's error text or of the SQL error raised in its place |
| Pipeline.UnparsableValueIsCaught | pipeline.py:88-102 | a returned value whose ERROR_MSG literal does not parse ends, record and result alike, as if the job had raised that UPDATE's SQL error |
| Pipeline.EligibleAfterJob | pipeline.py:46-86 | the retry cap: after an attempt a record is selected again exactly when it did not succeed and has fewer than three attempts |
| Pipeline.RunTouchesOnlyEligible | pipeline.py:46-86 | a run leaves unselected records alone; ATTEMPTS rises by at most one and never falls; COMPLETED is never reset; the cap of 3 is never passed |
| Pipeline.RunAllSucceed | pipeline.py:56-104 | when every job succeeds, the run returns "success", makes one call per selected record, and completes each of them after one more attempt |
| Pipeline.RunStopsAtFirstFailure | pipeline.py:87-102 | the first failing job is the last one called; it stays incomplete with one more attempt; its escaped error is stored whenever that UPDATE parses; later jobs are untouched; the run ends as the handling of that job gives |
| Pipeline.FailedTextIsNotSuccess | pipeline.py:93 | "<Type> failed: <result>" is never the text "success" |
| Pipeline.RunSuccessStatus | pipeline.py:93-104 | the run returns "success" exactly when every job succeeded, or when the first one that did not raised "success", or returned a value whose unparsable UPDATE raised an SQL error reading "success" |
| Pipeline.IncompleteDataStopsRun | pipeline.py:87-93 | a download returning 'Incomplete Data' stops the run with "Download failed: Incomplete Data", and that text is stored as its error |
| Pipeline.ExceptionStopsRun | pipeline.py:95-102 | a job that raises stops the run; if its escaped message parses, it is stored and the message returned; otherwise nothing more is stored and the procedure raises the UPDATE's SQL error |
| Pipeline.DownloadCapitalized | pipeline.py:93 | the type name `download` capitalized is "Download" |
| Pipeline.IncompleteDataTexts | pipeline.py:90-93 | an 'Incomplete Data' result parses as a literal, is stored unchanged, and is reported as "Download failed: Incomplete Data" |
| Pipeline.FlagTextTrue | pipeline.py:76 | the flag text is 'true' exactly when the flag is set |
| Pipeline.RunFlagsLastAnalytics | pipeline.py:72-77 | download d is called with (d, d + 1) and analytics with (d, flag); the flag is 'true' exactly for the last analytics job of the queue, so at most one call carries it and a run that stops earlier makes no such call |
| Pipeline.Except | pipeline.py:95-102 | the `except` branch computed step by step stores and returns what `ExceptBranch` gives |
| Pipeline.Conclude | pipeline.py:79-102 | the end of one job computed step by step: the record written back is the record after its outcome, and a failure ends the run as `Handle` gives |
| Pipeline.JobLedger.Backfill | pipeline.py:22-43 | the ledger becomes the backfilled ledger; the inserted keys are exactly the missing keys, without repeats |
| Pipeline.JobLedger.RunJob | pipeline.py:57-101 | one job: the call made is the call for its position, the counter advances over analytics jobs, its record becomes the record after its outcome, and for a failure the orchestrator's result is the one `Handle` gives |
| Pipeline.JobLedger.RunQueue | pipeline.py:53-104 | the loop over a queue drawn from the ledger, without repeats, leaves the ledger, the calls made, and the status equal to the specification of a run over that queue |
| Pipeline.JobLedger.RunJobs | pipeline.py:45-104 | selecting the queue and running it gives the specification of a run over the selected queue |
| Pipeline.JobLedger.PipelineRun | pipeline.py:15-104 | a whole invocation: backfill, then the run over the queue of the backfilled ledger |
| Ritis.LastHourStart | ritis_setup.py:48-76 | the filter's lower bound is one hour before 20:59 on the day before end_date, and it falls within that day |
| Ritis.Segments | ritis_setup.py:70 | `COUNT(DISTINCT xd_id)`: the set of segment ids that occur in the batch |
| Ritis.LastHourSegments | ritis_setup.py:73-77 | the ids of the rows at or after the last-hour start, with no upper bound |
| Ritis.LastHourWithinTotal | ritis_setup.py:70-77 | the last-hour segments are among all segments, so their count is never larger |
| Ritis.Gate | ritis_setup.py:80-81 | the gate raises a division error exactly when the batch has no segments |
| Ritis.GateIsRatioTest | ritis_setup.py:79-81 | for a non-empty batch, the integer test rejects exactly when last / total <= 0.7 and accepts exactly when it is above 0.7 |
| Ritis.GateBoundary | ritis_setup.py:79-81 | exactly 70% of segments is rejected, and 71% is accepted |
| Ritis.GateNeedsRows | ritis_setup.py:70-80 | the gate divides by zero exactly when the batch is empty |
| Ritis.UpperColumns | ritis_setup.py:84 | the same number of columns in the same order, each name upper-cased |
| Ritis.UpperColumnsIdempotent | ritis_setup.py:84 | renaming twice changes nothing, and no column name keeps a lower-case letter |
| Ritis.TravelTimeTable.WritePandas | ritis_setup.py:85 | `write_pandas` appends the frame's rows and records its column list |
| Ritis.TravelTimeTable.RitisSproc | ritis_setup.py:66-87 | a downloader exception propagates; an empty batch raises "division by zero"; a batch at or under 70% returns 'Incomplete Data'; in both cases nothing is written; otherwise the whole batch is appended once under upper-cased names and 'success' is returned |
| Analytics.ParseIsLastDateMeans | analytics_setup.py:65 | the flag is set exactly by the four letters t, r, u, e in any mix of case |
| Analytics.ParseIsLastDateExamples | analytics_setup.py:65 | "true", "TRUE" and "True" set the flag; "false", "", "1" and "true " do not |
| Analytics.FlagRoundTrip | analytics_setup.py:65 | the text the orchestrator sends parses back as the flag it meant |
| Analytics.RawWindow | analytics_setup.py:67-83 | the raw window holds exactly the timestamps from day current - 42 through day current |
| Analytics.ChangepointSlice | analytics_setup.py:190-196 | the stored slice holds exactly the timestamps of day current - 8 |
| Analytics.SliceIsMiddleDay | analytics_setup.py:149-196 | the stored slice lies within both the change-point input and the raw window |
| Analytics.AnomaliesOnCurrentDay | analytics_setup.py:81-139 | an anomaly row from the raw window that is kept falls on the current day |
| Analytics.Compute | analytics_setup.py:76-196 | every anomaly row kept has a timestamp on or after the current date; every change point kept lies on day current - 8 |
| Analytics.ChangepointInputSpan | analytics_setup.py:80-155 | when the decomposition keeps its input's timestamps, the statistics see only raw-window rows, and change-point detection sees only the days current - 16 through current |
| Analytics.Steps | analytics_setup.py:200-208 | the transaction's statements run BEGIN first and COMMIT last; they include TRUNCATE and the FREEFLOW insert exactly on the last date |
| Analytics.FirstFault | analytics_setup.py:200-212 | no fault means every statement ran; otherwise the fault found is that of a statement before which every statement ran |
| Analytics.FirstFaultOfSteps | analytics_setup.py:200-208 | the transaction's first fault, taken statement by statement in source order |
| Analytics.Transaction | analytics_setup.py:200-212 | the tables end either as they were or fully committed, and the result is 'success' or starts with the rollback prefix |
| Analytics.RollbackStatus | analytics_setup.py:212 | the result is 'error inserting results; rolled back: ' followed by the message |
| Analytics.RollbackIsNotSuccess | analytics_setup.py:209-212 | a rolled-back result is never 'success' |
| Analytics.Committed | analytics_setup.py:202-207 | after commit, both inserts have been appended to the old rows; FREEFLOW holds exactly the new rows on the last date and is unchanged otherwise |
| Analytics.TransactionAllOrNothing | analytics_setup.py:200-212 | 'success' is returned exactly when no statement raises, and then every write is applied; otherwise all three tables are as they were and the result starts with the rollback prefix; FREEFLOW is untouched on dates that are not the last |
| Analytics.FreeflowFaultsMatterOnlyOnLast | analytics_setup.py:204-207 | on a date that is not the last, a failing FREEFLOW statement cannot roll the transaction back |
| Analytics.Table.Insert | analytics_setup.py:202-207 | `con.insert` appends the rows |
| Analytics.Table.Truncate | analytics_setup.py:206 | TRUNCATE empties the table in place |
| Analytics.ResultTables.ApplyResults | analytics_setup.py:200-212 | the statements run in order and the first fault rolls everything back; the tables and the result equal `Transaction` of the old contents |
| Analytics.ResultTables.AnalyticsSproc | analytics_setup.py:47-212 | the procedure for one date: the parsed flag and the computed rows go through the transaction |

## Left out

- Session and bootstrap code, package bundling, `session.sproc.register` and the scheduled task are not modelled. They are I/O and deployment, not logic.
- The RITIS downloader, its secret lookup and the `DIM_SIGNALS_XD` segment query are not modelled. The batch, or the exception the downloader raised, is an input of `RitisSproc`.
- The statistics (`decompose`, `anomaly`, `changepoint`, the county join, the 5% quantile) are opaque functions in `Statistics`. Their floats are not modelled.
- Also not modelled:
  - ibis, duckdb and Snowpark expression building;
  - the temporary tables `TEMP_DECOMP` and `TEMP_CHANGEPOINTS`;
  - the memtable-name regex rewrite;
  - the column projection and upper-case rename of the result frames;
  - the time-zone `ALTER SESSION`.

  These are plumbing over libraries that cannot be seen.
- Wall-clock readings come in as parameters: "yesterday" is a parameter of `PipelineRun`, and STARTTIME and DURATION come from `Env`.
- Date strings are not modelled. `strptime`, `strftime` and their failures are replaced by integer day numbers.
- Ledger defaults: a new `run_stats` record is assumed to have COMPLETED = false and ATTEMPTS = 0, with no time and no error (`Ledger.NewRecord`). The table definition that sets these defaults is not part of this model.
- A run's ledger statements (the max-date query, the INSERT, the attempt UPDATE and the success UPDATE) are assumed never to fail for reasons of the environment, such as a lost connection. The ERROR_MSG UPDATEs fail whenever their literal does not read back; that failure is modelled (`Pipeline.Handle`), and its message is the opaque `Env.sqlErrorOf`.
- SqlLiteral.Unquote follows only the quote-doubling rule. The warehouse also treats a backslash in a single-quoted literal as an escape character (`\\`, `\n`, `\'`, ...). Such escapes are not modelled. A message with a backslash may therefore be stored as a different value than `Unquote` gives. A message whose escaped text ends in a backslash makes its UPDATE fail to parse, and a backslash before a doubled quote ends the literal early; the model predicts neither.
- Pipeline.AfterJob: when the first ERROR_MSG UPDATE fails, the `except` branch takes a second clock reading for DURATION. The model uses the same reading, `Env.elapsedOf`, for both.
- Ritis.TravelTimeTable.RitisSproc: the two duckdb counts (ritis_setup.py:70-77) and `write_pandas` (line 85) are assumed never to raise. If one did, the exception would leave the procedure and it would not return 'success'; whether `write_pandas` then left part of the batch written is not modelled.
- `Analytics.ResultTables.ApplyResults`: a ROLLBACK that itself fails is not modelled. Nor is an exception raised before the transaction, for example by the statistics; such an exception propagates to the orchestrator, which sees it as a job exception.
- Python's Unicode-aware `upper`, `lower` and `capitalize` are modelled on ASCII letters only.
- Ritis.Gate: the float comparison `last / total <= 0.7` is modelled as the exact test `last * 10 <= total * 7`. The two agree for segment counts of realistic size. Rounding of the binary 0.7 for very large counts is not modelled.
- `COUNT(DISTINCT xd_id)` ignores NULL ids. Segment ids are never NULL in this model.
- TYPE values other than `download` and `analytics` are not modelled. The code sends every other type to the analytics branch.
- The backfill fills dates only after each type's maximum, as the code does. Gaps before the maximum stay unfilled, and a type with no record is never started.
- The UPDATE statements' `WHERE DATE = ... AND TYPE = ...` clauses are modelled as a lookup of the map key (DATE, TYPE).
