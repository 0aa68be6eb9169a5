# BigQuery job cost attribution, modelled in Dafny

This project models the logic core of a BigQuery cost-monitoring helper:
- It reads the project's job history.
- It classifies each job as a load job or a query job.
- It recovers the tables a query job reads, with fallbacks for when the SQL parser fails.
- It turns each job into attribution rows: one zero-cost row per load job, and one row per table reference of a query job, carrying gigabytes and a price in Turkish lira.

It also models the small index arithmetic that splits a data set into insertion batches.

The network, the client, pandas and the Airflow scheduling around the core are not modelled. The SQL parser is a foreign library. Its behaviour on one query text is an input to the model (`QueryParsing.ParserRun`): what the first read of its `tables` property gave, and what the second read gave.

Modules, one per concern:
- `Common`: `Option`, the Python exceptions that steer control flow (`Exc`), and a value-or-exception `Result`. Re-raising as a plain `Exception(e)` is `WrappedException(e)`.
- `StrSearch`: `str.index(sub, start)` and `sub in s`, with a declarative first-occurrence predicate.
- `Utils`: `find_between`.
- `Batching`: `batch_generator`.
- `QueryParsing`: the fallback policy of `parse_query`.
- `Costs`: `round(x, 2)` on exact rationals, `timedelta` normalisation and `.seconds`, and the per-table gigabyte and lira figures.
- `JobDetails`: jobs, rows, per-job processing, the fold over the listing, and the loop as the source writes it.

The model follows the code in these places:
- `find_between` ends at the next occurrence of the closing delimiter after the opening one (`helpers/SqlQueryManager.py:200`), not at the last one. Its docstring (`helpers/SqlQueryManager.py:192`) says "between first and last occurrence". `Utils.FindBetweenStopsAtNextBacktick` shows the difference.
- `try_per_table` is not divided by the number of table references. Every row of a query job carries the job's whole price, so a job's rows add up to N times its price (`JobDetails.QueryJobTrySum`).
- The table list can be empty. Two ways lead there: a parser that returns `[]`, and the project filter after an `AttributeError`. The job then emits no rows and computes no run time. No division by zero happens, because the division sits inside the per-table loop.
- `run_time_seconds` is `timedelta.seconds`. Whole days are dropped and the value always lies in `[0, 86400)`, even for negative durations (`Costs.RunTimeDropsDays`). This is kept as written.
- Jobs that have not started or finished have `started` or `ended` equal to `None`, and the subtraction raises `TypeError`. For a load job this is outside any handler, so the run aborts with `TypeError`. For a query job with at least one table reference, the generic handler re-raises it as `Exception` and the run aborts. A query job with no table references never computes the time, so it emits nothing and does not fail.
- An error from the second read of `tables` in the `AttributeError` handler escapes `parse_query` unchanged. If it is a `ValueError`, the caller's `except ValueError` drops the job.

## Model

| member | source | states |
|---|---|---|
| StrSearch.IndexOf | helpers/SqlQueryManager.py:199-200 | the result is the first occurrence of the substring at or after the start; `None` (Python's `ValueError`) exactly when none exists |
| StrSearch.IndexOfIsFirst | helpers/SqlQueryManager.py:199-200 | the first occurrence at or after a start is unique and equals what the search returns |
| StrSearch.Contains | helpers/SqlQueryManager.py:163 | the empty string is in every string, and nothing longer than `s` is in `s` |
| StrSearch.ContainsSpec | helpers/SqlQueryManager.py:163 | `sub in s` holds exactly when `sub` occurs at some position of `s` |
| Utils.FindBetween | helpers/SqlQueryManager.py:188-203 | the result is never longer than the input, and it is empty whenever the input is too short to hold both delimiters |
| Utils.FindBetweenIsSubstring | helpers/SqlQueryManager.py:188-203 | the result is always a substring of the input |
| Utils.FindBetweenFound | helpers/SqlQueryManager.py:198-201 | when `first` occurs (first at `i`) and `last` occurs at or after `i+len(first)` (first at `j`), the result is `s[i+len(first)..j]` |
| Utils.FindBetweenMissing | helpers/SqlQueryManager.py:198-203 | unless such a pair of occurrences exists, the result is the empty string |
| Utils.FindBetweenExcludesClosing | helpers/SqlQueryManager.py:200 | with a one-character closing delimiter, such as the backtick, the result never contains it |
| Utils.FindBetweenStopsAtNextBacktick | helpers/SqlQueryManager.py:199-201 | on two backtick-quoted names the result is the first name alone, not the text up to the last backtick |
| Batching.CeilDiv | helpers/SqlQueryManager.py:30 | the batch count is the ceiling of the quotient, for either sign of divisor |
| Batching.BatchGenerator | helpers/SqlQueryManager.py:28-39 | zero batch size raises `ZeroDivisionError`; otherwise ceil(size/batch) pairs, pair i starting at i*batch, ending at (i+1)*batch-1 or, for the last, at size-1; for a count of rows and a positive batch size the result is the `Batches` list, so `BatchesTile` and `BatchesCover` hold of it, and the pairs tile the indices |
| Batching.BatchesTile | helpers/SqlQueryManager.py:29-39 | the pairs start at 0, end at size-1, are contiguous and non-empty, empty input gives no pairs; every batch but the last has exactly batch-size rows, the last at most that many |
| Batching.DefaultBatchSizeExample | helpers/SqlQueryManager.py:29-39 | with the default batch of 50000, 120000 rows split into two full batches and a last one of 20000 |
| Batching.BatchesCover | helpers/SqlQueryManager.py:33-38 | every index lies in exactly one pair, the one numbered index / batch-size |
| QueryParsing.FilterByProject | helpers/SqlQueryManager.py:163 | the result keeps exactly the names containing the project name, and nothing else |
| QueryParsing.FilterByProjectAppend | helpers/SqlQueryManager.py:163 | the filter preserves order: filtering a concatenation is the concatenation of the filtered parts |
| QueryParsing.FilterByProjectKeepsPassing | helpers/SqlQueryManager.py:163 | a list whose names all pass comes back unchanged, duplicates included |
| QueryParsing.ParseQuery | helpers/SqlQueryManager.py:146-172 | it raises exactly for an unknown failure of the first read or a failing second read after `AttributeError`; every name it returns came from the parser or is a substring of the query |
| QueryParsing.ParseQueryParsed | helpers/SqlQueryManager.py:155-156 | a successful parse is returned unchanged |
| QueryParsing.ParseQueryIndexError | helpers/SqlQueryManager.py:157-159 | `IndexError` gives exactly `['']` |
| QueryParsing.ParseQueryAttributeError | helpers/SqlQueryManager.py:160-164 | `AttributeError` gives the second read's names filtered to those containing the project name, or that read's own error |
| QueryParsing.ParseQueryValueError | helpers/SqlQueryManager.py:165-169 | `ValueError` gives one name, the text between the first backtick and the next, which holds no backtick and is part of the query |
| QueryParsing.ParseQueryUnmatchedBacktick | helpers/SqlQueryManager.py:165-169 | with `ValueError` and fewer than two backticks in the query the result is `['']` |
| QueryParsing.ParseQueryOtherError | helpers/SqlQueryManager.py:171-172 | any other failure propagates as a plain `Exception` keeping the original error |
| Costs.Round2 | helpers/SqlQueryManager.py:132-135 | the rounded value lies within 0.005 of the input and is not negative for a non-negative input |
| Costs.Round2OnGridResult | helpers/SqlQueryManager.py:132-135 | the rounded value is a whole number of hundredths |
| Costs.Round2Nearest | helpers/SqlQueryManager.py:132-135 | no multiple of 0.01 is closer to the input than the rounded value |
| Costs.Round2Tie | helpers/SqlQueryManager.py:132-135 | a value exactly halfway between two hundredths rounds to the even one, for either sign |
| Costs.Round2OnGrid | helpers/SqlQueryManager.py:132-135 | a value already on the 0.01 grid is unchanged |
| Costs.TimedeltaOf | helpers/SqlQueryManager.py:115 | a time difference normalises to days, seconds in [0, 86400) and microseconds in [0, 10^6) with the same total |
| Costs.TimedeltaUnique | helpers/SqlQueryManager.py:115 | that normal form is unique |
| Costs.RunTimeSeconds | helpers/SqlQueryManager.py:131 | `run_time_seconds` lies in [0, 86400) and differs from the whole elapsed seconds by a multiple of one day |
| Costs.RunTimeWithinDay | helpers/SqlQueryManager.py:131 | for a duration under one day it is the elapsed time in whole seconds |
| Costs.RunTimeDropsDays | helpers/SqlQueryManager.py:115 | one day and five seconds is reported as 5; ending one second before the start is reported as 86399 |
| Costs.RunTime | helpers/SqlQueryManager.py:115 | a missing start or end raises `TypeError`; otherwise the figure lies in [0, 86400) |
| Costs.GbPerTable | helpers/SqlQueryManager.py:132-133 | zero without a byte count; never negative |
| Costs.GbPerTableSplit | helpers/SqlQueryManager.py:132-133 | N times the per-table figure is within 0.005*N of the billed gigabytes |
| Costs.TryPerTable | helpers/SqlQueryManager.py:134-135 | zero without a byte count |
| Costs.TryPerTableWholePrice | helpers/SqlQueryManager.py:134-135 | with a byte count the figure is within 0.005 of the whole job's price, whatever the table count |
| JobDetails.QueryRows | helpers/SqlQueryManager.py:123-136 | one row per extracted name in order, all well formed; the job aborts exactly when there is a name and a missing start or end |
| JobDetails.ProcessJob | helpers/SqlQueryManager.py:109-142 | only a query job is dropped and only for `ValueError`; other jobs add nothing; every emitted row is well formed (a load row has no query and zero cost) |
| JobDetails.AllJobDetails | helpers/SqlQueryManager.py:105-144 | the run raises exactly when some job aborts; every returned row is well formed, so load rows carry zero cost |
| JobDetails.AllJobDetailsFirstAbort | helpers/SqlQueryManager.py:140-142 | an aborted run reports the error of the first job in listing order that aborts |
| JobDetails.AllJobDetailsAppend | helpers/SqlQueryManager.py:105-136 | processing a listing in two parts equals processing it whole: listing order is kept and the earlier abort wins |
| JobDetails.SilentJobInvisible | helpers/SqlQueryManager.py:109-138 | a job of another kind, or one dropped for `ValueError`, can be removed from the listing without changing the result |
| JobDetails.AllJobDetailsRowCount | helpers/SqlQueryManager.py:105-144 | a completed run returns exactly as many rows as its jobs emit |
| JobDetails.CollectJobDetails | helpers/SqlQueryManager.py:105-144 | the loop that appends rows job by job returns the same result as the fold |
| JobDetails.LoadJobRow | helpers/SqlQueryManager.py:109-118 | a load job yields one row: type `load`, empty query, destination as table, zero gigabytes and zero price |
| JobDetails.LoadJobWithoutTimes | helpers/SqlQueryManager.py:115 | a load job without start or end aborts the run with `TypeError` |
| JobDetails.QueryJobFanOut | helpers/SqlQueryManager.py:123-136 | N extracted names give N rows in order (none for N = 0, duplicates each their own row), sharing every field but the table name |
| JobDetails.QueryJobParseFailure | helpers/SqlQueryManager.py:137-142 | a parse `ValueError` drops the job; any other parse error aborts the run wrapped in `Exception` |
| JobDetails.QueryJobParsed | helpers/SqlQueryManager.py:121-136 | a query job whose parse succeeds is handled by the per-name loop |
| JobDetails.QueryRowsShape | helpers/SqlQueryManager.py:125-136 | the loop yields one row per name, carrying that name and the job's gigabyte share and whole price |
| JobDetails.QueryJobGbSum | helpers/SqlQueryManager.py:125-136 | the gigabytes of a job's rows add up to its billed gigabytes within 0.005 per row |
| JobDetails.QueryJobTrySum | helpers/SqlQueryManager.py:125-136 | the prices of a job's rows add up to N times the job's rounded price |
| JobDetails.QueryJobUnbilled | helpers/SqlQueryManager.py:132-135 | without a billed byte count every row has zero gigabytes and zero price |
| JobDetails.EvenSplitExamples | helpers/SqlQueryManager.py:132-133 | 3 GB on one table gives 3.0 per row; 2 GB on two tables gives 1.0 per row |
| JobDetails.DefaultPricePerTerabyte | helpers/SqlQueryManager.py:85 | at the configured 98.43 lira per terabyte, one billed terabyte costs exactly 98.43 on a row |

## Left out

- Client creation, credentials and environment variables (`helpers/SqlQueryManager.py:13-26`): configuration and I/O. The project name and price are fields of `JobDetails.Config`. `JobDetails.DefaultConfig` holds the source's values.
- `list_jobs`, its pagination, the 30-second retry deadline and the result cap (`helpers/SqlQueryManager.py:98-104`): network I/O. The listing is a given `seq<Job>` in listing order.
- `get_data_w_query`, `reformat_datetime_columns` and `insert_to_bq` (`helpers/SqlQueryManager.py:41-74`): remote queries, schema introspection and pandas.
- `dict_to_tabular_format` (`helpers/SqlQueryManager.py:174-185`): a pandas wrapper. It fails on an empty row list at `job_details[0]`.
- The SQL parser's internals: a foreign library. Exceptions from its constructor (line 153, outside the `try`) are not modelled.
- `strftime` of the creation time and `str()` of the destination: these are opaque strings in `JobDetails.Job`.
- The `print` calls and the module-level `job_details` global.
- The Airflow DAG file `airflow-bq_cost_monitoring.py`: date-window resolution, the CSV write and the e-mail operator are scheduler glue.
- Costs.Round2: rounds exact rationals half-to-even (`Costs.Round2Tie`). It does not model binary floating point, so a value that is not exactly representable can round differently in Python.
- Batching.CeilDiv: computes the exact ceiling. The source divides in floating point, which differs only for sizes beyond 2^53.
- Costs.GbPerTable: the source's zero is the integer `0`, not `0.0`; the model does not tell the two apart.
