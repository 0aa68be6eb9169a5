/** `BigQueryJobs.get_all_job_details`: turning the listed jobs into
    attribution rows. The listing itself (pagination, retry deadline) is not
    modelled; the jobs arrive as a sequence in listing order. */
module JobDetails {
  import opened Common
  import opened QueryParsing
  import opened Costs

  /** The per-run settings: the project whose name filters table names after
      an `AttributeError`, and the price of one terabyte. */
  datatype Config = Config(projectName: string, tryPerTerabyte: real)

  const DefaultConfig: Config := Config("XXXXXX", DefaultTryPerTerabyte)

  /** A listed job. `created` is the already formatted creation time and
      `destination` the already rendered destination table; `started` and
      `ended` are microsecond timestamps, `None` while the job has not
      started or finished. Copy, extract and unknown jobs are `OtherJob`. */
  datatype Job =
    | LoadJob(created: string, userEmail: string, destination: string,
              started: Option<int>, ended: Option<int>)
    | QueryJob(created: string, userEmail: string, query: string,
               started: Option<int>, ended: Option<int>, totalBytesBilled: Option<nat>)
    | OtherJob(kind: string)

  /** One attribution row, the dictionary of the source with its eight keys. */
  datatype Row = Row(jobType: string, createdAt: string, userEmail: string, query: string,
                     tableInQuery: string, runTimeSeconds: int, gbPerTable: real, tryPerTable: real)

  /** What processing one job does to the run: append rows, lose the job to a
      swallowed `ValueError`, or abort the whole call. */
  datatype JobOutcome = Emitted(rows: seq<Row>) | Dropped(error: Exc) | Aborted(error: Exc)

  /** The invariants every emitted row keeps: a known job type, a run time
      below one day, no negative gigabytes, and a load row carries no query
      and no cost. */
  ghost predicate WellFormedRow(row: Row)
  {
    && (row.jobType == "load" || row.jobType == "query")
    && 0 <= row.runTimeSeconds < SecondsPerDay
    && row.gbPerTable >= 0.0
    && (row.jobType == "load" ==> row.query == "" && row.gbPerTable == 0.0 && row.tryPerTable == 0.0)
  }

  /** The row for table reference `table` of a query job with `n` references. */
  function QueryRow(job: Job, table: string, n: nat, secs: int, cfg: Config): Row
    requires job.QueryJob? && n >= 1
  {
    Row("query", job.created, job.userEmail, job.query, table, secs,
        GbPerTable(job.totalBytesBilled, n), TryPerTable(job.totalBytesBilled, cfg.tryPerTerabyte))
  }

  /** The loop over the extracted names: no names, no rows and no run time
      computed; otherwise one row per name, unless the run time raises. */
  function QueryRows(job: Job, tables: seq<string>, cfg: Config): (r: JobOutcome)
    requires job.QueryJob?
    ensures r.Emitted? ==> |r.rows| == |tables|
    ensures r.Emitted? ==> forall i :: 0 <= i < |r.rows| ==> r.rows[i].tableInQuery == tables[i]
    ensures r.Emitted? ==> forall row :: row in r.rows ==> WellFormedRow(row)
    ensures r.Aborted? <==> |tables| > 0 && (job.started.None? || job.ended.None?)
    ensures r.Aborted? ==> r.error == WrappedException(TypeError)
  {
    if |tables| == 0 then Emitted([])
    else
      match RunTime(job.started, job.ended)
      case Raise(e) => Aborted(WrappedException(e))
      case Ok(secs) =>
        Emitted(seq(|tables|, i requires 0 <= i < |tables| => QueryRow(job, tables[i], |tables|, secs, cfg)))
  }

  /** Processing one job of the listing, with `parser` standing for what the
      SQL parser does on a query text. Only a query job is ever dropped, and
      only for a `ValueError`; every row it emits is well formed. */
  function ProcessJob(job: Job, parser: string -> ParserRun, cfg: Config): (r: JobOutcome)
    ensures r.Dropped? ==> job.QueryJob? && r.error == ValueError
    ensures r.Emitted? ==> forall row :: row in r.rows ==> WellFormedRow(row)
    ensures job.OtherJob? ==> r == Emitted([])
  {
    match job
    case LoadJob(created, email, destination, started, ended) =>
      (match RunTime(started, ended)
       case Raise(e) => Aborted(e)
       case Ok(secs) => Emitted([Row("load", created, email, "", destination, secs, 0.0, 0.0)]))
    case QueryJob(_, _, query, _, _, _) =>
      (match ParseQuery(query, parser(query), cfg.projectName)
       case Raise(ValueError) => Dropped(ValueError)
       case Raise(e) => Aborted(WrappedException(e))
       case Ok(tables) => QueryRows(job, tables, cfg))
    case OtherJob(_) => Emitted([])
  }

  /** The rows a job contributes when the run goes on. */
  function RowsOf(o: JobOutcome): seq<Row>
  {
    if o.Emitted? then o.rows else []
  }

  /** `get_all_job_details` over a listing: rows in listing order, then in
      table order within a job; the call raises exactly when some job aborts,
      and every row it returns is well formed. */
  function AllJobDetails(jobs: seq<Job>, parser: string -> ParserRun, cfg: Config): (r: Result<seq<Row>>)
    ensures r.Raise? <==> exists i :: 0 <= i < |jobs| && ProcessJob(jobs[i], parser, cfg).Aborted?
    ensures r.Ok? ==> forall row :: row in r.value ==> WellFormedRow(row)
    decreases |jobs|
  {
    if |jobs| == 0 then Ok([])
    else
      var o := ProcessJob(jobs[0], parser, cfg);
      if o.Aborted? then Raise(o.error)
      else
        var rest := AllJobDetails(jobs[1..], parser, cfg);
        assert forall i :: 1 <= i < |jobs| ==> jobs[i] == jobs[1..][i - 1];
        if rest.Raise? then Raise(rest.error)
        else Ok(RowsOf(o) + rest.value)
  }

  /** An aborted run reports the error of the first job that aborts. */
  lemma {:induction false} AllJobDetailsFirstAbort(jobs: seq<Job>, parser: string -> ParserRun, cfg: Config)
    requires AllJobDetails(jobs, parser, cfg).Raise?
    ensures exists i :: (0 <= i < |jobs| && ProcessJob(jobs[i], parser, cfg) == Aborted(AllJobDetails(jobs, parser, cfg).error)
              && forall k :: 0 <= k < i ==> !ProcessJob(jobs[k], parser, cfg).Aborted?)
    decreases |jobs|
  {
    var e := AllJobDetails(jobs, parser, cfg).error;
    if ProcessJob(jobs[0], parser, cfg).Aborted? {
      assert ProcessJob(jobs[0], parser, cfg) == Aborted(e);
    } else {
      var tail := jobs[1..];
      AllJobDetailsFirstAbort(tail, parser, cfg);
      var j :| 0 <= j < |tail| && ProcessJob(tail[j], parser, cfg) == Aborted(e)
               && forall k :: 0 <= k < j ==> !ProcessJob(tail[k], parser, cfg).Aborted?;
      assert ProcessJob(jobs[j + 1], parser, cfg) == Aborted(e);
      forall k | 0 <= k < j + 1
        ensures !ProcessJob(jobs[k], parser, cfg).Aborted?
      {
        if k > 0 {
          assert jobs[k] == tail[k - 1];
        }
      }
    }
  }

  /** Sequencing two stretches of the listing: the first abort wins. */
  function Then(a: Result<seq<Row>>, b: Result<seq<Row>>): Result<seq<Row>>
  {
    match a
    case Raise(e) => Raise(e)
    case Ok(x) => (match b case Raise(e) => Raise(e) case Ok(y) => Ok(x + y))
  }

  /** What one job contributes to the sequenced result. */
  function AsResult(o: JobOutcome): Result<seq<Row>>
  {
    if o.Aborted? then Raise(o.error) else Ok(RowsOf(o))
  }

  lemma AllJobDetailsUnfold(jobs: seq<Job>, parser: string -> ParserRun, cfg: Config)
    requires |jobs| > 0
    ensures AllJobDetails(jobs, parser, cfg)
      == Then(AsResult(ProcessJob(jobs[0], parser, cfg)), AllJobDetails(jobs[1..], parser, cfg))
  {
  }

  lemma ThenAssoc(a: Result<seq<Row>>, b: Result<seq<Row>>, c: Result<seq<Row>>)
    ensures Then(Then(a, b), c) == Then(a, Then(b, c))
  {
    if a.Ok? && b.Ok? && c.Ok? {
      assert (a.value + b.value) + c.value == a.value + (b.value + c.value);
    }
  }

  lemma ThenUnit(a: Result<seq<Row>>)
    ensures Then(Ok([]), a) == a
    ensures Then(a, Ok([])) == a
  {
    if a.Ok? {
      assert [] + a.value == a.value;
      assert a.value + [] == a.value;
    }
  }

  /** Processing a listing in two parts gives the same result as processing it
      whole: rows keep listing order and the earlier abort is the one seen. */
  lemma {:induction false} AllJobDetailsAppend(a: seq<Job>, b: seq<Job>, parser: string -> ParserRun, cfg: Config)
    ensures AllJobDetails(a + b, parser, cfg) == Then(AllJobDetails(a, parser, cfg), AllJobDetails(b, parser, cfg))
    decreases |a|
  {
    if |a| == 0 {
      assert a + b == b;
      ThenUnit(AllJobDetails(b, parser, cfg));
    } else {
      assert (a + b)[0] == a[0];
      assert (a + b)[1..] == a[1..] + b;
      AllJobDetailsAppend(a[1..], b, parser, cfg);
      AllJobDetailsUnfold(a + b, parser, cfg);
      AllJobDetailsUnfold(a, parser, cfg);
      ThenAssoc(AsResult(ProcessJob(a[0], parser, cfg)), AllJobDetails(a[1..], parser, cfg), AllJobDetails(b, parser, cfg));
    }
  }

  /** A job that emits nothing, or is dropped for a `ValueError`, can be
      taken out of the listing without changing the result. */
  lemma SilentJobInvisible(a: seq<Job>, job: Job, b: seq<Job>, parser: string -> ParserRun, cfg: Config)
    requires ProcessJob(job, parser, cfg) == Emitted([]) || ProcessJob(job, parser, cfg).Dropped?
    ensures AllJobDetails(a + [job] + b, parser, cfg) == AllJobDetails(a + b, parser, cfg)
  {
    var ra := AllJobDetails(a, parser, cfg);
    var rb := AllJobDetails(b, parser, cfg);
    AllJobDetailsAppend(a + [job], b, parser, cfg);
    AllJobDetailsAppend(a, [job], parser, cfg);
    AllJobDetailsAppend(a, b, parser, cfg);
    assert [job][0] == job && [job][1..] == [];
    AllJobDetailsUnfold([job], parser, cfg);
    ThenUnit(AllJobDetails([], parser, cfg));
    assert AllJobDetails([job], parser, cfg) == Ok([]);
    ThenUnit(ra);
  }

  /** Total number of rows the jobs would contribute. */
  function RowCount(jobs: seq<Job>, parser: string -> ParserRun, cfg: Config): nat
  {
    if |jobs| == 0 then 0 else |RowsOf(ProcessJob(jobs[0], parser, cfg))| + RowCount(jobs[1..], parser, cfg)
  }

  /** A completed run returns exactly as many rows as the jobs emit. */
  lemma {:induction false} AllJobDetailsRowCount(jobs: seq<Job>, parser: string -> ParserRun, cfg: Config)
    requires AllJobDetails(jobs, parser, cfg).Ok?
    ensures |AllJobDetails(jobs, parser, cfg).value| == RowCount(jobs, parser, cfg)
    decreases |jobs|
  {
    if |jobs| > 0 {
      var o := ProcessJob(jobs[0], parser, cfg);
      var rest := AllJobDetails(jobs[1..], parser, cfg);
      assert AllJobDetails(jobs, parser, cfg) == Ok(RowsOf(o) + rest.value);
      AllJobDetailsRowCount(jobs[1..], parser, cfg);
    }
  }

  /** The source's loop: jobs in listing order, rows appended as they are
      built, the first aborting job ending the call with no rows returned. */
  method CollectJobDetails(jobs: seq<Job>, parser: string -> ParserRun, cfg: Config)
    returns (r: Result<seq<Row>>)
    ensures r == AllJobDetails(jobs, parser, cfg)
  {
    var collected: seq<Row> := [];
    var idx := 0;
    assert jobs[idx..] == jobs;
    ThenUnit(AllJobDetails(jobs, parser, cfg));
    while idx < |jobs|
      invariant 0 <= idx <= |jobs|
      invariant Then(Ok(collected), AllJobDetails(jobs[idx..], parser, cfg)) == AllJobDetails(jobs, parser, cfg)
    {
      var o := ProcessJob(jobs[idx], parser, cfg);
      CollectStep(jobs, idx, collected, parser, cfg);
      if o.Aborted? {
        return Raise(o.error);
      }
      collected := collected + RowsOf(o);
      idx := idx + 1;
    }
    assert jobs[idx..] == [];
    ThenUnit(Ok(collected));
    return Ok(collected);
  }

  /** One iteration of the loop: the job either ends the call or hands its
      rows to the accumulated list. */
  lemma CollectStep(jobs: seq<Job>, idx: nat, collected: seq<Row>, parser: string -> ParserRun, cfg: Config)
    requires idx < |jobs|
    ensures var o := ProcessJob(jobs[idx], parser, cfg);
      Then(Ok(collected), AllJobDetails(jobs[idx..], parser, cfg))
      == if o.Aborted? then Raise(o.error)
         else Then(Ok(collected + RowsOf(o)), AllJobDetails(jobs[idx + 1..], parser, cfg))
  {
    var o := ProcessJob(jobs[idx], parser, cfg);
    assert jobs[idx..][0] == jobs[idx];
    assert jobs[idx..][1..] == jobs[idx + 1..];
    AllJobDetailsUnfold(jobs[idx..], parser, cfg);
    ThenAssoc(Ok(collected), AsResult(o), AllJobDetails(jobs[idx + 1..], parser, cfg));
  }

  /** A load job whose times are known yields exactly one row: type `load`,
      no query text, the destination as its table, and zero cost. */
  lemma LoadJobRow(job: Job, parser: string -> ParserRun, cfg: Config)
    requires job.LoadJob? && job.started.Some? && job.ended.Some?
    ensures var r := ProcessJob(job, parser, cfg);
      && r.Emitted? && |r.rows| == 1
      && r.rows[0].jobType == "load" && r.rows[0].query == ""
      && r.rows[0].createdAt == job.created && r.rows[0].userEmail == job.userEmail
      && r.rows[0].tableInQuery == job.destination
      && r.rows[0].runTimeSeconds == RunTimeSeconds(job.started.value, job.ended.value)
      && r.rows[0].gbPerTable == 0.0 && r.rows[0].tryPerTable == 0.0
  {
  }

  /** A load job that has not started or finished makes the subtraction raise
      `TypeError`, outside any handler: the run aborts. */
  lemma LoadJobWithoutTimes(job: Job, parser: string -> ParserRun, cfg: Config)
    requires job.LoadJob? && (job.started.None? || job.ended.None?)
    ensures ProcessJob(job, parser, cfg) == Aborted(TypeError)
  {
  }

  /** A query job whose names are `tables` (the empty list included) yields
      one row per name, in order, duplicates each counted; all its rows agree
      on everything but the table name. */
  lemma QueryJobFanOut(job: Job, parser: string -> ParserRun, cfg: Config, tables: seq<string>)
    requires job.QueryJob?
    requires ParseQuery(job.query, parser(job.query), cfg.projectName) == Ok(tables)
    requires |tables| == 0 || (job.started.Some? && job.ended.Some?)
    ensures var r := ProcessJob(job, parser, cfg);
      && r.Emitted? && |r.rows| == |tables|
      && (forall i :: 0 <= i < |tables| ==> r.rows[i].tableInQuery == tables[i])
      && (forall i :: 0 <= i < |tables| ==>
            && r.rows[i].jobType == "query"
            && r.rows[i].createdAt == job.created
            && r.rows[i].userEmail == job.userEmail
            && r.rows[i].query == job.query
            && r.rows[i].runTimeSeconds == RunTimeSeconds(job.started.value, job.ended.value)
            && r.rows[i].gbPerTable == GbPerTable(job.totalBytesBilled, |tables|)
            && r.rows[i].tryPerTable == TryPerTable(job.totalBytesBilled, cfg.tryPerTerabyte))
  {
  }

  /** How a failed parse decides a query job's fate: a `ValueError` drops the
      job, any other error aborts the run wrapped in `Exception`. */
  lemma QueryJobParseFailure(job: Job, parser: string -> ParserRun, cfg: Config)
    requires job.QueryJob?
    requires ParseQuery(job.query, parser(job.query), cfg.projectName).Raise?
    ensures var e := ParseQuery(job.query, parser(job.query), cfg.projectName).error;
      ProcessJob(job, parser, cfg) == if e == ValueError then Dropped(ValueError) else Aborted(WrappedException(e))
  {
  }

  /** Sum of the `gb_per_table` fields. */
  function SumGb(rows: seq<Row>): real
  {
    if |rows| == 0 then 0.0 else rows[0].gbPerTable + SumGb(rows[1..])
  }

  /** Sum of the `try_per_table` fields. */
  function SumTry(rows: seq<Row>): real
  {
    if |rows| == 0 then 0.0 else rows[0].tryPerTable + SumTry(rows[1..])
  }

  lemma {:induction false} SumGbOfEqualRows(rows: seq<Row>, g: real)
    requires forall i :: 0 <= i < |rows| ==> rows[i].gbPerTable == g
    ensures SumGb(rows) == g * |rows| as real
  {
    if |rows| > 0 {
      SumGbOfEqualRows(rows[1..], g);
    }
  }

  lemma {:induction false} SumTryOfEqualRows(rows: seq<Row>, c: real)
    requires forall i :: 0 <= i < |rows| ==> rows[i].tryPerTable == c
    ensures SumTry(rows) == c * |rows| as real
  {
    if |rows| > 0 {
      SumTryOfEqualRows(rows[1..], c);
    }
  }

  /** The rows of the per-name loop, field by field. */
  lemma QueryRowsShape(job: Job, tables: seq<string>, cfg: Config)
    requires job.QueryJob?
    requires |tables| == 0 || (job.started.Some? && job.ended.Some?)
    ensures var r := QueryRows(job, tables, cfg);
      && r.Emitted? && |r.rows| == |tables|
      && forall i :: 0 <= i < |tables| ==>
           && r.rows[i].tableInQuery == tables[i]
           && r.rows[i].gbPerTable == GbPerTable(job.totalBytesBilled, |tables|)
           && r.rows[i].tryPerTable == TryPerTable(job.totalBytesBilled, cfg.tryPerTerabyte)
  {
    if |tables| > 0 {
      var secs := RunTimeSeconds(job.started.value, job.ended.value);
      var rows := QueryRows(job, tables, cfg).rows;
      assert forall i :: 0 <= i < |rows| ==> rows[i] == QueryRow(job, tables[i], |tables|, secs, cfg);
    }
  }

  /** A query job whose parse succeeds is processed by the per-name loop. */
  lemma QueryJobParsed(job: Job, parser: string -> ParserRun, cfg: Config, tables: seq<string>)
    requires job.QueryJob?
    requires ParseQuery(job.query, parser(job.query), cfg.projectName) == Ok(tables)
    ensures ProcessJob(job, parser, cfg) == QueryRows(job, tables, cfg)
  {
  }

  /** The gigabytes of a job's rows add up to its billed gigabytes, within
      half a hundredth per row. */
  lemma QueryJobGbSum(job: Job, tables: seq<string>, cfg: Config)
    requires job.QueryJob? && job.totalBytesBilled.Some?
    requires |tables| >= 1 && job.started.Some? && job.ended.Some?
    ensures var r := QueryRows(job, tables, cfg);
      && r.Emitted?
      && Abs(SumGb(r.rows) - job.totalBytesBilled.value as real / 1_000_000_000.0) <= 0.005 * |tables| as real
  {
    var rows := QueryRows(job, tables, cfg).rows;
    var g := GbPerTable(job.totalBytesBilled, |tables|);
    QueryRowsShape(job, tables, cfg);
    GbPerTableSplit(job.totalBytesBilled.value, |tables|);
    SumOfSharesBound(rows, g, |tables|, job.totalBytesBilled.value as real / 1_000_000_000.0);
  }

  /** Rows that all carry the same share `g`, where `n` such shares come within
      half a hundredth each of `total`, add up to within the same bound. */
  lemma SumOfSharesBound(rows: seq<Row>, g: real, n: nat, total: real)
    requires |rows| == n
    requires forall i :: 0 <= i < |rows| ==> rows[i].gbPerTable == g
    requires Abs(g * n as real - total) <= 0.005 * n as real
    ensures Abs(SumGb(rows) - total) <= 0.005 * n as real
  {
    SumGbOfEqualRows(rows, g);
  }

  /** The lira figures of a job's rows add up to the job's rounded price
      times the number of rows: each row carries the whole price. */
  lemma QueryJobTrySum(job: Job, tables: seq<string>, cfg: Config)
    requires job.QueryJob?
    requires |tables| == 0 || (job.started.Some? && job.ended.Some?)
    ensures var r := QueryRows(job, tables, cfg);
      && r.Emitted?
      && SumTry(r.rows) == TryPerTable(job.totalBytesBilled, cfg.tryPerTerabyte) * |tables| as real
  {
    var rows := QueryRows(job, tables, cfg).rows;
    QueryRowsShape(job, tables, cfg);
    SumTryOfEqualRows(rows, TryPerTable(job.totalBytesBilled, cfg.tryPerTerabyte));
  }

  /** A query job without a billed byte count yields rows with zero cost. */
  lemma QueryJobUnbilled(job: Job, parser: string -> ParserRun, cfg: Config)
    requires job.QueryJob? && job.totalBytesBilled.None?
    ensures var r := ProcessJob(job, parser, cfg);
      r.Emitted? ==> forall row :: row in r.rows ==> row.gbPerTable == 0.0 && row.tryPerTable == 0.0
  {
  }

  /** Three gigabytes billed to one table give one row of 3.0 GB; two
      gigabytes billed over two tables give two rows of 1.0 GB each. */
  lemma EvenSplitExamples()
    ensures GbPerTable(Some(3_000_000_000), 1) == 3.0
    ensures GbPerTable(Some(2_000_000_000), 2) == 1.0
  {
    Round2OnGrid(300);
    assert 3_000_000_000 as real / (1_000_000_000.0 * 1 as real) == 300 as real / 100.0;
    Round2OnGrid(100);
    assert 2_000_000_000 as real / (1_000_000_000.0 * 2 as real) == 100 as real / 100.0;
  }

  /** With the default price, one billed terabyte costs 98.43 lira on every
      row, whatever the project name. */
  lemma DefaultPricePerTerabyte()
    ensures TryPerTable(Some(1_000_000_000_000), DefaultConfig.tryPerTerabyte) == 98.43
  {
    assert 1_000_000_000_000 as real / 1_000_000_000_000.0 * 98.43 == 9843 as real / 100.0;
    Round2OnGrid(9843);
  }
}
