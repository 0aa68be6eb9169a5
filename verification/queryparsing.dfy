/** `BigQueryJobs.parse_query`: the fallback policy wrapped around the
    foreign SQL parser. The parser itself is not modelled; what it does with
    one query text is an input, a `ParserRun`. */
module QueryParsing {
  import opened Common
  import opened StrSearch
  import opened Utils

  /** One read of the parser's `tables` property: a list, or an exception. */
  datatype TablesAccess = Listed(tables: seq<string>) | Raised(error: Exc)

  /** How the parser behaves on one query text: the read inside the `try`,
      and the second read that the `AttributeError` handler makes. */
  datatype ParserRun = ParserRun(first: TablesAccess, retry: TablesAccess)

  const Backtick: string := "`"

  /** A failure of the first read that the handlers recover from. */
  predicate IsKnownFailure(e: Exc)
  {
    e == IndexError || e == AttributeError || e == ValueError
  }

  /** `parse_query` raises exactly when the first read fails in an unknown way,
      or when it fails with `AttributeError` and the second read fails too. */
  predicate Propagates(run: ParserRun)
  {
    || (run.first.Raised? && !IsKnownFailure(run.first.error))
    || (run.first == Raised(AttributeError) && run.retry.Raised?)
  }

  /** A name the parser produced on either read. */
  ghost predicate FromParser(run: ParserRun, t: string)
  {
    (run.first.Listed? && t in run.first.tables) || (run.retry.Listed? && t in run.retry.tables)
  }

  /** The names that contain the project name, in their original order;
      `filter(lambda k: project_name in k, tables)`. */
  function FilterByProject(tables: seq<string>, projectName: string): (r: seq<string>)
    ensures |r| <= |tables|
    ensures forall t :: t in r ==> t in tables && Contains(t, projectName)
    ensures forall t :: t in tables && Contains(t, projectName) ==> t in r
  {
    if |tables| == 0 then []
    else if Contains(tables[0], projectName) then [tables[0]] + FilterByProject(tables[1..], projectName)
    else FilterByProject(tables[1..], projectName)
  }

  /** The filter keeps order: filtering a concatenation filters each part. */
  lemma {:induction false} FilterByProjectAppend(a: seq<string>, b: seq<string>, projectName: string)
    ensures FilterByProject(a + b, projectName) == FilterByProject(a, projectName) + FilterByProject(b, projectName)
  {
    if |a| == 0 {
      assert a + b == b;
    } else {
      assert (a + b)[1..] == a[1..] + b;
      FilterByProjectAppend(a[1..], b, projectName);
    }
  }

  /** The filter keeps every element that passes, duplicates included. */
  lemma {:induction false} FilterByProjectKeepsPassing(tables: seq<string>, projectName: string)
    requires forall i :: 0 <= i < |tables| ==> Contains(tables[i], projectName)
    ensures FilterByProject(tables, projectName) == tables
  {
    if |tables| > 0 {
      FilterByProjectKeepsPassing(tables[1..], projectName);
    }
  }

  /** `parse_query(query)` given the parser's behaviour on `query`. Every
      returned name was produced by the parser or is a piece of the query
      text, and it raises exactly when `Propagates` says. */
  function ParseQuery(query: string, run: ParserRun, projectName: string): (r: Result<seq<string>>)
    ensures r.Raise? <==> Propagates(run)
    ensures r.Ok? ==> forall t :: t in r.value ==> FromParser(run, t) || Contains(query, t)
  {
    match run.first
    case Listed(tables) => Ok(tables)
    case Raised(IndexError) =>
      ContainsAt(query, "", 0);
      Ok([""])
    case Raised(AttributeError) =>
      (match run.retry
       case Listed(tables) => Ok(FilterByProject(tables, projectName))
       case Raised(e) => Raise(e))
    case Raised(ValueError) =>
      FindBetweenIsSubstring(query, Backtick, Backtick);
      Ok([FindBetween(query, Backtick, Backtick)])
    case Raised(e) => Raise(WrappedException(e))
  }

  /** A successful parse is returned unchanged. */
  lemma ParseQueryParsed(query: string, run: ParserRun, projectName: string)
    requires run.first.Listed?
    ensures ParseQuery(query, run, projectName) == Ok(run.first.tables)
  {
  }

  /** An `IndexError` gives the single placeholder name. */
  lemma ParseQueryIndexError(query: string, run: ParserRun, projectName: string)
    requires run.first == Raised(IndexError)
    ensures ParseQuery(query, run, projectName) == Ok([""])
  {
  }

  /** An `AttributeError` gives the second read's names that contain the
      project name, in order; if the second read fails its error escapes
      unchanged. */
  lemma ParseQueryAttributeError(query: string, run: ParserRun, projectName: string)
    requires run.first == Raised(AttributeError)
    ensures run.retry.Listed? ==>
      var r := ParseQuery(query, run, projectName);
      r.Ok? && r.value == FilterByProject(run.retry.tables, projectName)
      && (forall t :: t in r.value ==> Contains(t, projectName))
    ensures run.retry.Raised? ==> ParseQuery(query, run, projectName) == Raise(run.retry.error)
  {
  }

  /** A `ValueError` gives one name: the text between the first backtick and
      the next one, which never holds a backtick itself. */
  lemma ParseQueryValueError(query: string, run: ParserRun, projectName: string)
    requires run.first == Raised(ValueError)
    ensures var r := ParseQuery(query, run, projectName);
      r.Ok? && |r.value| == 1 && r.value[0] == FindBetween(query, Backtick, Backtick)
      && '`' !in r.value[0] && Contains(query, r.value[0])
  {
    FindBetweenExcludesClosing(query, Backtick, Backtick);
    FindBetweenIsSubstring(query, Backtick, Backtick);
  }

  /** A query that the parser rejects with `ValueError` and that holds fewer
      than two backticks gives the single placeholder name. */
  lemma ParseQueryUnmatchedBacktick(query: string, run: ParserRun, projectName: string)
    requires run.first == Raised(ValueError)
    requires forall i, j :: 0 <= i < j < |query| && query[i] == '`' ==> query[j] != '`'
    ensures ParseQuery(query, run, projectName) == Ok([""])
  {
    FindBetweenMissing(query, Backtick, Backtick);
    forall i: nat, j: nat | BetweenAt(query, Backtick, Backtick, i, j)
      ensures i < j < |query| && query[i] == '`' && query[j] == '`'
    {
      BetweenAtPositions(query, Backtick, Backtick, i, j);
    }
  }

  /** Any other failure of the first read escapes, wrapped in a plain
      `Exception` that keeps the original error. */
  lemma ParseQueryOtherError(query: string, run: ParserRun, projectName: string)
    requires run.first.Raised? && !IsKnownFailure(run.first.error)
    ensures ParseQuery(query, run, projectName) == Raise(WrappedException(run.first.error))
  {
  }
}
