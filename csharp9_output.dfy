/** csharp9/DirectoryOutput.cs: the same paged tables as csharp8, with
    paths truncated to 45 characters, the error total moved into the
    results footer, and no error total above the error table. */
module CSharp9Output {
  import opened FileSystem
  import opened ConsolePaging

  /** MAXCHAR: the width paths are truncated to. */
  const MaxChar: nat := 45

  /** What DisplayResults writes. */
  function ResultsScreen(repo: seq<Stat>, count: nat, size: nat, time: nat, errors: nat, quiet: bool, height: nat): seq<Line>
  {
    [Blank, Blank]
    + Paged(ResultsHeader, ResultRows(BySizeDescending(repo), MaxChar), quiet, height)
    + [Blank, Totals(count, size), TimeTaken(time), TotalErrors(errors)]
  }

  /** DisplayResults(repo, count, size, time, errors, quiet). */
  method DisplayResults(repo: seq<Stat>, count: nat, size: nat, time: nat, errors: nat, quiet: bool, height: nat)
    returns (out: seq<Line>)
    ensures out == ResultsScreen(repo, count, size, time, errors, quiet, height)
  {
    var sorted := BySizeDescending(repo);
    var table := WriteRows(ResultsHeader, ResultRows(sorted, MaxChar), quiet, height);
    out := [Blank, Blank] + table + [Blank, Totals(count, size), TimeTaken(time), TotalErrors(errors)];
  }

  /** Each directory once, largest first (see ResultsLargestFirst), after
      a single header in quiet mode. */
  lemma ResultsShown(repo: seq<Stat>, count: nat, size: nat, time: nat, errors: nat, quiet: bool, height: nat)
    ensures RowsOf(ResultsScreen(repo, count, size, time, errors, quiet, height)) == ResultRows(BySizeDescending(repo), MaxChar)
    ensures quiet ==> HeaderCount(ResultsScreen(repo, count, size, time, errors, quiet, height)) == if repo == [] then 0 else 1
  {
    var rows := ResultRows(BySizeDescending(repo), MaxChar);
    ResultRowsLength(BySizeDescending(repo), MaxChar);
    FramedTable([Blank, Blank], ResultsHeader, rows, quiet, height, [Blank, Totals(count, size), TimeTaken(time), TotalErrors(errors)]);
  }

  /** What DisplayErrors writes: nothing but a blank line without errors. */
  function ErrorsScreen(errors: seq<ErrorInfo>, quiet: bool, height: nat): seq<Line>
  {
    [Blank] + (if |errors| > 0 then Paged(ErrorsHeader, ErrorRows(errors, MaxChar), quiet, height) + [Blank] else [])
  }

  /** DisplayErrors(errors, quiet). */
  method DisplayErrors(errors: seq<ErrorInfo>, quiet: bool, height: nat) returns (out: seq<Line>)
    ensures out == ErrorsScreen(errors, quiet, height)
  {
    out := [Blank];
    if |errors| > 0 {
      var table := WriteRows(ErrorsHeader, ErrorRows(errors, MaxChar), quiet, height);
      out := out + table + [Blank];
    }
  }

  /** One row per error, in the order logged, the header first; with no
      errors no header and no rows. */
  lemma ErrorsShown(errors: seq<ErrorInfo>, quiet: bool, height: nat)
    ensures RowsOf(ErrorsScreen(errors, quiet, height)) == ErrorRows(errors, MaxChar)
    ensures errors == [] <==> HeaderCount(ErrorsScreen(errors, quiet, height)) == 0
    ensures quiet && errors != [] ==> HeaderCount(ErrorsScreen(errors, quiet, height)) == 1
  {
    var rows := ErrorRows(errors, MaxChar);
    ErrorRowsLength(errors, MaxChar);
    if errors != [] {
      FramedTable([Blank], ErrorsHeader, rows, quiet, height, [Blank]);
      assert ErrorsScreen(errors, quiet, height) == [Blank] + Paged(ErrorsHeader, rows, quiet, height) + [Blank];
      HeaderFirst(ErrorsHeader, rows, |rows|, quiet, height);
      HeaderCountPositive(Paged(ErrorsHeader, rows, quiet, height));
      assert HeaderCount(ErrorsScreen(errors, quiet, height)) >= 1 by {
        HeaderCountConcat([Blank], Paged(ErrorsHeader, rows, quiet, height));
        HeaderCountConcat([Blank] + Paged(ErrorsHeader, rows, quiet, height), [Blank]);
      }
    } else {
      PlainCounts([Blank]);
    }
  }

  /** The header comes right after the opening blank line. */
  lemma ErrorHeaderFirst(errors: seq<ErrorInfo>, quiet: bool, height: nat)
    requires errors != []
    ensures ErrorsScreen(errors, quiet, height)[1] == Header(ErrorsHeader)
  {
    var rows := ErrorRows(errors, MaxChar);
    ErrorRowsLength(errors, MaxChar);
    HeaderFirst(ErrorsHeader, rows, |rows|, quiet, height);
  }
}
