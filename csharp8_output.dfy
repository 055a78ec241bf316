/** csharp8/DirectoryOutput.cs: the results table, largest directory
    first, and the error table, each paged with a repeated header; and
    DirectoryRepository.Print, the same table written without pauses. */
module CSharp8Output {
  import opened FileSystem
  import opened ConsolePaging

  /** MAXCHAR: the width paths are truncated to. */
  const MaxChar: nat := 50

  /** What DisplayResults writes. */
  function ResultsScreen(repo: seq<Stat>, count: nat, size: nat, time: nat, quiet: bool, height: nat): seq<Line>
  {
    [Blank, Blank]
    + Paged(ResultsHeader, ResultRows(BySizeDescending(repo), MaxChar), quiet, height)
    + [Blank, Totals(count, size), TimeTaken(time)]
  }

  /** DisplayResults(repo, count, size, time, quiet). */
  method DisplayResults(repo: seq<Stat>, count: nat, size: nat, time: nat, quiet: bool, height: nat)
    returns (out: seq<Line>)
    ensures out == ResultsScreen(repo, count, size, time, quiet, height)
  {
    var sorted := BySizeDescending(repo);
    var table := WriteRows(ResultsHeader, ResultRows(sorted, MaxChar), quiet, height);
    out := [Blank, Blank] + table + [Blank, Totals(count, size), TimeTaken(time)];
  }

  /** The results screen shows each directory once, largest first (see
      ResultsLargestFirst), after a single header in quiet mode. */
  lemma ResultsShown(repo: seq<Stat>, count: nat, size: nat, time: nat, quiet: bool, height: nat)
    ensures RowsOf(ResultsScreen(repo, count, size, time, quiet, height)) == ResultRows(BySizeDescending(repo), MaxChar)
    ensures quiet ==> HeaderCount(ResultsScreen(repo, count, size, time, quiet, height)) == if repo == [] then 0 else 1
  {
    var rows := ResultRows(BySizeDescending(repo), MaxChar);
    ResultRowsLength(BySizeDescending(repo), MaxChar);
    FramedTable([Blank, Blank], ResultsHeader, rows, quiet, height, [Blank, Totals(count, size), TimeTaken(time)]);
  }

  /** What DisplayErrors writes: the total always, the table only when
      there are errors. */
  function ErrorsScreen(errors: seq<ErrorInfo>, quiet: bool, height: nat): seq<Line>
  {
    [Blank, TotalErrors(|errors|)]
    + (if |errors| > 0 then Paged(ErrorsHeader, ErrorRows(errors, MaxChar), quiet, height) + [Blank] else [])
  }

  /** DisplayErrors(errors, quiet). */
  method DisplayErrors(errors: seq<ErrorInfo>, quiet: bool, height: nat) returns (out: seq<Line>)
    ensures out == ErrorsScreen(errors, quiet, height)
  {
    out := [Blank, TotalErrors(|errors|)];
    if |errors| > 0 {
      var table := WriteRows(ErrorsHeader, ErrorRows(errors, MaxChar), quiet, height);
      out := out + table + [Blank];
    }
  }

  /** The error total is always shown. Without errors nothing follows
      it; with errors the header does. */
  lemma ErrorTotalFirst(errors: seq<ErrorInfo>, quiet: bool, height: nat)
    ensures ErrorsScreen(errors, quiet, height)[1] == TotalErrors(|errors|)
    ensures errors == [] <==> ErrorsScreen(errors, quiet, height) == [Blank, TotalErrors(0)]
    ensures errors != [] ==> ErrorsScreen(errors, quiet, height)[2] == Header(ErrorsHeader)
  {
    if errors != [] {
      var rows := ErrorRows(errors, MaxChar);
      ErrorRowsLength(errors, MaxChar);
      HeaderFirst(ErrorsHeader, rows, |rows|, quiet, height);
    }
  }

  /** The error rows are the errors in the order they were logged, one
      each; in quiet mode under one header, and none without errors. */
  lemma ErrorsShown(errors: seq<ErrorInfo>, quiet: bool, height: nat)
    ensures RowsOf(ErrorsScreen(errors, quiet, height)) == ErrorRows(errors, MaxChar)
    ensures quiet || errors == [] ==> HeaderCount(ErrorsScreen(errors, quiet, height)) == if errors == [] then 0 else 1
  {
    var rows := ErrorRows(errors, MaxChar);
    ErrorRowsLength(errors, MaxChar);
    if errors != [] {
      FramedTable([Blank, TotalErrors(|errors|)], ErrorsHeader, rows, quiet, height, [Blank]);
      assert ErrorsScreen(errors, quiet, height)
          == [Blank, TotalErrors(|errors|)] + Paged(ErrorsHeader, rows, quiet, height) + [Blank];
    } else {
      PlainCounts([Blank, TotalErrors(0)]);
    }
  }

  /** What DirectoryRepository.Print writes: one header, every directory
      largest first, the totals and the time, with no pauses. */
  function PrintScreen(repo: seq<Stat>, count: nat, size: nat, runtime: nat): seq<Line>
  {
    [Blank, Header(ResultsHeader)]
    + Bodies(ResultRows(BySizeDescending(repo), MaxChar))
    + [Blank, Totals(count, size), TimeTaken(runtime), Blank]
  }

  /** DirectoryRepository.Print(). */
  method Print(repo: seq<Stat>, count: nat, size: nat, runtime: nat) returns (out: seq<Line>)
    ensures out == PrintScreen(repo, count, size, runtime)
  {
    var table := WriteBodies(ResultRows(BySizeDescending(repo), MaxChar));
    out := [Blank, Header(ResultsHeader)] + table + [Blank, Totals(count, size), TimeTaken(runtime), Blank];
  }

  /** Print shows the same rows as DisplayResults (see ResultsShown),
      under a single header. */
  lemma PrintShown(repo: seq<Stat>, count: nat, size: nat, runtime: nat)
    ensures RowsOf(PrintScreen(repo, count, size, runtime)) == ResultRows(BySizeDescending(repo), MaxChar)
    ensures HeaderCount(PrintScreen(repo, count, size, runtime)) == 1
  {
    PrintFramed(ResultRows(BySizeDescending(repo), MaxChar), [Blank, Totals(count, size), TimeTaken(runtime), Blank]);
  }

  lemma PrintFramed(rows: seq<Row>, after: seq<Line>)
    requires Plain(after)
    ensures RowsOf([Blank, Header(ResultsHeader)] + Bodies(rows) + after) == rows
    ensures HeaderCount([Blank, Header(ResultsHeader)] + Bodies(rows) + after) == 1
  {
    FramedUnpaged([Blank], ResultsHeader, rows, after);
    assert [Blank, Header(ResultsHeader)] + Bodies(rows) + after
        == [Blank] + ([Header(ResultsHeader)] + Bodies(rows)) + after;
  }
}
