/** What the csharp8 and csharp9 console printers share: Truncate, which
    shortens a path from the front, and the row counter that repeats the
    column header after every "Press Enter to Continue" prompt. The
    console is a sequence of lines; the lines' padding and number formats
    are not modelled. */
module ConsolePaging {
  import opened Seqs
  import opened FileSystem

  /** Truncate(value, maxChars): unchanged when it fits, otherwise "..."
      and its last maxChars characters. */
  function Truncate(value: string, maxChars: nat): (r: string)
    ensures |value| <= maxChars ==> r == value
    ensures |value| > maxChars ==> |r| == maxChars + 3 && r[..3] == "..."
    ensures |r| <= maxChars + 3
    ensures var keep := Min(|value|, maxChars);
            r[|r| - keep..] == value[|value| - keep..]
  {
    if |value| <= maxChars then value else "..." + value[|value| - maxChars..]
  }

  /** Truncating twice is truncating once: the "..." is never cut again. */
  lemma TruncateIdempotent(value: string, maxChars: nat)
    ensures Truncate(Truncate(value, maxChars), maxChars) == Truncate(value, maxChars)
  {
    var r := Truncate(value, maxChars);
    if |value| > maxChars {
      assert r[|r| - maxChars..] == value[|value| - maxChars..];
    }
  }

  /** The two headers the printers write. */
  datatype HeaderKind = ResultsHeader | ErrorsHeader

  /** A row of the results table or of the error table. */
  datatype Row =
    | ResultRow(path: string, files: nat, size: nat)
    | ErrorRow(path: string, description: string)

  /** One line written to the console. */
  datatype Line =
    | Header(kind: HeaderKind)
    | Body(row: Row)
    | PressEnter
    | Blank
    | Totals(files: nat, size: nat)
    | TimeTaken(ms: nat)
    | TotalErrors(count: nat)

  /** The rows written from one header to the next: pause fires when the
      counter, which starts at 0, reaches H - H/2 for a window H lines
      high. */
  function PageLength(height: nat): nat
  {
    height - height / 2 + 1
  }

  /** pause(currentLine, quiet): true, after prompting and waiting for a
      key, when not quiet and the counter has reached H - H/2. */
  predicate Pauses(currentLine: nat, quiet: bool, height: nat)
  {
    !quiet && currentLine == height - height / 2
  }

  /** The position of row `j` on its page: `j` modulo `m`, counted off a
      page at a time. */
  function PagePos(j: nat, m: nat): nat
    requires m > 0
  {
    if j < m then j else PagePos(j - m, m)
  }

  /** Whether the row at position `j` is preceded by a header. */
  predicate HeaderBefore(j: nat, quiet: bool, height: nat)
  {
    if quiet then j == 0 else PagePos(j, PageLength(height)) == 0
  }

  /** Whether the row at position `j` is followed by a pause prompt. */
  predicate PromptAfter(j: nat, quiet: bool, height: nat)
  {
    !quiet && PagePos(j, PageLength(height)) == PageLength(height) - 1
  }

  /** The lines for one row: a header first or not, a prompt after or not. */
  function Block(kind: HeaderKind, row: Row, header: bool, prompt: bool): seq<Line>
  {
    (if header then [Header(kind)] else []) + [Body(row)] + (if prompt then [PressEnter] else [])
  }

  /** The lines for the row at position `j`. */
  function BlockAt(kind: HeaderKind, row: Row, j: nat, quiet: bool, height: nat): seq<Line>
  {
    Block(kind, row, HeaderBefore(j, quiet, height), PromptAfter(j, quiet, height))
  }

  /** The lines for the first `k` rows, row positions given in closed form. */
  function PagedUpTo(kind: HeaderKind, rows: seq<Row>, k: nat, quiet: bool, height: nat): seq<Line>
    requires k <= |rows|
  {
    if k == 0 then [] else PagedUpTo(kind, rows, k - 1, quiet, height) + BlockAt(kind, rows[k - 1], k - 1, quiet, height)
  }

  function Paged(kind: HeaderKind, rows: seq<Row>, quiet: bool, height: nat): seq<Line>
  {
    PagedUpTo(kind, rows, |rows|, quiet, height)
  }

  /** The foreach loop of DisplayResults and DisplayErrors: a header when
      the counter is 0, the row, then pause, which resets the counter. */
  method WriteRows(kind: HeaderKind, rows: seq<Row>, quiet: bool, height: nat) returns (out: seq<Line>)
    ensures out == Paged(kind, rows, quiet, height)
  {
    out := [];
    var c: nat := 0;
    for i := 0 to |rows|
      invariant c == if quiet then i else PagePos(i, PageLength(height))
      invariant out == PagedUpTo(kind, rows, i, quiet, height)
    {
      ghost var before := out;
      PagePosStep(i, PageLength(height));
      if c == 0 {
        out := out + [Header(kind)];
      }
      out := out + [Body(rows[i])];
      if Pauses(c, quiet, height) {
        out := out + [PressEnter];
        c := 0;
      } else {
        c := c + 1;
      }
      assert out == before + BlockAt(kind, rows[i], i, quiet, height);
    }
  }

  // The rows of the two tables.

  /** A directory's row: its path truncated to `maxChars`, its file count
      and its size. */
  function ResultRowOf(s: Stat, maxChars: nat): Row
  {
    ResultRow(Truncate(s.path, maxChars), s.count, s.size)
  }

  /** The results rows, one per directory in order. */
  function ResultRows(stats: seq<Stat>, maxChars: nat): seq<Row>
  {
    MapSeq(stats, ResultRowFn(maxChars))
  }

  function ResultRowFn(maxChars: nat): Stat -> Row
  {
    s => ResultRowOf(s, maxChars)
  }

  /** An error's row: its path truncated to `maxChars` and its description. */
  function ErrorRowOf(e: ErrorInfo, maxChars: nat): Row
  {
    ErrorRow(Truncate(e.path, maxChars), e.description)
  }

  /** The error rows, one per error in order. */
  function ErrorRows(errors: seq<ErrorInfo>, maxChars: nat): seq<Row>
  {
    MapSeq(errors, ErrorRowFn(maxChars))
  }

  function ErrorRowFn(maxChars: nat): ErrorInfo -> Row
  {
    e => ErrorRowOf(e, maxChars)
  }

  /** The sort key `o => o.DirectorySize`. */
  function SizeKey(s: Stat): int { s.size }

  /** repo.OrderByDescending(o => o.DirectorySize), stable as LINQ's is:
      directories of equal size keep their order in `repo`. */
  function BySizeDescending(repo: seq<Stat>): (r: seq<Stat>)
    ensures multiset(r) == multiset(repo)
    ensures NonIncreasing(r, SizeKey)
    ensures forall v :: WithKey(r, SizeKey, v) == WithKey(repo, SizeKey, v)
    ensures |r| == |repo|
  {
    assert |multiset(repo)| == |repo|;
    assert forall v :: WithKey(SortDescending(repo, SizeKey), SizeKey, v) == WithKey(repo, SizeKey, v) by {
      forall v
        ensures WithKey(SortDescending(repo, SizeKey), SizeKey, v) == WithKey(repo, SizeKey, v)
      {
        SortDescendingStable(repo, SizeKey, v);
      }
    }
    SortDescending(repo, SizeKey)
  }

  lemma ResultRowsLength(stats: seq<Stat>, maxChars: nat)
    ensures |ResultRows(stats, maxChars)| == |stats|
  {
    MapSeqIndex(stats, ResultRowFn(maxChars));
  }

  /** The results rows are the directories' rows in order. */
  lemma ResultRowsIndex(stats: seq<Stat>, maxChars: nat)
    ensures |ResultRows(stats, maxChars)| == |stats|
    ensures forall i :: 0 <= i < |stats| ==> ResultRows(stats, maxChars)[i] == ResultRowOf(stats[i], maxChars)
  {
    MapSeqIndex(stats, ResultRowFn(maxChars));
  }

  lemma ErrorRowsLength(errors: seq<ErrorInfo>, maxChars: nat)
    ensures |ErrorRows(errors, maxChars)| == |errors|
  {
    MapSeqIndex(errors, ErrorRowFn(maxChars));
  }

  /** The error rows are the errors' rows in order. */
  lemma ErrorRowsIndex(errors: seq<ErrorInfo>, maxChars: nat)
    ensures |ErrorRows(errors, maxChars)| == |errors|
    ensures forall i :: 0 <= i < |errors| ==> ErrorRows(errors, maxChars)[i] == ErrorRowOf(errors[i], maxChars)
  {
    MapSeqIndex(errors, ErrorRowFn(maxChars));
  }

  /** The results table holds one row per directory of `repo`, largest
      first: the rows of a reordering of `repo` with sizes that never
      increase down the table. */
  lemma ResultsLargestFirst(repo: seq<Stat>, maxChars: nat)
    ensures var sorted := BySizeDescending(repo);
            var rows := ResultRows(sorted, maxChars);
            && multiset(sorted) == multiset(repo)
            && |rows| == |sorted| == |repo|
            && (forall i :: 0 <= i < |rows| ==> rows[i] == ResultRowOf(sorted[i], maxChars))
            && (forall i, j :: 0 <= i <= j < |rows| ==> rows[i].size >= rows[j].size)
  {
    var sorted := BySizeDescending(repo);
    var rows := ResultRows(sorted, maxChars);
    ResultRowsIndex(sorted, maxChars);
    assert |sorted| == |repo| by {
      assert |sorted| == |multiset(sorted)|;
      assert |repo| == |multiset(repo)|;
    }
    forall i, j | 0 <= i <= j < |rows|
      ensures rows[i].size >= rows[j].size
    {
      NonIncreasingPairwise(sorted, SizeKey, i, j);
      assert rows[i].size == SizeKey(sorted[i]) && rows[j].size == SizeKey(sorted[j]);
    }
  }

  // Counting what was written.

  /** The rows among the lines, in order. */
  function RowsOf(lines: seq<Line>): seq<Row>
  {
    if lines == [] then []
    else RowsOf(lines[..|lines| - 1]) + (if lines[|lines| - 1].Body? then [lines[|lines| - 1].row] else [])
  }

  function HeaderCount(lines: seq<Line>): nat
  {
    if lines == [] then 0
    else HeaderCount(lines[..|lines| - 1]) + (if lines[|lines| - 1].Header? then 1 else 0)
  }

  function PromptCount(lines: seq<Line>): nat
  {
    if lines == [] then 0
    else PromptCount(lines[..|lines| - 1]) + (if lines[|lines| - 1] == PressEnter then 1 else 0)
  }

  lemma {:induction false} RowsConcat(a: seq<Line>, b: seq<Line>)
    ensures RowsOf(a + b) == RowsOf(a) + RowsOf(b)
    decreases |b|
  {
    if b == [] {
      assert a + b == a;
    } else {
      assert (a + b)[..|a + b| - 1] == a + b[..|b| - 1];
      RowsConcat(a, b[..|b| - 1]);
    }
  }

  lemma {:induction false} HeaderCountConcat(a: seq<Line>, b: seq<Line>)
    ensures HeaderCount(a + b) == HeaderCount(a) + HeaderCount(b)
    decreases |b|
  {
    if b == [] {
      assert a + b == a;
    } else {
      assert (a + b)[..|a + b| - 1] == a + b[..|b| - 1];
      HeaderCountConcat(a, b[..|b| - 1]);
    }
  }

  lemma {:induction false} PromptCountConcat(a: seq<Line>, b: seq<Line>)
    ensures PromptCount(a + b) == PromptCount(a) + PromptCount(b)
    decreases |b|
  {
    if b == [] {
      assert a + b == a;
    } else {
      assert (a + b)[..|a + b| - 1] == a + b[..|b| - 1];
      PromptCountConcat(a, b[..|b| - 1]);
    }
  }

  lemma BlockCounts(kind: HeaderKind, row: Row, header: bool, prompt: bool)
    ensures RowsOf(Block(kind, row, header, prompt)) == [row]
    ensures HeaderCount(Block(kind, row, header, prompt)) == if header then 1 else 0
    ensures PromptCount(Block(kind, row, header, prompt)) == if prompt then 1 else 0
  {
    var h: seq<Line> := if header then [Header(kind)] else [];
    var p: seq<Line> := if prompt then [PressEnter] else [];
    RowsConcat(h, [Body(row)]);
    RowsConcat(h + [Body(row)], p);
    HeaderCountConcat(h, [Body(row)]);
    HeaderCountConcat(h + [Body(row)], p);
    PromptCountConcat(h, [Body(row)]);
    PromptCountConcat(h + [Body(row)], p);
    assert [Body(row)][..0] == [];
    if header {
      assert h[..0] == [];
    }
    if prompt {
      assert p[..0] == [];
    }
  }

  /** Every row is written exactly once, in the order given. */
  lemma {:induction false} PagedRows(kind: HeaderKind, rows: seq<Row>, k: nat, quiet: bool, height: nat)
    requires k <= |rows|
    ensures RowsOf(PagedUpTo(kind, rows, k, quiet, height)) == rows[..k]
    decreases k
  {
    if k > 0 {
      PagedRows(kind, rows, k - 1, quiet, height);
      var h, p := HeaderBefore(k - 1, quiet, height), PromptAfter(k - 1, quiet, height);
      RowsConcat(PagedUpTo(kind, rows, k - 1, quiet, height), Block(kind, rows[k - 1], h, p));
      BlockCounts(kind, rows[k - 1], h, p);
      assert rows[..k] == rows[..k - 1] + [rows[k - 1]];
    }
  }

  /** The rows as lines, one after another, with nothing between them. */
  function Bodies(rows: seq<Row>): seq<Line>
  {
    if rows == [] then [] else Bodies(rows[..|rows| - 1]) + [Body(rows[|rows| - 1])]
  }

  lemma {:induction false} BodiesRows(rows: seq<Row>)
    ensures RowsOf(Bodies(rows)) == rows
    ensures HeaderCount(Bodies(rows)) == 0
    decreases |rows|
  {
    if rows != [] {
      var n := |rows| - 1;
      BodiesRows(rows[..n]);
      RowsConcat(Bodies(rows[..n]), [Body(rows[n])]);
      HeaderCountConcat(Bodies(rows[..n]), [Body(rows[n])]);
      assert [Body(rows[n])][..0] == [];
      assert rows[..n] + [rows[n]] == rows;
    }
  }

  /** Lines that are neither a header nor a row: blank lines, prompts
      and totals. */
  ghost predicate Plain(lines: seq<Line>)
  {
    forall i :: 0 <= i < |lines| ==> !lines[i].Body? && !lines[i].Header?
  }

  lemma {:induction false} PlainCounts(lines: seq<Line>)
    requires Plain(lines)
    ensures RowsOf(lines) == []
    ensures HeaderCount(lines) == 0
    decreases |lines|
  {
    if lines != [] {
      PlainCounts(lines[..|lines| - 1]);
    }
  }

  /** Plain lines around a table add no rows and no headers. */
  lemma Framed(before: seq<Line>, table: seq<Line>, after: seq<Line>)
    requires Plain(before) && Plain(after)
    ensures RowsOf(before + table + after) == RowsOf(table)
    ensures HeaderCount(before + table + after) == HeaderCount(table)
  {
    PlainCounts(before);
    PlainCounts(after);
    RowsConcat(before, table);
    RowsConcat(before + table, after);
    HeaderCountConcat(before, table);
    HeaderCountConcat(before + table, after);
  }

  /** A paged table between plain lines shows its rows in order, and in
      quiet mode a single header. */
  lemma FramedTable(before: seq<Line>, kind: HeaderKind, rows: seq<Row>, quiet: bool, height: nat, after: seq<Line>)
    requires Plain(before) && Plain(after)
    ensures RowsOf(before + Paged(kind, rows, quiet, height) + after) == rows
    ensures quiet ==> HeaderCount(before + Paged(kind, rows, quiet, height) + after) == if rows == [] then 0 else 1
  {
    PagedTable(kind, rows, quiet, height);
    Framed(before, Paged(kind, rows, quiet, height), after);
  }

  /** An unpaged table between plain lines: its rows in order under one
      header. */
  lemma FramedUnpaged(before: seq<Line>, kind: HeaderKind, rows: seq<Row>, after: seq<Line>)
    requires Plain(before) && Plain(after)
    ensures RowsOf(before + ([Header(kind)] + Bodies(rows)) + after) == rows
    ensures HeaderCount(before + ([Header(kind)] + Bodies(rows)) + after) == 1
  {
    BodiesRows(rows);
    RowsConcat([Header(kind)], Bodies(rows));
    HeaderCountConcat([Header(kind)], Bodies(rows));
    assert [Header(kind)][..0] == [];
    Framed(before, [Header(kind)] + Bodies(rows), after);
  }

  /** The rows written one line each, as a plain foreach does. */
  method WriteBodies(rows: seq<Row>) returns (out: seq<Line>)
    ensures out == Bodies(rows)
  {
    out := [];
    for i := 0 to |rows|
      invariant out == Bodies(rows[..i])
    {
      assert rows[..i + 1][..i] == rows[..i];
      out := out + [Body(rows[i])];
    }
    assert rows[..|rows|] == rows;
  }

  /** Lines that start with a header hold at least one. */
  lemma {:induction false} HeaderCountPositive(lines: seq<Line>)
    requires lines != [] && lines[0].Header?
    ensures HeaderCount(lines) >= 1
    decreases |lines|
  {
    if |lines| > 1 {
      HeaderCountPositive(lines[..|lines| - 1]);
    }
  }

  /** The first row always comes after a header, whatever the mode. */
  lemma {:induction false} HeaderFirst(kind: HeaderKind, rows: seq<Row>, k: nat, quiet: bool, height: nat)
    requires 0 < k <= |rows|
    ensures |PagedUpTo(kind, rows, k, quiet, height)| >= k
    ensures PagedUpTo(kind, rows, k, quiet, height)[0] == Header(kind)
    decreases k
  {
    PagePosStep(0, PageLength(height));
    if k > 1 {
      HeaderFirst(kind, rows, k - 1, quiet, height);
    }
  }

  /** In quiet mode the header is written once and the printer never
      waits. */
  lemma {:induction false} QuietHeaderOnce(kind: HeaderKind, rows: seq<Row>, k: nat, height: nat)
    requires k <= |rows|
    ensures HeaderCount(PagedUpTo(kind, rows, k, true, height)) == if k == 0 then 0 else 1
    ensures PromptCount(PagedUpTo(kind, rows, k, true, height)) == 0
    decreases k
  {
    if k > 0 {
      QuietHeaderOnce(kind, rows, k - 1, height);
      HeaderCountConcat(PagedUpTo(kind, rows, k - 1, true, height), BlockAt(kind, rows[k - 1], k - 1, true, height));
      PromptCountConcat(PagedUpTo(kind, rows, k - 1, true, height), BlockAt(kind, rows[k - 1], k - 1, true, height));
      BlockCounts(kind, rows[k - 1], k - 1 == 0, false);
    }
  }

  /** What every paged table shows: its rows in order, one header before
      the first, and in quiet mode no other header and no prompt. */
  lemma PagedTable(kind: HeaderKind, rows: seq<Row>, quiet: bool, height: nat)
    ensures RowsOf(Paged(kind, rows, quiet, height)) == rows
    ensures rows == [] <==> Paged(kind, rows, quiet, height) == []
    ensures rows != [] ==> Paged(kind, rows, quiet, height)[0] == Header(kind)
    ensures quiet ==> HeaderCount(Paged(kind, rows, quiet, height)) == (if rows == [] then 0 else 1)
    ensures quiet ==> PromptCount(Paged(kind, rows, quiet, height)) == 0
  {
    PagedRows(kind, rows, |rows|, quiet, height);
    assert rows[..|rows|] == rows;
    if rows != [] {
      HeaderFirst(kind, rows, |rows|, quiet, height);
    }
    if quiet {
      QuietHeaderOnce(kind, rows, |rows|, height);
    }
  }

  /** Counting one more row moves one place along the page, or back to
      its start after the last place. */
  lemma {:induction false} PagePosStep(j: nat, m: nat)
    requires m > 0
    ensures PagePos(j + 1, m) == if PagePos(j, m) == m - 1 then 0 else PagePos(j, m) + 1
    ensures PagePos(j, m) < m
    decreases j
  {
    if j >= m {
      PagePosStep(j - m, m);
    }
  }

  /** How many of the first `k` rows open a page. */
  function PagesOpened(k: nat, m: nat): nat
    requires m > 0
  {
    if k == 0 then 0 else PagesOpened(k - 1, m) + (if PagePos(k - 1, m) == 0 then 1 else 0)
  }

  /** How many of the first `k` rows close a page. */
  function PagesClosed(k: nat, m: nat): nat
    requires m > 0
  {
    if k == 0 then 0 else PagesClosed(k - 1, m) + (if PagePos(k - 1, m) == m - 1 then 1 else 0)
  }

  /** Counting off pages is taking the remainder. */
  lemma {:induction false} PagePosIsMod(j: nat, m: nat)
    requires m > 0
    ensures PagePos(j, m) == j % m
    decreases j
  {
    if j < m {
      DivOf(j, m, 0, j);
    } else {
      PagePosIsMod(j - m, m);
      var q, r := (j - m) / m, (j - m) % m;
      assert j - m == q * m + r;
      assert j == (q + 1) * m + r;
      DivOf(j, m, q + 1, r);
    }
  }

  /** k rows open (k + m - 1) / m pages of m rows. */
  lemma {:induction false} PagesOpenedClosedForm(k: nat, m: nat)
    requires m > 0
    ensures PagesOpened(k, m) == (k + m - 1) / m
    decreases k
  {
    if k == 0 {
      DivOf(m - 1, m, 0, m - 1);
    } else {
      PagesOpenedClosedForm(k - 1, m);
      PagePosIsMod(k - 1, m);
      CeilStep(k - 1, m);
    }
  }

  /** k rows fill k / m pages of m rows. */
  lemma {:induction false} PagesClosedClosedForm(k: nat, m: nat)
    requires m > 0
    ensures PagesClosed(k, m) == k / m
    decreases k
  {
    if k == 0 {
      DivOf(0, m, 0, 0);
    } else {
      PagesClosedClosedForm(k - 1, m);
      PagePosIsMod(k - 1, m);
      CeilStep(k - 1, m);
    }
  }

  /** Division by `m` steps up by one exactly at multiples of `m`. */
  lemma CeilStep(n: nat, m: nat)
    requires m > 0
    ensures (n + m) / m == (n + m - 1) / m + (if n % m == 0 then 1 else 0)
    ensures (n + 1) / m == n / m + (if n % m == m - 1 then 1 else 0)
  {
    var q, r := n / m, n % m;
    assert n == q * m + r;
    DivOf(n + m, m, q + 1, r);
    if r == 0 {
      DivOf(n + m - 1, m, q, m - 1);
    } else {
      DivOf(n + m - 1, m, q + 1, r - 1);
    }
    if r == m - 1 {
      DivOf(n + 1, m, q + 1, 0);
    } else {
      DivOf(n + 1, m, q, r + 1);
    }
  }

  lemma MulAtLeast(d: int, m: int)
    requires d >= 1 && m >= 0
    ensures d * m >= m
  {
    if d > 1 {
      MulAtLeast(d - 1, m);
      assert d * m == (d - 1) * m + m;
    }
  }

  /** Quotient and remainder are unique. */
  lemma DivOf(a: nat, m: nat, q: nat, r: nat)
    requires m > 0 && r < m && a == q * m + r
    ensures a / m == q && a % m == r
  {
    var q', r' := a / m, a % m;
    assert a == q' * m + r';
    if q' < q {
      MulAtLeast(q - q', m);
    } else if q' > q {
      MulAtLeast(q' - q, m);
    }
  }

  /** Otherwise a header opens every page of PageLength rows, and a
      prompt closes every full page. */
  lemma {:induction false} PagedCounts(kind: HeaderKind, rows: seq<Row>, k: nat, height: nat)
    requires k <= |rows|
    ensures HeaderCount(PagedUpTo(kind, rows, k, false, height)) == PagesOpened(k, PageLength(height))
    ensures PromptCount(PagedUpTo(kind, rows, k, false, height)) == PagesClosed(k, PageLength(height))
    decreases k
  {
    if k > 0 {
      PagedCounts(kind, rows, k - 1, height);
      HeaderCountConcat(PagedUpTo(kind, rows, k - 1, false, height), BlockAt(kind, rows[k - 1], k - 1, false, height));
      PromptCountConcat(PagedUpTo(kind, rows, k - 1, false, height), BlockAt(kind, rows[k - 1], k - 1, false, height));
      BlockCounts(kind, rows[k - 1], HeaderBefore(k - 1, false, height), PromptAfter(k - 1, false, height));
    }
  }

  /** With a window H lines high, k rows take (k + P - 1) / P headers and
      k / P prompts, for pages of P = H - H/2 + 1 rows. */
  lemma PagedCountsClosedForm(kind: HeaderKind, rows: seq<Row>, height: nat)
    ensures HeaderCount(Paged(kind, rows, false, height)) == (|rows| + PageLength(height) - 1) / PageLength(height)
    ensures PromptCount(Paged(kind, rows, false, height)) == |rows| / PageLength(height)
  {
    PagedCounts(kind, rows, |rows|, height);
    PagesOpenedClosedForm(|rows|, PageLength(height));
    PagesClosedClosedForm(|rows|, PageLength(height));
  }
}
