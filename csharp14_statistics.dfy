/** csharp14/DirectoryStatistics.cs: every directory's own statistics come
    from one enumeration of all its entries, skipping any entry whose
    length cannot be read; only a subdirectory enumeration that throws is
    logged. A run builds a tree of statistics under the root's. */
module CSharp14Statistics {
  import opened Seqs
  import opened FileSystem

  /** DirectoryStatistics: Path, DirectorySize, FileCount, LastModified and
      the Subdirectories set (kept in the order the adds happen). */
  datatype Stats = Stats(path: string, size: nat, count: nat, lastModified: Instant, subdirectories: seq<Stats>)

  /** CreateEmptyStats(path). */
  function EmptyStats(path: string): (r: Stats)
    ensures r.path == path && r.size == 0 && r.count == 0 && r.lastModified == MinValue && r.subdirectories == []
  {
    Stats(path, 0, 0, MinValue, [])
  }

  /** One entry of Directory.EnumerateFileSystemEntries: a file, or a
      subdirectory, whose FileInfo.Length throws. */
  datatype FsEntry = FileItem(file: FileEntry) | DirItem(path: string)

  function AsFileItem(f: FileEntry): FsEntry { FileItem(f) }

  function AsDirItem(d: Dir): FsEntry { DirItem(d.path) }

  /** The entry enumeration of a directory: its files and its
      subdirectories; it throws when either underlying enumeration does. */
  function Entries(d: Dir): (r: Listing<FsEntry>)
    ensures r.Complete? <==> d.files.Complete? && d.subdirs.Complete?
  {
    var items := MapSeq(d.files.items, AsFileItem) + MapSeq(d.subdirs.items, AsDirItem);
    if d.files.Truncated? then Truncated(items, d.files.message)
    else if d.subdirs.Truncated? then Truncated(items, d.subdirs.message)
    else Complete(items)
  }

  /** What `totalSize += new FileInfo(file).Length` adds for one entry. */
  function EntryBytes(e: FsEntry): nat
  {
    if e.FileItem? && e.file.length.Bytes? then e.file.length.n else 0
  }

  /** What `fileCount++` adds for one entry. */
  function EntryOne(e: FsEntry): nat
  {
    if e.FileItem? && e.file.length.Bytes? then 1 else 0
  }

  /** Reference result of GetCurrentDirectoryStats: the directory's readable
      files, or empty statistics when its enumeration throws. */
  function CurrentStats(d: Dir): Stats
  {
    if d.files.Truncated? || d.subdirs.Truncated? then EmptyStats(d.path)
    else Stats(d.path, BytesOf(d.files.items), ReadableCount(d.files.items), d.lastWrite, [])
  }

  /** The entries contribute exactly what the readable files do. */
  lemma EntrySums(d: Dir)
    ensures SumOf(Entries(d).items, EntryBytes) == BytesOf(d.files.items)
    ensures SumOf(Entries(d).items, EntryOne) == ReadableCount(d.files.items)
  {
    var fs, ds := MapSeq(d.files.items, AsFileItem), MapSeq(d.subdirs.items, AsDirItem);
    MapSeqIndex(d.files.items, AsFileItem);
    MapSeqIndex(d.subdirs.items, AsDirItem);
    SumOfConcat(fs, ds, EntryBytes);
    SumOfConcat(fs, ds, EntryOne);
    SumOfPointwise(fs, d.files.items, EntryBytes, ReadableLength);
    SumOfPointwise(fs, d.files.items, EntryOne, ReadableOne);
    SumOfZero(ds, EntryBytes);
    SumOfZero(ds, EntryOne);
  }

  /** GetCurrentDirectoryStats: never throws. The totals are assigned only
      after the enumeration completes, so an enumeration that throws leaves
      the empty statistics. */
  method GetCurrentDirectoryStats(d: Dir) returns (stats: Stats)
    ensures stats == CurrentStats(d)
  {
    stats := EmptyStats(d.path);
    var entries := Entries(d);
    var totalSize, fileCount := 0, 0;
    var i := 0;
    while i < |entries.items|
      invariant 0 <= i <= |entries.items|
      invariant totalSize == SumOf(entries.items[..i], EntryBytes)
      invariant fileCount == SumOf(entries.items[..i], EntryOne)
    {
      var e := entries.items[i];
      SumOfStep(entries.items, i, EntryBytes);
      SumOfStep(entries.items, i, EntryOne);
      if e.FileItem? && e.file.length.Bytes? {
        totalSize := totalSize + e.file.length.n;
        fileCount := fileCount + 1;
      }
      i := i + 1;
    }
    if entries.Truncated? {
      return;
    }
    assert entries.items[..i] == entries.items;
    EntrySums(d);
    stats := Stats(d.path, totalSize, fileCount, d.lastWrite, []);
  }

  /** One subdirectory's statistics added to the current ones. */
  function Grow(s: Stats, child: Stats): (r: Stats)
    ensures r.path == s.path && r.lastModified == s.lastModified
    ensures r.subdirectories == s.subdirectories + [child]
    ensures r.size == s.size + child.size && r.count == s.count + child.count
  {
    Stats(s.path, s.size + child.size, s.count + child.count, s.lastModified, s.subdirectories + [child])
  }

  /** The current statistics after `children` were added one by one, as
      the foreach does and as the workers do under the lock. */
  function GrowAll(s: Stats, children: seq<Stats>): Stats
  {
    if children == [] then s else Grow(GrowAll(s, children[..|children| - 1]), children[|children| - 1])
  }

  /** Adding children one by one keeps the path and the time, appends
      them in order and adds up their sizes and file counts. */
  lemma {:induction false} GrowAllTotals(s: Stats, children: seq<Stats>)
    ensures GrowAll(s, children).path == s.path
    ensures GrowAll(s, children).lastModified == s.lastModified
    ensures GrowAll(s, children).subdirectories == s.subdirectories + children
    ensures GrowAll(s, children).size == s.size + SumOf(children, StatsSize)
    ensures GrowAll(s, children).count == s.count + SumOf(children, StatsCount)
    decreases |children|
  {
    if children != [] {
      var n := |children| - 1;
      GrowAllTotals(s, children[..n]);
      assert children[..n] + [children[n]] == children;
    }
  }

  /** The totals do not depend on the order the children are added in. */
  lemma GrowOrderIrrelevant(s: Stats, children: seq<Stats>, reordered: seq<Stats>)
    requires multiset(reordered) == multiset(children)
    ensures GrowAll(s, reordered).size == GrowAll(s, children).size
    ensures GrowAll(s, reordered).count == GrowAll(s, children).count
  {
    GrowAllTotals(s, children);
    GrowAllTotals(s, reordered);
    SumOfPermutation(reordered, children, StatsSize);
    SumOfPermutation(reordered, children, StatsCount);
  }

  /** GetDirectorySize(path): the statistics the call returns. The
      subdirectories are visited whether or not the directory's own
      enumeration succeeded. */
  function Tree(d: Dir): Stats
    decreases d, 1
  {
    TreeUpTo(d, |d.subdirs.items|)
  }

  function TreeUpTo(d: Dir, k: nat): Stats
    requires k <= |d.subdirs.items|
    decreases d, 0, k
  {
    if k == 0 then CurrentStats(d) else Grow(TreeUpTo(d, k - 1), Tree(d.subdirs.items[k - 1]))
  }

  /** What GetDirectorySize logs: the subdirectories' errors in order, then
      one for the directory when its subdirectory enumeration throws. */
  function TreeErrors(d: Dir): seq<ErrorInfo>
    decreases d, 1
  {
    ErrorsUpTo(d, |d.subdirs.items|) + ListingFailure(d).errors
  }

  function ErrorsUpTo(d: Dir, k: nat): seq<ErrorInfo>
    requires k <= |d.subdirs.items|
    decreases d, 0, k
  {
    if k == 0 then [] else ErrorsUpTo(d, k - 1) + TreeErrors(d.subdirs.items[k - 1])
  }

  /** One more subdirectory measured, behind the errors logged before the loop. */
  lemma ErrorsAppend(p: seq<ErrorInfo>, d: Dir, j: nat)
    requires j < |d.subdirs.items|
    ensures (p + ErrorsUpTo(d, j)) + TreeErrors(d.subdirs.items[j]) == p + ErrorsUpTo(d, j + 1)
  {
  }

  method GetDirectorySize(d: Dir, log: ErrorLog) returns (s: Stats)
    modifies log
    ensures s == Tree(d)
    ensures log.entries == old(log.entries) + TreeErrors(d)
    decreases d, 1
  {
    s := GetCurrentDirectoryStats(d);
    var subdirs := d.subdirs.items;
    ghost var start := log.entries;
    var j := 0;
    while j < |subdirs|
      invariant 0 <= j <= |subdirs|
      invariant s == TreeUpTo(d, j)
      invariant log.entries == start + ErrorsUpTo(d, j)
    {
      ErrorsAppend(start, d, j);
      ghost var next := TreeUpTo(d, j + 1);
      assert next == Grow(s, Tree(subdirs[j]));
      var stats := GetDirectorySize(subdirs[j], log);
      s := Grow(s, stats);
      assert s == next;
      j := j + 1;
    }
    if d.subdirs.Truncated? {
      log.Add(ErrorInfo(d.path, d.subdirs.message));
    }
  }

  /** Every node lists the trees of all the subdirectories its enumeration
      yielded, in order, and its totals are its own readable files plus
      their totals. */
  lemma TreeShape(d: Dir)
    ensures Tree(d).path == d.path
    ensures Tree(d).subdirectories == MapSeq(d.subdirs.items, SubtreeStats)
    ensures Tree(d).size == CurrentStats(d).size + SumOf(Tree(d).subdirectories, StatsSize)
    ensures Tree(d).count == CurrentStats(d).count + SumOf(Tree(d).subdirectories, StatsCount)
  {
    var n := |d.subdirs.items|;
    PartialTreeShape(d, n);
    assert d.subdirs.items[..n] == d.subdirs.items;
  }

  function StatsSize(s: Stats): nat { s.size }

  function StatsCount(s: Stats): nat { s.count }

  lemma {:induction false} PartialTreeShape(d: Dir, k: nat)
    requires k <= |d.subdirs.items|
    ensures TreeUpTo(d, k).path == d.path
    ensures TreeUpTo(d, k).subdirectories == MapSeq(d.subdirs.items[..k], SubtreeStats)
    ensures TreeUpTo(d, k).size == CurrentStats(d).size + SumOf(MapSeq(d.subdirs.items[..k], SubtreeStats), StatsSize)
    ensures TreeUpTo(d, k).count == CurrentStats(d).count + SumOf(MapSeq(d.subdirs.items[..k], SubtreeStats), StatsCount)
    decreases k
  {
    if k > 0 {
      var items := d.subdirs.items;
      var prefix := MapSeq(items[..k - 1], SubtreeStats);
      PartialTreeShape(d, k - 1);
      MapSeqStep(items, k - 1, SubtreeStats);
      assert MapSeq(items[..k], SubtreeStats) == prefix + [Tree(items[k - 1])];
      assert (prefix + [Tree(items[k - 1])])[..|prefix|] == prefix;
    }
  }

  /** Nothing is logged exactly when no subdirectory enumeration in the
      subtree throws; file failures are never logged. */
  lemma {:induction false} NoErrorsIffListingsComplete(d: Dir)
    ensures TreeErrors(d) == [] <==> SubdirListingsComplete(d)
    decreases d, 1
  {
    ChildrenNoErrors(d, |d.subdirs.items|);
  }

  lemma {:induction false} ChildrenNoErrors(d: Dir, k: nat)
    requires k <= |d.subdirs.items|
    ensures ErrorsUpTo(d, k) == [] <==> forall i :: 0 <= i < k ==> SubdirListingsComplete(d.subdirs.items[i])
    decreases d, 0, k
  {
    if k > 0 {
      var items := d.subdirs.items;
      var c, a := items[k - 1], ErrorsUpTo(d, k - 1);
      var b := TreeErrors(c);
      assert ErrorsUpTo(d, k) == a + b;
      assert a + b == [] <==> a == [] && b == [] by {
        assert |a + b| == |a| + |b|;
      }
      ChildrenNoErrors(d, k - 1);
      NoErrorsIffListingsComplete(c);
      assert (forall i :: 0 <= i < k ==> SubdirListingsComplete(items[i])) <==>
        (forall i :: 0 <= i < k - 1 ==> SubdirListingsComplete(items[i])) && SubdirListingsComplete(c);
    }
  }

  /** At most one error for every directory the traversal reaches. */
  lemma {:induction false} ErrorsBounded(d: Dir)
    ensures |TreeErrors(d)| <= NodeCount(d)
    decreases d, 1
  {
    ChildrenErrorsBounded(d, |d.subdirs.items|);
  }

  lemma {:induction false} ChildrenErrorsBounded(d: Dir, k: nat)
    requires k <= |d.subdirs.items|
    ensures |ErrorsUpTo(d, k)| <= ChildNodes(d, k)
    decreases d, 0, k
  {
    if k > 0 {
      var c := d.subdirs.items[k - 1];
      assert ErrorsUpTo(d, k) == ErrorsUpTo(d, k - 1) + TreeErrors(c);
      assert ChildNodes(d, k) == ChildNodes(d, k - 1) + NodeCount(c);
      ChildrenErrorsBounded(d, k - 1);
      ErrorsBounded(c);
      assert |ErrorsUpTo(d, k)| == |ErrorsUpTo(d, k - 1)| + |TreeErrors(c)|;
    } else {
      assert ErrorsUpTo(d, k) == [];
    }
  }

  /** Failures only ever lose data. */
  lemma {:induction false} NeverOvercounts(d: Dir)
    ensures Tree(d).size <= TreeBytes(d)
    ensures Tree(d).count <= TreeFiles(d)
    decreases d, 1
  {
    ReadableCountBound(d.files.items);
    ChildrenNeverOvercount(d, |d.subdirs.items|);
  }

  lemma {:induction false} ChildrenNeverOvercount(d: Dir, k: nat)
    requires k <= |d.subdirs.items|
    ensures TreeUpTo(d, k).size <= BytesOf(d.files.items) + ChildBytes(d, k)
    ensures TreeUpTo(d, k).count <= |d.files.items| + ChildFiles(d, k)
    decreases d, 0, k
  {
    if k > 0 {
      ChildrenNeverOvercount(d, k - 1);
      NeverOvercounts(d.subdirs.items[k - 1]);
    } else {
      ReadableCountBound(d.files.items);
    }
  }

  /** Without failures every file of the subtree is measured. */
  lemma {:induction false} HealthyMeasuresWholeTree(d: Dir)
    requires Healthy(d)
    ensures Tree(d).size == TreeBytes(d) && Tree(d).count == TreeFiles(d)
    decreases d, 1
  {
    HealthyChildren(d, |d.subdirs.items|);
  }

  lemma {:induction false} HealthyChildren(d: Dir, k: nat)
    requires Healthy(d) && k <= |d.subdirs.items|
    ensures TreeUpTo(d, k).size == BytesOf(d.files.items) + ChildBytes(d, k)
    ensures TreeUpTo(d, k).count == |d.files.items| + ChildFiles(d, k)
    decreases d, 0, k
  {
    if k > 0 {
      HealthyChildren(d, k - 1);
      HealthyMeasuresWholeTree(d.subdirs.items[k - 1]);
    } else {
      AllReadableSums(d.files.items);
    }
  }

  /** A file whose length cannot be read is skipped: the others still count. */
  lemma UnreadableFileSkipped(d: Dir, k: nat)
    requires d.files.Complete? && d.subdirs.Complete?
    requires k < |d.files.items| && d.files.items[k].length.Unreadable?
    ensures CurrentStats(d).count < |d.files.items|
    ensures CurrentStats(d).size == BytesOf(d.files.items)
  {
    var files := d.files.items;
    assert files == files[..k] + [files[k]] + files[k + 1..];
    SumOfConcat(files[..k] + [files[k]], files[k + 1..], ReadableOne);
    SumOfConcat(files[..k], [files[k]], ReadableOne);
    assert SumOf([files[k]], ReadableOne) == 0 by {
      assert [files[k]][..0] == [];
    }
    ReadableCountBound(files[..k]);
    ReadableCountBound(files[k + 1..]);
  }

  /** Tree and TreeErrors as values to map over a list of directories
      (kept apart so that the recursive definitions stay first-order). */
  function SubtreeStats(d: Dir): Stats { Tree(d) }

  function SubtreeErrors(d: Dir): seq<ErrorInfo> { TreeErrors(d) }

  function TreeSize(d: Dir): nat { Tree(d).size }

  function TreeCount(d: Dir): nat { Tree(d).count }

  /** The repository: `_totalDirectoryStats` (null until Analyze runs),
      `_errors` and `_counter`. */
  class DirectoryRepository {
    const root: Dir
    const errors: ErrorLog
    var totalDirectoryStats: Option<Stats>
    var counter: nat

    constructor (root: Dir)
      ensures this.root == root && fresh(errors) && errors.entries == []
      ensures totalDirectoryStats == None && counter == 0
    {
      this.root := root;
      errors := new ErrorLog();
      totalDirectoryStats, counter := None, 0;
    }

    /** `new DirectoryRepository(rootPath)`: DirectoryNotFoundException for
        a path that does not exist. */
    static method Open(path: string, fs: FileSystem) returns (r: Result<DirectoryRepository, Exception>)
      ensures r.Err? <==> path !in fs
      ensures r.Err? ==> r.error == DirectoryNotFound(path)
      ensures r.Ok? ==> fresh(r.value) && fresh(r.value.errors) && r.value.root == fs[path]
      ensures r.Ok? ==> r.value.errors.entries == [] && r.value.counter == 0 && r.value.totalDirectoryStats == None
    {
      if path !in fs {
        return Err(DirectoryNotFound(path));
      }
      var repo := new DirectoryRepository(fs[path]);
      r := Ok(repo);
    }

    /** Display: the statistics shown, the empty ones when Analyze never ran. */
    method DisplayedStats() returns (s: Stats)
      ensures totalDirectoryStats.Some? ==> s == totalDirectoryStats.value
      ensures totalDirectoryStats.None? ==> s == EmptyStats("")
    {
      s := if totalDirectoryStats.Some? then totalDirectoryStats.value else EmptyStats("");
    }

    /** The workers of Parallel.ForEach, finishing in the order `schedule`:
        each measures its subdirectory, then under the lock counts it and
        adds its statistics to the root's. */
    method MergeWorkers(schedule: seq<Dir>)
      requires totalDirectoryStats.Some?
      modifies this, errors
      ensures totalDirectoryStats.Some?
      ensures var before, after := old(totalDirectoryStats).value, totalDirectoryStats.value;
        && after.path == before.path && after.lastModified == before.lastModified
        && after.subdirectories == before.subdirectories + MapSeq(schedule, SubtreeStats)
        && after.size == before.size + SumOf(schedule, TreeSize)
        && after.count == before.count + SumOf(schedule, TreeCount)
      ensures errors.entries == old(errors.entries) + FlatMap(schedule, SubtreeErrors)
      ensures counter == old(counter) + |schedule|
    {
      ghost var start, errors0, counter0 := totalDirectoryStats.value, errors.entries, counter;
      var i := 0;
      while i < |schedule|
        invariant 0 <= i <= |schedule|
        invariant totalDirectoryStats.Some?
        invariant totalDirectoryStats.value.path == start.path && totalDirectoryStats.value.lastModified == start.lastModified
        invariant totalDirectoryStats.value.subdirectories == start.subdirectories + MapSeq(schedule[..i], SubtreeStats)
        invariant totalDirectoryStats.value.size == start.size + SumOf(schedule[..i], TreeSize)
        invariant totalDirectoryStats.value.count == start.count + SumOf(schedule[..i], TreeCount)
        invariant errors.entries == errors0 + FlatMap(schedule[..i], SubtreeErrors)
        invariant counter == counter0 + i
      {
        MapSeqAppend(start.subdirectories, schedule, i, SubtreeStats);
        FlatMapAppend(errors0, schedule, i, SubtreeErrors);
        SumOfStep(schedule, i, TreeSize);
        SumOfStep(schedule, i, TreeCount);
        var stats := GetDirectorySize(schedule[i], errors);
        counter := counter + 1;
        totalDirectoryStats := Some(Grow(totalDirectoryStats.value, stats));
        i := i + 1;
      }
      assert schedule[..i] == schedule;
    }

    /** Analyze: ToList() on the root's subdirectories throws first when that
        enumeration fails; otherwise the root's own statistics (which never
        throw) are taken and every worker's tree is added under them. */
    method Analyze(schedule: seq<Dir>) returns (outcome: Outcome<Exception>)
      requires multiset(schedule) == multiset(root.subdirs.items)
      modifies this, errors
      ensures outcome == if root.subdirs.Complete? then Pass else Fail(IOError(root.subdirs.message))
      ensures outcome.Fail? ==>
        totalDirectoryStats == old(totalDirectoryStats) && errors.entries == old(errors.entries) && counter == old(counter)
      ensures outcome.Pass? ==> totalDirectoryStats.Some?
      ensures outcome.Pass? && totalDirectoryStats.Some? ==>
                var total, own := totalDirectoryStats.value, CurrentStats(root);
                && total.path == root.path && total.lastModified == own.lastModified
                && total.subdirectories == MapSeq(schedule, SubtreeStats)
                && total.size == own.size + SumOf(schedule, TreeSize)
                && total.count == own.count + SumOf(schedule, TreeCount)
      ensures outcome.Pass? ==> errors.entries == old(errors.entries) + FlatMap(schedule, SubtreeErrors)
      ensures outcome.Pass? ==> counter == old(counter) + |schedule|
    {
      if root.subdirs.Truncated? {
        return Fail(IOError(root.subdirs.message));
      }
      var own := GetCurrentDirectoryStats(root);
      totalDirectoryStats := Some(own);
      MergeWorkers(schedule);
      outcome := Pass;
    }
  }

  /** With a root enumeration that succeeds, Analyze's totals are those of
      one recursive GetDirectorySize of the root, whatever order the
      workers finish in, and its errors are that call's, in some order. */
  lemma AnalyzeIsRecursive(root: Dir, schedule: seq<Dir>)
    requires multiset(schedule) == multiset(root.subdirs.items)
    requires root.subdirs.Complete?
    ensures CurrentStats(root).size + SumOf(schedule, TreeSize) == Tree(root).size
    ensures CurrentStats(root).count + SumOf(schedule, TreeCount) == Tree(root).count
    ensures multiset(FlatMap(schedule, SubtreeErrors)) == multiset(TreeErrors(root))
  {
    var items := root.subdirs.items;
    var n := |items|;
    assert items[..n] == items;
    TreeShape(root);
    assert SumOf(MapSeq(items, SubtreeStats), StatsSize) == SumOf(schedule, TreeSize) by {
      MapSeqIndex(items, SubtreeStats);
      SumOfPointwise(MapSeq(items, SubtreeStats), items, StatsSize, TreeSize);
      SumOfPermutation(schedule, items, TreeSize);
    }
    assert SumOf(MapSeq(items, SubtreeStats), StatsCount) == SumOf(schedule, TreeCount) by {
      MapSeqIndex(items, SubtreeStats);
      SumOfPointwise(MapSeq(items, SubtreeStats), items, StatsCount, TreeCount);
      SumOfPermutation(schedule, items, TreeCount);
    }
    assert multiset(FlatMap(schedule, SubtreeErrors)) == multiset(TreeErrors(root)) by {
      ErrorsClosedForm(root, n);
      FlatMapPermutation(schedule, items, SubtreeErrors);
      assert TreeErrors(root) == ErrorsUpTo(root, n) + [];
    }
  }

  lemma {:induction false} ErrorsClosedForm(d: Dir, k: nat)
    requires k <= |d.subdirs.items|
    ensures ErrorsUpTo(d, k) == FlatMap(d.subdirs.items[..k], SubtreeErrors)
    decreases k
  {
    if k > 0 {
      ErrorsClosedForm(d, k - 1);
      FlatMapTake(d.subdirs.items, k, SubtreeErrors);
    }
  }
}
