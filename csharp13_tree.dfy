/** csharp13/DirectorySize/DirectoryRepository.cs: the same traversal as
    csharp13/Common, but every directory's statistics keep the statistics
    of the subdirectories that were measured, so a run builds a tree. */
module CSharp13Tree {
  import opened Seqs
  import opened FileSystem
  import Common = CommonRepository

  /** DirectoryStatistics with its Subdirectories list. */
  datatype Stats = Stats(path: string, size: nat, count: nat, subdirectories: seq<Stats>)

  function StatsSize(s: Stats): nat { s.size }

  function StatsCount(s: Stats): nat { s.count }

  /** One subdirectory added under the lock or in the foreach: its file
      count and size are added and its statistics appended. */
  function Grow(s: Stats, child: Stats): (r: Stats)
    ensures r.path == s.path && r.subdirectories == s.subdirectories + [child]
    ensures r.size == s.size + child.size && r.count == s.count + child.count
  {
    Stats(s.path, s.size + child.size, s.count + child.count, s.subdirectories + [child])
  }

  /** The current statistics after `children` were added one by one, as
      the foreach does and as the workers do under the lock. */
  function GrowAll(s: Stats, children: seq<Stats>): Stats
  {
    if children == [] then s else Grow(GrowAll(s, children[..|children| - 1]), children[|children| - 1])
  }

  /** Adding children one by one keeps the path, appends
      them in order and adds up their sizes and file counts. */
  lemma {:induction false} GrowAllTotals(s: Stats, children: seq<Stats>)
    ensures GrowAll(s, children).path == s.path
    ensures GrowAll(s, children).subdirectories == s.subdirectories + children
    ensures GrowAll(s, children).size == s.size + SumOf(children, StatsSize)
    ensures GrowAll(s, children).count == s.count + SumOf(children, StatsCount)
    decreases |children|
  {
    if children != [] {
      var n := |children| - 1;
      GrowAllTotals(s, children[..n]);
      assert children[..n] + [children[n]] == children;
    }
  }

  /** The totals do not depend on the order the children are added in. */
  lemma GrowOrderIrrelevant(s: Stats, children: seq<Stats>, reordered: seq<Stats>)
    requires multiset(reordered) == multiset(children)
    ensures GrowAll(s, reordered).size == GrowAll(s, children).size
    ensures GrowAll(s, reordered).count == GrowAll(s, children).count
  {
    GrowAllTotals(s, children);
    GrowAllTotals(s, reordered);
    SumOfPermutation(reordered, children, StatsSize);
    SumOfPermutation(reordered, children, StatsCount);
  }

  /** GetCurrentDirectoryFileSize: Sum() runs before Count(). The `is var`
      pattern always matches, so its fallback branch is never taken. */
  function CurrentStats(d: Dir): (r: Result<Stats, string>)
    ensures r.Ok? <==> Common.OwnFiles(d, Common.SumFirst).Ok?
    ensures r.Ok? ==> r.value == Stats(d.path, BytesOf(d.files.items), |d.files.items|, [])
    ensures r.Err? ==> r.error == Common.OwnFiles(d, Common.SumFirst).error
  {
    match Common.OwnFiles(d, Common.SumFirst)
    case Ok(own) => Ok(Stats(d.path, own.size, own.count, []))
    case Err(message) => Err(message)
  }

  /** GetDirectorySize(path): the statistics the call returns. */
  function Tree(d: Dir): Stats
    decreases d, 1
  {
    match CurrentStats(d)
    case Err(_) => Stats(d.path, 0, 0, [])
    case Ok(own) => TreeUpTo(d, own, |d.subdirs.items|)
  }

  /** The current statistics after the first k subdirectories were added. */
  function TreeUpTo(d: Dir, own: Stats, k: nat): Stats
    requires k <= |d.subdirs.items|
    decreases d, 0, k
  {
    if k == 0 then own else Grow(TreeUpTo(d, own, k - 1), Tree(d.subdirs.items[k - 1]))
  }

  method GetDirectorySize(d: Dir, log: ErrorLog) returns (s: Stats)
    modifies log
    ensures s.path == Tree(d).path && s.size == Tree(d).size && s.count == Tree(d).count
    ensures s.subdirectories == Tree(d).subdirectories
    ensures log.entries == old(log.entries) + Common.DirectorySize(d, Common.SumFirst).errors
    decreases d, 1
  {
    var current := CurrentStats(d);
    if current.Err? {
      log.Add(ErrorInfo(d.path, current.error));
      return Stats(d.path, 0, 0, []);
    }
    Common.DirectorySizeAfterOwnFiles(d, Common.SumFirst);
    s := AddSubdirectories(d, current.value, log);
  }

  /** The foreach of GetDirectorySize, inside the try block. */
  method AddSubdirectories(d: Dir, own: Stats, log: ErrorLog) returns (s: Stats)
    modifies log
    ensures var t := TreeUpTo(d, own, |d.subdirs.items|);
      s.path == t.path && s.size == t.size && s.count == t.count && s.subdirectories == t.subdirectories
    ensures log.entries == old(log.entries) + Common.ChildrenUpTo(d, Common.SumFirst, |d.subdirs.items|).errors + ListingFailure(d).errors
    decreases d, 0
  {
    s := own;
    var subdirs := d.subdirs.items;
    var j := 0;
    while j < |subdirs|
      invariant 0 <= j <= |subdirs|
      invariant s == TreeUpTo(d, own, j)
      invariant log.entries == old(log.entries) + Common.ChildrenUpTo(d, Common.SumFirst, j).errors
    {
      Common.ChildrenAppend(old(log.entries), d, Common.SumFirst, j);
      ghost var next := TreeUpTo(d, own, j + 1);
      assert next == Grow(s, Tree(subdirs[j]));
      var stats := GetDirectorySize(subdirs[j], log);
      s := Grow(s, stats);
      assert s == next;
      j := j + 1;
    }
    if d.subdirs.Truncated? {
      log.Add(ErrorInfo(d.path, d.subdirs.message));
    }
  }

  /** The tree's totals are the totals of csharp13/Common's traversal. */
  lemma {:induction false} TreeAgreesWithTotals(d: Dir)
    ensures Tree(d).size == Common.DirectorySize(d, Common.SumFirst).size
    ensures Tree(d).count == Common.DirectorySize(d, Common.SumFirst).count
    ensures Tree(d).path == d.path
    decreases d, 1
  {
    if Common.OwnFiles(d, Common.SumFirst).Ok? {
      Common.DirectorySizeAfterOwnFiles(d, Common.SumFirst);
      PartialTreeAgrees(d, CurrentStats(d).value, |d.subdirs.items|);
    }
  }

  lemma {:induction false} PartialTreeAgrees(d: Dir, own: Stats, k: nat)
    requires k <= |d.subdirs.items|
    ensures TreeUpTo(d, own, k).size == own.size + Common.ChildrenUpTo(d, Common.SumFirst, k).size
    ensures TreeUpTo(d, own, k).count == own.count + Common.ChildrenUpTo(d, Common.SumFirst, k).count
    ensures TreeUpTo(d, own, k).path == own.path
    decreases d, 0, k
  {
    if k > 0 {
      PartialTreeAgrees(d, own, k - 1);
      TreeAgreesWithTotals(d.subdirs.items[k - 1]);
    }
  }

  /** Every node's totals are its own files plus the totals of the
      subdirectories it lists, and it lists the trees of the subdirectories
      the enumeration yielded, in order; a directory whose files cannot be
      measured lists none. */
  lemma {:induction false} TreeShape(d: Dir)
    ensures Common.OwnFiles(d, Common.SumFirst).Ok? ==>
      && Tree(d).subdirectories == MapSeq(d.subdirs.items, SubtreeStats)
      && Tree(d).size == BytesOf(d.files.items) + SumOf(Tree(d).subdirectories, StatsSize)
      && Tree(d).count == |d.files.items| + SumOf(Tree(d).subdirectories, StatsCount)
    ensures Common.OwnFiles(d, Common.SumFirst).Err? ==> Tree(d) == Stats(d.path, 0, 0, [])
  {
    if Common.OwnFiles(d, Common.SumFirst).Ok? {
      var own := CurrentStats(d).value;
      var n := |d.subdirs.items|;
      PartialTreeShape(d, own, n);
      assert d.subdirs.items[..n] == d.subdirs.items;
    }
  }

  lemma {:induction false} PartialTreeShape(d: Dir, own: Stats, k: nat)
    requires k <= |d.subdirs.items|
    ensures TreeUpTo(d, own, k).subdirectories == own.subdirectories + MapSeq(d.subdirs.items[..k], SubtreeStats)
    ensures TreeUpTo(d, own, k).size == own.size + SumOf(MapSeq(d.subdirs.items[..k], SubtreeStats), StatsSize)
    ensures TreeUpTo(d, own, k).count == own.count + SumOf(MapSeq(d.subdirs.items[..k], SubtreeStats), StatsCount)
    decreases k
  {
    if k > 0 {
      var items := d.subdirs.items;
      var prefix := MapSeq(items[..k - 1], SubtreeStats);
      PartialTreeShape(d, own, k - 1);
      MapSeqStep(items, k - 1, SubtreeStats);
      assert MapSeq(items[..k], SubtreeStats) == prefix + [Tree(items[k - 1])];
      assert (prefix + [Tree(items[k - 1])])[..|prefix|] == prefix;
    }
  }

  /** Tree as a value to map over a list of directories (kept apart so
      that the recursive definition stays first-order). */
  function SubtreeStats(d: Dir): Stats { Tree(d) }

  function TreeSize(d: Dir): nat { Tree(d).size }

  function TreeCount(d: Dir): nat { Tree(d).count }

  /** The repository: `total_directory_stats`, `_errors`, `counter`. */
  class DirectoryRepository {
    const root: Dir
    const errors: ErrorLog
    var totalDirectoryStats: Stats
    var counter: nat

    constructor (root: Dir)
      ensures this.root == root && fresh(errors) && errors.entries == []
      ensures totalDirectoryStats == Stats("", 0, 0, []) && counter == 0
    {
      this.root := root;
      errors := new ErrorLog();
      totalDirectoryStats, counter := Stats("", 0, 0, []), 0;
    }

    /** `new DirectoryRepository(rootPath)`: DirectoryNotFoundException for
        a path that does not exist. */
    static method Open(path: string, fs: FileSystem) returns (r: Result<DirectoryRepository, Exception>)
      ensures r.Err? <==> path !in fs
      ensures r.Err? ==> r.error == DirectoryNotFound(path)
      ensures r.Ok? ==> fresh(r.value) && fresh(r.value.errors) && r.value.root == fs[path]
      ensures r.Ok? ==> r.value.errors.entries == [] && r.value.counter == 0
    {
      if path !in fs {
        return Err(DirectoryNotFound(path));
      }
      var repo := new DirectoryRepository(fs[path]);
      r := Ok(repo);
    }

    /** One worker of Parallel.ForEach: measure, then under the lock count
        the subdirectory and add its statistics to the root's. */
    method MergeWorker(sub: Dir)
      modifies this, errors
      ensures totalDirectoryStats == Grow(old(totalDirectoryStats), Tree(sub))
      ensures errors.entries == old(errors.entries) + Common.RecursiveErrors(Common.SumFirst)(sub)
      ensures counter == old(counter) + 1
    {
      var stats := GetDirectorySize(sub, errors);
      assert stats == Tree(sub);
      counter := counter + 1;
      totalDirectoryStats := Grow(totalDirectoryStats, stats);
    }

    method MergeWorkers(schedule: seq<Dir>)
      modifies this, errors
      ensures totalDirectoryStats.path == old(totalDirectoryStats).path
      ensures totalDirectoryStats.subdirectories == old(totalDirectoryStats).subdirectories + MapSeq(schedule, SubtreeStats)
      ensures totalDirectoryStats.size == old(totalDirectoryStats).size + SumOf(schedule, TreeSize)
      ensures totalDirectoryStats.count == old(totalDirectoryStats).count + SumOf(schedule, TreeCount)
      ensures errors.entries == old(errors.entries) + FlatMap(schedule, Common.RecursiveErrors(Common.SumFirst))
      ensures counter == old(counter) + |schedule|
    {
      ghost var start, errors0, counter0 := totalDirectoryStats, errors.entries, counter;
      var i := 0;
      while i < |schedule|
        invariant 0 <= i <= |schedule|
        invariant totalDirectoryStats.path == start.path
        invariant totalDirectoryStats.subdirectories == start.subdirectories + MapSeq(schedule[..i], SubtreeStats)
        invariant totalDirectoryStats.size == start.size + SumOf(schedule[..i], TreeSize)
        invariant totalDirectoryStats.count == start.count + SumOf(schedule[..i], TreeCount)
        invariant errors.entries == errors0 + FlatMap(schedule[..i], Common.RecursiveErrors(Common.SumFirst))
        invariant counter == counter0 + i
      {
        MergeWorker(schedule[i]);
        MapSeqAppend(start.subdirectories, schedule, i, SubtreeStats);
        FlatMapAppend(errors0, schedule, i, Common.RecursiveErrors(Common.SumFirst));
        SumOfStep(schedule, i, TreeSize);
        SumOfStep(schedule, i, TreeCount);
        i := i + 1;
      }
      assert schedule[..i] == schedule;
    }

    /** Analyze: counting the root's subdirectories throws first when that
        listing fails, then the root's own files throw when they fail;
        otherwise the root's statistics replace the totals and every
        worker's tree is added under them. */
    method Analyze(schedule: seq<Dir>) returns (outcome: Outcome<Exception>)
      requires multiset(schedule) == multiset(root.subdirs.items)
      modifies this, errors
      ensures root.subdirs.Truncated? ==> outcome == Fail(IOError(root.subdirs.message))
      ensures root.subdirs.Complete? && CurrentStats(root).Err? ==> outcome == Fail(IOError(CurrentStats(root).error))
      ensures outcome.Pass? <==> root.subdirs.Complete? && CurrentStats(root).Ok?
      ensures outcome.Fail? ==>
        totalDirectoryStats == old(totalDirectoryStats) && errors.entries == old(errors.entries) && counter == old(counter)
      ensures outcome.Pass? ==>
        && totalDirectoryStats.path == root.path
        && totalDirectoryStats.subdirectories == MapSeq(schedule, SubtreeStats)
        && totalDirectoryStats.size == BytesOf(root.files.items) + SumOf(schedule, TreeSize)
        && totalDirectoryStats.count == |root.files.items| + SumOf(schedule, TreeCount)
        && errors.entries == old(errors.entries) + FlatMap(schedule, Common.RecursiveErrors(Common.SumFirst))
        && counter == old(counter) + |schedule|
    {
      if root.subdirs.Truncated? {
        return Fail(IOError(root.subdirs.message));
      }
      var current := CurrentStats(root);
      if current.Err? {
        return Fail(IOError(current.error));
      }
      totalDirectoryStats := current.value;
      MergeWorkers(schedule);
      outcome := Pass;
    }
  }

  /** The totals Analyze leaves are those of one recursive measurement of
      the root, whatever order the workers finish in. */
  lemma AnalyzeIsRecursive(root: Dir, schedule: seq<Dir>)
    requires multiset(schedule) == multiset(root.subdirs.items)
    requires root.subdirs.Complete? && Common.OwnFiles(root, Common.SumFirst).Ok?
    ensures BytesOf(root.files.items) + SumOf(schedule, TreeSize) == Common.DirectorySize(root, Common.SumFirst).size
    ensures |root.files.items| + SumOf(schedule, TreeCount) == Common.DirectorySize(root, Common.SumFirst).count
  {
    Common.CompleteRunIsRecursive(root, Common.SumFirst, schedule);
    forall i | 0 <= i < |schedule|
      ensures TreeSize(schedule[i]) == Common.RecursiveSize(Common.SumFirst)(schedule[i])
      ensures TreeCount(schedule[i]) == Common.RecursiveCount(Common.SumFirst)(schedule[i])
    {
      TreeAgreesWithTotals(schedule[i]);
    }
    SumOfPointwise(schedule, schedule, TreeSize, Common.RecursiveSize(Common.SumFirst));
    SumOfPointwise(schedule, schedule, TreeCount, Common.RecursiveCount(Common.SumFirst));
  }
}
