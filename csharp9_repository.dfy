/** csharp9/DirectoryRepository.cs: the root is measured on its own files,
    then every subdirectory recursively. Each of the two try blocks of
    getDirectorySize logs at most one error and swallows it. */
module CSharp9Repository {
  import opened Seqs
  import opened FileSystem

  /** The first try block: files.Count() enumerates the listing, then
      files.Sum(...) enumerates it again and reads every length. Either
      failure logs one error; a failing Sum leaves the count in place. */
  function OwnFiles(d: Dir): (m: Measure)
    ensures |m.errors| <= 1
    ensures m.errors == [] <==> d.files.Complete? && AllReadable(d.files.items)
    ensures forall i :: 0 <= i < |m.errors| ==> m.errors[i].path == d.path
    ensures m.errors == [] ==> m.size == BytesOf(d.files.items) && m.count == |d.files.items|
    ensures m.errors != [] ==> m.size == 0
  {
    if d.files.Truncated? then Measure(0, 0, [ErrorInfo(d.path, d.files.message)])
    else
      var k := FirstUnreadable(d.files.items);
      if k < |d.files.items| then
        Measure(0, |d.files.items|, [ErrorInfo(d.path, d.files.items[k].length.message)])
      else Measure(BytesOf(d.files.items), |d.files.items|, [])
  }

  /** getDirectorySize(path, recurse): own files, then every child the
      listing yields, then the listing's own failure. */
  function DirectorySize(d: Dir, recurse: bool): Measure
    decreases d, 1
  {
    if !recurse then OwnFiles(d)
    else Then(Then(OwnFiles(d), ChildrenUpTo(d, |d.subdirs.items|)), ListingFailure(d))
  }

  /** The recursive measurements of the first k subdirectories, one after another. */
  function ChildrenUpTo(d: Dir, k: nat): Measure
    requires k <= |d.subdirs.items|
    decreases d, 0, k
  {
    if k == 0 then Measure(0, 0, [])
    else Then(ChildrenUpTo(d, k - 1), DirectorySize(d.subdirs.items[k - 1], true))
  }

  function RecursiveSize(d: Dir): nat { DirectorySize(d, true).size }

  function RecursiveCount(d: Dir): nat { DirectorySize(d, true).count }

  function RecursiveErrors(d: Dir): seq<ErrorInfo> { DirectorySize(d, true).errors }

  /** The entry `Run` records for a subdirectory. */
  function Entry(d: Dir): Stat
  {
    Stat(d.path, RecursiveSize(d), RecursiveCount(d))
  }

  /** The first try block of getDirectorySize. */
  method MeasureOwnFiles(d: Dir, log: ErrorLog) returns (size: nat, count: nat)
    modifies log
    ensures size == OwnFiles(d).size && count == OwnFiles(d).count
    ensures log.entries == old(log.entries) + OwnFiles(d).errors
  {
    size, count := 0, 0;
    if d.files.Truncated? {
      log.Add(ErrorInfo(d.path, d.files.message));
      return;
    }
    var files := d.files.items;
    count := |files|;
    var sum := 0;
    var i := 0;
    while i < |files|
      invariant 0 <= i <= |files|
      invariant forall k :: 0 <= k < i ==> files[k].length.Bytes?
      invariant sum == BytesOf(files[..i])
      invariant log.entries == old(log.entries)
    {
      if files[i].length.Unreadable? {
        break;
      }
      SumOfStep(files, i, ReadableLength);
      sum := sum + files[i].length.n;
      i := i + 1;
    }
    FirstUnreadableAt(files, i);
    if i < |files| {
      log.Add(ErrorInfo(d.path, files[i].length.message));
    } else {
      assert files[..i] == files;
      size := sum;
    }
  }

  method GetDirectorySize(d: Dir, recurse: bool, log: ErrorLog) returns (size: nat, count: nat)
    modifies log
    ensures size == DirectorySize(d, recurse).size && count == DirectorySize(d, recurse).count
    ensures log.entries == old(log.entries) + DirectorySize(d, recurse).errors
    decreases d, 1
  {
    size, count := MeasureOwnFiles(d, log);
    if recurse {
      var s, c := MeasureChildren(d, log);
      size, count := size + s, count + c;
      ThreeBlocks(old(log.entries), OwnFiles(d), ChildrenUpTo(d, |d.subdirs.items|), ListingFailure(d));
    }
  }

  /** The sums and the log of the two try blocks, the second ending with
      the listing's failure. */
  lemma ThreeBlocks(p: seq<ErrorInfo>, own: Measure, children: Measure, failure: Measure)
    ensures Then(Then(own, children), failure).size == own.size + children.size + failure.size
    ensures Then(Then(own, children), failure).count == own.count + children.count + failure.count
    ensures p + Then(Then(own, children), failure).errors == p + own.errors + children.errors + failure.errors
  {
  }

  /** One more child measured, behind the errors logged before the loop. */
  lemma ChildrenAppend(p: seq<ErrorInfo>, d: Dir, j: nat)
    requires j < |d.subdirs.items|
    ensures ChildrenUpTo(d, j + 1).size == ChildrenUpTo(d, j).size + DirectorySize(d.subdirs.items[j], true).size
    ensures ChildrenUpTo(d, j + 1).count == ChildrenUpTo(d, j).count + DirectorySize(d.subdirs.items[j], true).count
    ensures (p + ChildrenUpTo(d, j).errors) + DirectorySize(d.subdirs.items[j], true).errors == p + ChildrenUpTo(d, j + 1).errors
  {
  }

  /** The second try block: every child the listing yields, then the
      listing's own failure. */
  method MeasureChildren(d: Dir, log: ErrorLog) returns (size: nat, count: nat)
    modifies log
    ensures size == ChildrenUpTo(d, |d.subdirs.items|).size && count == ChildrenUpTo(d, |d.subdirs.items|).count
    ensures log.entries == old(log.entries) + ChildrenUpTo(d, |d.subdirs.items|).errors + ListingFailure(d).errors
    decreases d, 0
  {
    size, count := 0, 0;
    var subdirs := d.subdirs.items;
    var j := 0;
    while j < |subdirs|
      invariant 0 <= j <= |subdirs|
      invariant size == ChildrenUpTo(d, j).size && count == ChildrenUpTo(d, j).count
      invariant log.entries == old(log.entries) + ChildrenUpTo(d, j).errors
    {
      ChildrenAppend(old(log.entries), d, j);
      var s, c := GetDirectorySize(subdirs[j], true, log);
      size, count := size + s, count + c;
      j := j + 1;
    }
    if d.subdirs.Truncated? {
      log.Add(ErrorInfo(d.path, d.subdirs.message));
    }
  }

  /** Without failures the recursive measure is the whole subtree and nothing is logged. */
  lemma {:induction false} HealthyMeasuresWholeTree(d: Dir)
    requires Healthy(d)
    ensures DirectorySize(d, true) == Measure(TreeBytes(d), TreeFiles(d), [])
    decreases d, 1
  {
    HealthyChildren(d, |d.subdirs.items|);
  }

  lemma {:induction false} HealthyChildren(d: Dir, k: nat)
    requires Healthy(d) && k <= |d.subdirs.items|
    ensures ChildrenUpTo(d, k) == Measure(ChildBytes(d, k), ChildFiles(d, k), [])
    decreases d, 0, k
  {
    if k > 0 {
      HealthyChildren(d, k - 1);
      HealthyMeasuresWholeTree(d.subdirs.items[k - 1]);
    }
  }

  /** The log stays empty exactly when no enumeration and no lookup in the subtree fails. */
  lemma {:induction false} NoErrorsIffHealthy(d: Dir)
    ensures DirectorySize(d, true).errors == [] <==> Healthy(d)
    decreases d, 1
  {
    ChildrenNoErrors(d, |d.subdirs.items|);
  }

  lemma {:induction false} ChildrenNoErrors(d: Dir, k: nat)
    requires k <= |d.subdirs.items|
    ensures ChildrenUpTo(d, k).errors == [] <==> forall i :: 0 <= i < k ==> Healthy(d.subdirs.items[i])
    decreases d, 0, k
  {
    if k > 0 {
      ChildrenNoErrors(d, k - 1);
      NoErrorsIffHealthy(d.subdirs.items[k - 1]);
    }
  }

  /** A call logs at most one error per try block it runs in every directory it visits. */
  lemma {:induction false} ErrorsBounded(d: Dir)
    ensures |DirectorySize(d, false).errors| <= 1
    ensures |DirectorySize(d, true).errors| <= 2 * NodeCount(d)
    decreases d, 1
  {
    ChildrenErrorsBounded(d, |d.subdirs.items|);
  }

  lemma {:induction false} ChildrenErrorsBounded(d: Dir, k: nat)
    requires k <= |d.subdirs.items|
    ensures |ChildrenUpTo(d, k).errors| <= 2 * ChildNodes(d, k)
    decreases d, 0, k
  {
    if k > 0 {
      ChildrenErrorsBounded(d, k - 1);
      ErrorsBounded(d.subdirs.items[k - 1]);
    }
  }

  /** Failures only ever lose data. */
  lemma {:induction false} NeverOvercounts(d: Dir)
    ensures DirectorySize(d, true).size <= TreeBytes(d)
    ensures DirectorySize(d, true).count <= TreeFiles(d)
    decreases d, 1
  {
    ChildrenNeverOvercount(d, |d.subdirs.items|);
  }

  lemma {:induction false} ChildrenNeverOvercount(d: Dir, k: nat)
    requires k <= |d.subdirs.items|
    ensures ChildrenUpTo(d, k).size <= ChildBytes(d, k)
    ensures ChildrenUpTo(d, k).count <= ChildFiles(d, k)
    decreases d, 0, k
  {
    if k > 0 {
      ChildrenNeverOvercount(d, k - 1);
      NeverOvercounts(d.subdirs.items[k - 1]);
    }
  }

  /** A length lookup that throws inside Sum leaves the size at 0, keeps
      the full count, and logs that lookup's message. */
  lemma UnreadableFileKeepsCount(d: Dir, k: nat)
    requires d.files.Complete?
    requires k < |d.files.items| && d.files.items[k].length.Unreadable?
    requires forall i :: 0 <= i < k ==> d.files.items[i].length.Bytes?
    ensures DirectorySize(d, false) == Measure(0, |d.files.items|, [ErrorInfo(d.path, d.files.items[k].length.message)])
  {
    FirstUnreadableAt(d.files.items, k);
  }

  /** A subdirectory listing that throws after k children keeps their sums
      and their errors, and logs one more error for the directory itself. */
  lemma {:induction false} TruncatedSubdirsKeepYielded(d: Dir)
    requires d.subdirs.Truncated?
    ensures var whole := DirectorySize(d.(subdirs := Complete(d.subdirs.items)), true);
      && DirectorySize(d, true).size == whole.size
      && DirectorySize(d, true).count == whole.count
      && DirectorySize(d, true).errors == whole.errors + [ErrorInfo(d.path, d.subdirs.message)]
  {
    SameChildren(d, d.(subdirs := Complete(d.subdirs.items)), |d.subdirs.items|);
  }

  lemma {:induction false} SameChildren(d: Dir, e: Dir, k: nat)
    requires d.subdirs.items == e.subdirs.items && k <= |d.subdirs.items|
    ensures ChildrenUpTo(d, k) == ChildrenUpTo(e, k)
    decreases k
  {
    if k > 0 {
      SameChildren(d, e, k - 1);
    }
  }

  /** The children's measurement, written over the children's results. */
  lemma {:induction false} ChildrenClosedForm(d: Dir, k: nat)
    requires k <= |d.subdirs.items|
    ensures ChildrenUpTo(d, k).size == SumOf(d.subdirs.items[..k], RecursiveSize)
    ensures ChildrenUpTo(d, k).count == SumOf(d.subdirs.items[..k], RecursiveCount)
    ensures ChildrenUpTo(d, k).errors == FlatMap(d.subdirs.items[..k], RecursiveErrors)
    decreases k
  {
    if k > 0 {
      ChildrenClosedForm(d, k - 1);
      SumOfTake(d.subdirs.items, k, RecursiveSize);
      SumOfTake(d.subdirs.items, k, RecursiveCount);
      FlatMapTake(d.subdirs.items, k, RecursiveErrors);
    }
  }

  /** The merged totals and the logged errors do not depend on the order in
      which the workers finish. */
  lemma MergeOrderIrrelevant(root: Dir, schedule: seq<Dir>)
    requires multiset(schedule) == multiset(root.subdirs.items)
    ensures SumOf(schedule, RecursiveSize) == ChildrenUpTo(root, |root.subdirs.items|).size
    ensures SumOf(schedule, RecursiveCount) == ChildrenUpTo(root, |root.subdirs.items|).count
    ensures multiset(FlatMap(schedule, RecursiveErrors)) == multiset(ChildrenUpTo(root, |root.subdirs.items|).errors)
  {
    ChildrenClosedForm(root, |root.subdirs.items|);
    assert root.subdirs.items[..|root.subdirs.items|] == root.subdirs.items;
    SumOfPermutation(schedule, root.subdirs.items, RecursiveSize);
    SumOfPermutation(schedule, root.subdirs.items, RecursiveCount);
    FlatMapPermutation(schedule, root.subdirs.items, RecursiveErrors);
  }

  /** With a root listing that succeeds, the root's own files plus every
      worker's result is one recursive measurement of the root: the same
      totals and the same errors, in some order. */
  lemma CompleteRunIsRecursive(root: Dir, schedule: seq<Dir>)
    requires multiset(schedule) == multiset(root.subdirs.items)
    requires root.subdirs.Complete?
    ensures OwnFiles(root).size + SumOf(schedule, RecursiveSize) == DirectorySize(root, true).size
    ensures OwnFiles(root).count + SumOf(schedule, RecursiveCount) == DirectorySize(root, true).count
    ensures multiset(OwnFiles(root).errors + FlatMap(schedule, RecursiveErrors)) == multiset(DirectorySize(root, true).errors)
  {
    MergeOrderIrrelevant(root, schedule);
    assert DirectorySize(root, true).errors == OwnFiles(root).errors + ChildrenUpTo(root, |root.subdirs.items|).errors;
  }

  /** The repository: `_repository`, `_errors`, `counter`, `total_size`,
      `total_count`, and the directory tree found at `_rootPath`. */
  class DirectoryRepository {
    const root: Dir
    const errors: ErrorLog
    var repository: seq<Stat>
    var counter: nat
    var totalSize: nat
    var totalCount: nat

    constructor (root: Dir)
      ensures this.root == root && fresh(errors) && errors.entries == []
      ensures repository == [] && counter == 0 && totalSize == 0 && totalCount == 0
    {
      this.root := root;
      errors := new ErrorLog();
      repository, counter, totalSize, totalCount := [], 0, 0, 0;
    }

    /** `new DirectoryRepository(path)`: throws DirectoryNotFoundException
        for a path that does not exist. */
    static method Open(path: string, fs: FileSystem) returns (r: Result<DirectoryRepository, Exception>)
      ensures r.Err? <==> path !in fs
      ensures r.Err? ==> r.error == DirectoryNotFound(path)
      ensures r.Ok? ==> fresh(r.value) && fresh(r.value.errors) && r.value.root == fs[path]
      ensures r.Ok? ==> r.value.repository == [] && r.value.errors.entries == []
      ensures r.Ok? ==> r.value.counter == 0 && r.value.totalSize == 0 && r.value.totalCount == 0
    {
      if path !in fs {
        return Err(DirectoryNotFound(path));
      }
      var repo := new DirectoryRepository(fs[path]);
      r := Ok(repo);
    }

    /** The body of one worker: measure `sub` recursively (logging its
        errors), then, under the lock, record it, count it and add it. */
    method MergeWorker(sub: Dir)
      modifies this, errors
      ensures repository == old(repository) + [Entry(sub)]
      ensures errors.entries == old(errors.entries) + RecursiveErrors(sub)
      ensures counter == old(counter) + 1
      ensures totalSize == old(totalSize) + RecursiveSize(sub)
      ensures totalCount == old(totalCount) + RecursiveCount(sub)
    {
      var size, count := GetDirectorySize(sub, true, errors);
      repository := repository + [Stat(sub.path, size, count)];
      counter := counter + 1;
      totalSize, totalCount := totalSize + size, totalCount + count;
    }

    /** The workers of Parallel.ForEach, finishing in the order `schedule`. */
    method MergeWorkers(schedule: seq<Dir>)
      modifies this, errors
      ensures repository == old(repository) + MapSeq(schedule, Entry)
      ensures errors.entries == old(errors.entries) + FlatMap(schedule, RecursiveErrors)
      ensures counter == old(counter) + |schedule|
      ensures totalSize == old(totalSize) + SumOf(schedule, RecursiveSize)
      ensures totalCount == old(totalCount) + SumOf(schedule, RecursiveCount)
    {
      ghost var repository0, errors0 := repository, errors.entries;
      ghost var counter0, size0, count0 := counter, totalSize, totalCount;
      var i := 0;
      while i < |schedule|
        invariant 0 <= i <= |schedule|
        invariant repository == repository0 + MapSeq(schedule[..i], Entry)
        invariant errors.entries == errors0 + FlatMap(schedule[..i], RecursiveErrors)
        invariant counter == counter0 + i
        invariant totalSize == size0 + SumOf(schedule[..i], RecursiveSize)
        invariant totalCount == count0 + SumOf(schedule[..i], RecursiveCount)
      {
        MergeWorker(schedule[i]);
        MapSeqAppend(repository0, schedule, i, Entry);
        FlatMapAppend(errors0, schedule, i, RecursiveErrors);
        SumOfStep(schedule, i, RecursiveSize);
        SumOfStep(schedule, i, RecursiveCount);
        i := i + 1;
      }
      assert schedule[..i] == schedule;
    }

    /** Run: the root's own files seed the totals and the first entry;
        counting the root's subdirectories then throws if that listing
        fails; otherwise every worker merges. With a listing that succeeds
        the totals and errors are those of one recursive measurement of the
        root (CompleteRunIsRecursive). */
    method Run(schedule: seq<Dir>) returns (outcome: Outcome<Exception>)
      requires multiset(schedule) == multiset(root.subdirs.items)
      modifies this, errors
      ensures outcome == if root.subdirs.Complete? then Pass else Fail(IOError(root.subdirs.message))
      ensures root.subdirs.Truncated? ==>
        && repository == old(repository) + [Stat(root.path, OwnFiles(root).size, OwnFiles(root).count)]
        && errors.entries == old(errors.entries) + OwnFiles(root).errors
        && counter == old(counter)
        && totalSize == OwnFiles(root).size && totalCount == OwnFiles(root).count
      ensures root.subdirs.Complete? ==>
        && repository == old(repository) + [Stat(root.path, OwnFiles(root).size, OwnFiles(root).count)] + MapSeq(schedule, Entry)
        && errors.entries == old(errors.entries) + OwnFiles(root).errors + FlatMap(schedule, RecursiveErrors)
        && counter == old(counter) + |schedule|
        && totalSize == OwnFiles(root).size + SumOf(schedule, RecursiveSize)
        && totalCount == OwnFiles(root).count + SumOf(schedule, RecursiveCount)
    {
      var s, c := GetDirectorySize(root, false, errors);
      totalSize, totalCount := s, c;
      repository := repository + [Stat(root.path, s, c)];
      if root.subdirs.Truncated? {
        return Fail(IOError(root.subdirs.message));
      }
      MergeWorkers(schedule);
      outcome := Pass;
    }
  }
}
