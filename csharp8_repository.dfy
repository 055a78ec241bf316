/** csharp8/DirectoryRepository.cs: the root is measured on its own files,
    then every subdirectory is measured recursively and merged into the
    running totals. Failures are swallowed and nothing is logged. */
module CSharp8Repository {
  import opened Seqs
  import opened FileSystem

  /** The first try block of getDirectorySize: the file count is taken by
      files.Count() before any length is read, then lengths are added until
      the first lookup throws. A listing that throws makes Count() throw,
      so neither value is assigned. */
  function OwnFiles(d: Dir): Sums
  {
    if d.files.Truncated? then Sums(0, 0) else Sums(PrefixBytes(d.files.items), |d.files.items|)
  }

  /** The own-files measure never exceeds the listing, and is exact when
      nothing fails. */
  lemma OwnFilesBounds(d: Dir)
    ensures OwnFiles(d).size <= BytesOf(d.files.items) && OwnFiles(d).count <= |d.files.items|
    ensures d.files.Complete? && AllReadable(d.files.items) ==> OwnFiles(d) == Sums(BytesOf(d.files.items), |d.files.items|)
  {
    PrefixBytesBound(d.files.items);
    if d.files.Complete? && AllReadable(d.files.items) {
      AllReadableSums(d.files.items);
    }
  }

  /** getDirectorySize(path, recurse). Children never throw, so every child
      the listing yields is added; the listing's own exception is discarded. */
  function DirectorySize(d: Dir, recurse: bool): Sums
    decreases d, 1
  {
    if !recurse then OwnFiles(d) else Plus(OwnFiles(d), ChildrenUpTo(d, |d.subdirs.items|))
  }

  /** The recursive results of the first k subdirectories, added up. */
  function ChildrenUpTo(d: Dir, k: nat): Sums
    requires k <= |d.subdirs.items|
    decreases d, 0, k
  {
    if k == 0 then Sums(0, 0) else Plus(ChildrenUpTo(d, k - 1), DirectorySize(d.subdirs.items[k - 1], true))
  }

  /** What one worker of Traverse computes for its subdirectory. */
  function Recursive(d: Dir): Sums
  {
    DirectorySize(d, true)
  }

  function RecursiveSize(d: Dir): nat { Recursive(d).size }

  function RecursiveCount(d: Dir): nat { Recursive(d).count }

  /** The DirectoryInfo a worker records. */
  function Entry(d: Dir): Stat
  {
    Stat(d.path, Recursive(d).size, Recursive(d).count)
  }

  /** The first try block of getDirectorySize. */
  method MeasureOwnFiles(d: Dir) returns (size: nat, count: nat)
    ensures size == OwnFiles(d).size && count == OwnFiles(d).count
  {
    size, count := 0, 0;
    if d.files.Complete? {
      var files := d.files.items;
      count := |files|;
      var i := 0;
      while i < |files|
        invariant 0 <= i <= |files|
        invariant forall k :: 0 <= k < i ==> files[k].length.Bytes?
        invariant size == BytesOf(files[..i])
      {
        if files[i].length.Unreadable? {
          break;
        }
        SumOfStep(files, i, ReadableLength);
        size := size + files[i].length.n;
        i := i + 1;
      }
      FirstUnreadableAt(files, i);
    }
  }

  method GetDirectorySize(d: Dir, recurse: bool) returns (size: nat, count: nat)
    ensures size == DirectorySize(d, recurse).size && count == DirectorySize(d, recurse).count
    decreases d
  {
    size, count := MeasureOwnFiles(d);
    if recurse {
      var subdirs := d.subdirs.items;
      var j := 0;
      while j < |subdirs|
        invariant 0 <= j <= |subdirs|
        invariant size == OwnFiles(d).size + ChildrenUpTo(d, j).size
        invariant count == OwnFiles(d).count + ChildrenUpTo(d, j).count
      {
        var s, c := GetDirectorySize(subdirs[j], true);
        size, count := size + s, count + c;
        j := j + 1;
      }
    }
  }

  /** Without failures the recursive measure is the whole subtree. */
  lemma {:induction false} HealthyMeasuresWholeTree(d: Dir)
    requires Healthy(d)
    ensures DirectorySize(d, true) == Sums(TreeBytes(d), TreeFiles(d))
    decreases d, 1
  {
    OwnFilesBounds(d);
    HealthyChildren(d, |d.subdirs.items|);
  }

  lemma {:induction false} HealthyChildren(d: Dir, k: nat)
    requires Healthy(d) && k <= |d.subdirs.items|
    ensures ChildrenUpTo(d, k) == Sums(ChildBytes(d, k), ChildFiles(d, k))
    decreases d, 0, k
  {
    if k > 0 {
      HealthyChildren(d, k - 1);
      HealthyMeasuresWholeTree(d.subdirs.items[k - 1]);
    }
  }

  /** Failures only ever lose data: the measure never exceeds the subtree. */
  lemma {:induction false} NeverOvercounts(d: Dir)
    ensures DirectorySize(d, true).size <= TreeBytes(d)
    ensures DirectorySize(d, true).count <= TreeFiles(d)
    decreases d, 1
  {
    OwnFilesBounds(d);
    ChildrenNeverOvercount(d, |d.subdirs.items|);
  }

  lemma {:induction false} ChildrenNeverOvercount(d: Dir, k: nat)
    requires k <= |d.subdirs.items|
    ensures ChildrenUpTo(d, k).size <= ChildBytes(d, k)
    ensures ChildrenUpTo(d, k).count <= ChildFiles(d, k)
    decreases d, 0, k
  {
    if k > 0 {
      ChildrenNeverOvercount(d, k - 1);
      NeverOvercounts(d.subdirs.items[k - 1]);
    }
  }

  /** A failing length lookup at position k keeps the full file count but
      only the lengths read before it. */
  lemma UnreadableFileKeepsCount(d: Dir, k: nat)
    requires d.files.Complete?
    requires k < |d.files.items| && d.files.items[k].length.Unreadable?
    requires forall i :: 0 <= i < k ==> d.files.items[i].length.Bytes?
    ensures DirectorySize(d, false) == Sums(BytesOf(d.files.items[..k]), |d.files.items|)
  {
    FirstUnreadableAt(d.files.items, k);
  }

  /** With `recurse == false` no subdirectory is visited: the subdirectory
      listing does not matter. */
  lemma OwnFilesOnly(d: Dir, subdirs: Listing<Dir>)
    ensures DirectorySize(d, false) == DirectorySize(d.(subdirs := subdirs), false)
  {
  }

  /** A subdirectory listing that throws after k children gives the same
      result as a listing of just those k children: the call never throws. */
  lemma {:induction false} TruncatedSubdirsKeepYielded(d: Dir)
    requires d.subdirs.Truncated?
    ensures DirectorySize(d, true) == DirectorySize(d.(subdirs := Complete(d.subdirs.items)), true)
  {
    SameChildren(d, d.(subdirs := Complete(d.subdirs.items)), |d.subdirs.items|);
  }

  lemma {:induction false} SameChildren(d: Dir, e: Dir, k: nat)
    requires d.subdirs.items == e.subdirs.items && k <= |d.subdirs.items|
    ensures ChildrenUpTo(d, k) == ChildrenUpTo(e, k)
    decreases k
  {
    if k > 0 {
      SameChildren(d, e, k - 1);
    }
  }

  /** The children's sums, written as sums over the children's results. */
  lemma {:induction false} ChildrenClosedForm(d: Dir, k: nat)
    requires k <= |d.subdirs.items|
    ensures ChildrenUpTo(d, k) == Sums(SumOf(d.subdirs.items[..k], RecursiveSize), SumOf(d.subdirs.items[..k], RecursiveCount))
    decreases k
  {
    if k > 0 {
      ChildrenClosedForm(d, k - 1);
      SumOfTake(d.subdirs.items, k, RecursiveSize);
      SumOfTake(d.subdirs.items, k, RecursiveCount);
    }
  }

  /** The merged totals do not depend on the order in which the workers finish. */
  lemma MergeOrderIrrelevant(root: Dir, schedule: seq<Dir>)
    requires multiset(schedule) == multiset(root.subdirs.items)
    ensures SumOf(schedule, RecursiveSize) == ChildrenUpTo(root, |root.subdirs.items|).size
    ensures SumOf(schedule, RecursiveCount) == ChildrenUpTo(root, |root.subdirs.items|).count
  {
    ChildrenClosedForm(root, |root.subdirs.items|);
    assert root.subdirs.items[..|root.subdirs.items|] == root.subdirs.items;
    SumOfPermutation(schedule, root.subdirs.items, RecursiveSize);
    SumOfPermutation(schedule, root.subdirs.items, RecursiveCount);
  }

  /** With a root listing that succeeds, the root's own files plus every
      worker's result is one recursive measurement of the root. */
  lemma CompleteRunIsRecursive(root: Dir, schedule: seq<Dir>)
    requires multiset(schedule) == multiset(root.subdirs.items)
    requires root.subdirs.Complete?
    ensures forall running: nat :: Merged(root, schedule, running) == schedule
    ensures OwnFiles(root).size + SumOf(schedule, RecursiveSize) == DirectorySize(root, true).size
    ensures OwnFiles(root).count + SumOf(schedule, RecursiveCount) == DirectorySize(root, true).count
  {
    MergeOrderIrrelevant(root, schedule);
  }

  /** MAXPARALLEL: Parallel.ForEach runs at most this many bodies at once. */
  const MaxParallel: nat := 20

  /** How many workers merge before Traverse stops. When the root listing
      completes, all of them. When it throws, every ReportProgress call
      re-enumerates it inside the lock and throws after that body's merge;
      Parallel.ForEach starts no new body once one has thrown but lets the
      bodies already running finish, so the first body and the others
      under way with it merge: `running` of them (at least the first, at
      most MAXPARALLEL, and no more than there are workers). */
  function MergeCount(root: Dir, schedule: seq<Dir>, running: nat): (n: nat)
    ensures n <= |schedule|
    ensures root.subdirs.Complete? ==> n == |schedule|
    ensures root.subdirs.Truncated? ==> n <= MaxParallel
    ensures root.subdirs.Truncated? && schedule != [] ==> 1 <= n
    ensures root.subdirs.Truncated? && 1 <= running <= MaxParallel && running <= |schedule| ==> n == running
  {
    if root.subdirs.Complete? then |schedule|
    else Min(|schedule|, if running == 0 then 1 else Min(running, MaxParallel))
  }

  /** The subdirectories whose workers merge, in the order they finish. */
  function Merged(root: Dir, schedule: seq<Dir>, running: nat): seq<Dir>
  {
    schedule[..MergeCount(root, schedule, running)]
  }

  /** The repository: `_repository`, `counter`, `total_size`, `total_count`,
      and the directory tree found at `root`. */
  class DirectoryRepository {
    const root: Dir
    var repository: seq<Stat>
    var counter: nat
    var totalSize: nat
    var totalCount: nat

    constructor (root: Dir)
      ensures this.root == root
      ensures repository == [] && counter == 0 && totalSize == 0 && totalCount == 0
    {
      this.root := root;
      repository, counter, totalSize, totalCount := [], 0, 0, 0;
    }

    /** `new DirectoryRepository(path)`: throws DirectoryNotFoundException
        for a path that does not exist, before any traversal. */
    static method Open(path: string, fs: FileSystem) returns (r: Result<DirectoryRepository, Exception>)
      ensures r.Err? <==> path !in fs
      ensures r.Err? ==> r.error == DirectoryNotFound(path)
      ensures r.Ok? ==> fresh(r.value) && r.value.root == fs[path] && r.value.repository == []
      ensures r.Ok? ==> r.value.counter == 0 && r.value.totalSize == 0 && r.value.totalCount == 0
    {
      if path !in fs {
        return Err(DirectoryNotFound(path));
      }
      var repo := new DirectoryRepository(fs[path]);
      r := Ok(repo);
    }

    /** The body of one worker: measure `sub` recursively, then, under the
        lock, append its entry, count it and add it to the totals. */
    method MergeWorker(sub: Dir)
      modifies this
      ensures repository == old(repository) + [Entry(sub)]
      ensures counter == old(counter) + 1
      ensures totalSize == old(totalSize) + RecursiveSize(sub)
      ensures totalCount == old(totalCount) + RecursiveCount(sub)
    {
      var size, count := GetDirectorySize(sub, true);
      repository := repository + [Stat(sub.path, size, count)];
      counter := counter + 1;
      totalSize, totalCount := totalSize + size, totalCount + count;
    }

    /** The workers of Parallel.ForEach, finishing in the order `schedule`.
        ReportProgress re-enumerates the root inside the lock, so a root
        listing that throws stops the run once the `running` bodies under
        way have merged. */
    method MergeWorkers(schedule: seq<Dir>, running: nat)
      modifies this
      ensures repository == old(repository) + MapSeq(Merged(root, schedule, running), Entry)
      ensures counter == old(counter) + |Merged(root, schedule, running)|
      ensures totalSize == old(totalSize) + SumOf(Merged(root, schedule, running), RecursiveSize)
      ensures totalCount == old(totalCount) + SumOf(Merged(root, schedule, running), RecursiveCount)
    {
      var stop := if root.subdirs.Complete? then |schedule| else if running == 0 then 1 else Min(running, MaxParallel);
      var i := 0;
      while i < |schedule| && i < stop
        invariant 0 <= i <= |schedule|
        invariant i <= stop
        invariant repository == old(repository) + MapSeq(schedule[..i], Entry)
        invariant counter == old(counter) + i
        invariant totalSize == old(totalSize) + SumOf(schedule[..i], RecursiveSize)
        invariant totalCount == old(totalCount) + SumOf(schedule[..i], RecursiveCount)
      {
        MergeWorker(schedule[i]);
        MapSeqStep(schedule, i, Entry);
        SumOfStep(schedule, i, RecursiveSize);
        SumOfStep(schedule, i, RecursiveCount);
        i := i + 1;
      }
      assert i == MergeCount(root, schedule, running);
    }

    /** Traverse: the root's own files first, then the workers. When the
        root listing succeeds the totals are those of one recursive
        measurement of the root, whatever order the workers finish in
        (CompleteRunIsRecursive). */
    method Traverse(schedule: seq<Dir>, running: nat) returns (outcome: Outcome<Exception>)
      requires multiset(schedule) == multiset(root.subdirs.items)
      modifies this
      ensures repository == old(repository) + [Stat(root.path, OwnFiles(root).size, OwnFiles(root).count)]
        + MapSeq(Merged(root, schedule, running), Entry)
      ensures counter == old(counter) + |Merged(root, schedule, running)|
      ensures totalSize == OwnFiles(root).size + SumOf(Merged(root, schedule, running), RecursiveSize)
      ensures totalCount == OwnFiles(root).count + SumOf(Merged(root, schedule, running), RecursiveCount)
      ensures outcome == if root.subdirs.Complete? then Pass else Fail(IOError(root.subdirs.message))
    {
      var s, c := GetDirectorySize(root, false);
      totalSize, totalCount := s, c;
      repository := repository + [Stat(root.path, s, c)];
      MergeWorkers(schedule, running);
      if root.subdirs.Truncated? {
        return Fail(IOError(root.subdirs.message));
      }
      outcome := Pass;
    }
  }
}
