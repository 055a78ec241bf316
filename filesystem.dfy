/** The filesystem as every variant sees it: a static tree of directories
    whose enumerations either complete or yield some entries and then
    throw, and whose file-length lookups either return a length or throw.
    Enumerating the same directory twice gives the same outcome. */
module FileSystem {
  import opened Seqs

  /** Outcome of one file-length lookup (FileInfo.Length, os.path.getsize). */
  datatype Length = Bytes(n: nat) | Unreadable(message: string)

  datatype FileEntry = FileEntry(name: string, length: Length)

  /** One enumeration of a directory: the entries it yields and, for a
      Truncated listing, the message of the exception it then throws. */
  datatype Listing<T> = Complete(items: seq<T>) | Truncated(items: seq<T>, message: string)

  /** Points in time in whole seconds; 0 stands for DateTime.MinValue. */
  type Instant = nat

  const MinValue: Instant := 0

  /** A directory: its path, the enumeration of its files, the enumeration
      of its subdirectories and its last write time. */
  datatype Dir = Dir(path: string, files: Listing<FileEntry>, subdirs: Listing<Dir>, lastWrite: Instant)

  /** The last component of a path, everything after its last '/': what
      Path.GetFileName returns and the name os.listdir reports. */
  function BaseName(p: string): string
    decreases |p|
  {
    if p == [] || p[|p| - 1] == '/' then [] else BaseName(p[..|p| - 1]) + [p[|p| - 1]]
  }

  /** A name without separators is its own last component, below any parent. */
  lemma {:induction false} BaseNameOfChild(parent: string, name: string)
    requires forall i :: 0 <= i < |name| ==> name[i] != '/'
    ensures BaseName(name) == name
    ensures BaseName(parent + "/" + name) == name
    decreases |name|
  {
    if name != [] {
      var n := |name| - 1;
      assert (parent + "/" + name)[..|parent + "/" + name| - 1] == parent + "/" + name[..n];
      assert name[..n] + [name[n]] == name;
      BaseNameOfChild(parent, name[..n]);
    } else {
      assert parent + "/" + name == parent + "/";
    }
  }

  /** The directories that exist, by path (Directory.Exists). */
  type FileSystem = fs: map<string, Dir> | forall p :: p in fs ==> fs[p].path == p witness map[]

  /** Exceptions that escape a repository's constructor or its run. */
  datatype Exception = DirectoryNotFound(path: string) | ArgumentNull(parameter: string) | IOError(message: string)

  /** DirectoryErrorInfo: the directory whose enumeration failed and why. */
  datatype ErrorInfo = ErrorInfo(path: string, description: string)

  /** The `_errors` list the recursive measurements append to. */
  class ErrorLog {
    var entries: seq<ErrorInfo>

    constructor ()
      ensures entries == []
    {
      entries := [];
    }

    /** `_errors.Add(...)` under `lock (_errors)`. */
    method Add(e: ErrorInfo)
      modifies this
      ensures entries == old(entries) + [e]
    {
      entries := entries + [e];
    }
  }

  /** Size and file count accumulated over several directories. */
  datatype Sums = Sums(size: nat, count: nat)

  function Plus(a: Sums, b: Sums): Sums { Sums(a.size + b.size, a.count + b.count) }

  /** A measurement together with the errors logged while taking it. */
  datatype Measure = Measure(size: nat, count: nat, errors: seq<ErrorInfo>)

  /** Two measurements one after the other. */
  function Then(a: Measure, b: Measure): Measure
  {
    Measure(a.size + b.size, a.count + b.count, a.errors + b.errors)
  }

  /** What a catch around a subdirectory enumeration logs for the directory
      itself when that enumeration throws. */
  function ListingFailure(d: Dir): Measure
  {
    if d.subdirs.Truncated? then Measure(0, 0, [ErrorInfo(d.path, d.subdirs.message)]) else Measure(0, 0, [])
  }

  /** The paths the errors name, in order. */
  function ErrorPaths(errors: seq<ErrorInfo>): seq<string>
  {
    if errors == [] then [] else ErrorPaths(errors[..|errors| - 1]) + [errors[|errors| - 1].path]
  }

  lemma {:induction false} ErrorPathsConcat(s: seq<ErrorInfo>, t: seq<ErrorInfo>)
    ensures ErrorPaths(s + t) == ErrorPaths(s) + ErrorPaths(t)
    decreases |t|
  {
    if t == [] {
      assert s + t == s;
    } else {
      assert (s + t)[..|s + t| - 1] == s + t[..|t| - 1];
      ErrorPathsConcat(s, t[..|t| - 1]);
    }
  }

  /** Concatenations of error lists naming the same paths name the same paths. */
  lemma ErrorPathsConcatAgree(a: seq<ErrorInfo>, b: seq<ErrorInfo>, x: seq<ErrorInfo>, y: seq<ErrorInfo>)
    requires ErrorPaths(a) == ErrorPaths(b) && ErrorPaths(x) == ErrorPaths(y)
    ensures ErrorPaths(a + x) == ErrorPaths(b + y)
  {
    ErrorPathsConcat(a, x);
    ErrorPathsConcat(b, y);
  }

  /** DirectoryStatistics / DirectoryInfo records without subdirectories. */
  datatype Stat = Stat(path: string, size: nat, count: nat)

  function SizeOf(s: Stat): nat { s.size }

  function CountOf(s: Stat): nat { s.count }

  function Children(d: Dir): seq<Dir> { d.subdirs.items }

  /** Bytes of a file whose length can be read; 0 for one that cannot. */
  function ReadableLength(f: FileEntry): nat
  {
    if f.length.Bytes? then f.length.n else 0
  }

  function ReadableOne(f: FileEntry): nat
  {
    if f.length.Bytes? then 1 else 0
  }

  /** Sum of the readable lengths. */
  function BytesOf(files: seq<FileEntry>): nat { SumOf(files, ReadableLength) }

  /** Number of files whose length can be read. */
  function ReadableCount(files: seq<FileEntry>): nat { SumOf(files, ReadableOne) }

  /** Index of the first file whose length lookup throws, or |files|. */
  function FirstUnreadable(files: seq<FileEntry>): (k: nat)
    ensures k <= |files|
    ensures forall i :: 0 <= i < k ==> files[i].length.Bytes?
    ensures k < |files| ==> files[k].length.Unreadable?
  {
    if files == [] || files[0].length.Unreadable? then 0 else 1 + FirstUnreadable(files[1..])
  }

  predicate AllReadable(files: seq<FileEntry>)
  {
    forall i :: 0 <= i < |files| ==> files[i].length.Bytes?
  }

  /** The first failing lookup is the first failing lookup, wherever it is found. */
  lemma {:induction false} FirstUnreadableAt(files: seq<FileEntry>, k: nat)
    requires k <= |files|
    requires forall i :: 0 <= i < k ==> files[i].length.Bytes?
    requires k < |files| ==> files[k].length.Unreadable?
    ensures FirstUnreadable(files) == k
  {
    if k > 0 {
      FirstUnreadableAt(files[1..], k - 1);
    }
  }

  /** Bytes a foreach over the files adds up before the first lookup throws. */
  function PrefixBytes(files: seq<FileEntry>): nat
  {
    BytesOf(files[..FirstUnreadable(files)])
  }

  /** When every lookup succeeds, the readable sums are the plain sums. */
  lemma {:induction false} AllReadableSums(files: seq<FileEntry>)
    requires AllReadable(files)
    ensures PrefixBytes(files) == BytesOf(files)
    ensures ReadableCount(files) == |files|
    decreases |files|
  {
    FirstUnreadableAt(files, |files|);
    assert files[..|files|] == files;
    if files != [] {
      AllReadableSums(files[..|files| - 1]);
    }
  }

  /** A subtree in which no enumeration and no length lookup fails. */
  predicate Healthy(d: Dir)
  {
    && d.files.Complete?
    && AllReadable(d.files.items)
    && d.subdirs.Complete?
    && forall i :: 0 <= i < |d.subdirs.items| ==> Healthy(d.subdirs.items[i])
  }

  /** A subtree in which no subdirectory enumeration fails. */
  predicate SubdirListingsComplete(d: Dir)
  {
    && d.subdirs.Complete?
    && forall i :: 0 <= i < |d.subdirs.items| ==> SubdirListingsComplete(d.subdirs.items[i])
  }

  /** Reference total: readable bytes of every file every enumeration yields. */
  function TreeBytes(d: Dir): nat
    decreases d, 1
  {
    BytesOf(d.files.items) + ChildBytes(d, |d.subdirs.items|)
  }

  /** TreeBytes summed over the first k subdirectories. */
  function ChildBytes(d: Dir, k: nat): nat
    requires k <= |d.subdirs.items|
    decreases d, 0, k
  {
    if k == 0 then 0 else ChildBytes(d, k - 1) + TreeBytes(d.subdirs.items[k - 1])
  }

  /** Reference count: every file every enumeration yields. */
  function TreeFiles(d: Dir): nat
    decreases d, 1
  {
    |d.files.items| + ChildFiles(d, |d.subdirs.items|)
  }

  function ChildFiles(d: Dir, k: nat): nat
    requires k <= |d.subdirs.items|
    decreases d, 0, k
  {
    if k == 0 then 0 else ChildFiles(d, k - 1) + TreeFiles(d.subdirs.items[k - 1])
  }

  /** Number of directories in the subtree that enumeration reaches. */
  function NodeCount(d: Dir): nat
    decreases d, 1
  {
    1 + ChildNodes(d, |d.subdirs.items|)
  }

  function ChildNodes(d: Dir, k: nat): nat
    requires k <= |d.subdirs.items|
    decreases d, 0, k
  {
    if k == 0 then 0 else ChildNodes(d, k - 1) + NodeCount(d.subdirs.items[k - 1])
  }

  /** Every directory path a traversal of the subtree can reach. */
  ghost predicate InTree(p: string, d: Dir)
  {
    p == d.path || exists i :: 0 <= i < |d.subdirs.items| && InTree(p, d.subdirs.items[i])
  }

  /** Readable bytes never exceed what the listing would give if every lookup succeeded. */
  lemma {:induction false} PrefixBytesBound(files: seq<FileEntry>)
    ensures PrefixBytes(files) <= BytesOf(files)
  {
    var k := FirstUnreadable(files);
    assert files == files[..k] + files[k..];
    SumOfConcat(files[..k], files[k..], ReadableLength);
  }

  lemma {:induction false} ReadableCountBound(files: seq<FileEntry>)
    ensures ReadableCount(files) <= |files|
    decreases |files|
  {
    if files != [] {
      ReadableCountBound(files[..|files| - 1]);
    }
  }
}
