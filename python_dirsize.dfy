/** Python/dirsize.py: `get_dir_size` with no error handling (a failing
    listing ends the whole computation; a file whose size cannot be read
    is one os.path.isfile already rejects, so it is skipped), and the
    script's top level, which prints the root's own files and then each
    subdirectory's recursive size. */
module PythonDirSize {
  import opened Seqs
  import opened FileSystem

  /** get_dir_size(directory): the directory's readable files plus every
      subdirectory's size, or the message of the first exception raised.
      os.path.isfile stats the joined path and is false when that stat
      fails, and os.path.getsize is the same stat, so the files the loop
      measures are exactly those whose length can be read: the others are
      never selected and add nothing. */
  function DirSize(d: Dir): Result<nat, string>
    decreases d, 1
  {
    if d.files.Truncated? then Err(d.files.message)
    else if d.subdirs.Truncated? then Err(d.subdirs.message)
    else match ChildrenSize(d, |d.subdirs.items|)
      case Err(m) => Err(m)
      case Ok(c) => Ok(BytesOf(d.files.items) + c)
  }

  /** The `for subdir in dirs` loop after k iterations. */
  function ChildrenSize(d: Dir, k: nat): Result<nat, string>
    requires k <= |d.subdirs.items|
    decreases d, 0, k
  {
    if k == 0 then Ok(0)
    else match ChildrenSize(d, k - 1)
      case Err(m) => Err(m)
      case Ok(s) =>
        match DirSize(d.subdirs.items[k - 1])
        case Err(m) => Err(m)
        case Ok(t) => Ok(s + t)
  }

  /** Once a subdirectory raised, the loop never resumes. */
  lemma {:induction false} ChildrenSizeSticky(d: Dir, j: nat, n: nat)
    requires j <= n <= |d.subdirs.items|
    requires ChildrenSize(d, j).Err?
    ensures ChildrenSize(d, n) == ChildrenSize(d, j)
    decreases n
  {
    if n > j {
      ChildrenSizeSticky(d, j, n - 1);
    }
  }

  /** get_dir_size. A raised exception is the Err result. The first loop
      runs over the listed files and measures those os.path.isfile selects. */
  method GetDirSize(d: Dir) returns (r: Result<nat, string>)
    ensures r == DirSize(d)
    decreases d, 1
  {
    if d.files.Truncated? {
      return Err(d.files.message);
    }
    if d.subdirs.Truncated? {
      return Err(d.subdirs.message);
    }
    var files, dirs := d.files.items, d.subdirs.items;
    var size := 0;
    var i := 0;
    while i < |files|
      invariant 0 <= i <= |files|
      invariant size == BytesOf(files[..i])
    {
      SumOfStep(files, i, ReadableLength);
      if files[i].length.Bytes? {
        size := size + files[i].length.n;
      }
      i := i + 1;
    }
    assert files[..i] == files;
    var j := 0;
    while j < |dirs|
      invariant 0 <= j <= |dirs|
      invariant ChildrenSize(d, j).Ok?
      invariant size == BytesOf(files) + ChildrenSize(d, j).value
    {
      var sub := GetDirSize(dirs[j]);
      if sub.Err? {
        ChildrenSizeSticky(d, j + 1, |dirs|);
        return Err(sub.error);
      }
      size := size + sub.value;
      j := j + 1;
    }
    r := Ok(size);
  }

  /** A subtree in which every os.listdir completes. */
  predicate ListingsComplete(d: Dir)
  {
    && d.files.Complete?
    && d.subdirs.Complete?
    && forall i :: 0 <= i < |d.subdirs.items| ==> ListingsComplete(d.subdirs.items[i])
  }

  /** The computation completes exactly when every listing in the subtree
      completes: unreadable files never make it fail. */
  lemma {:induction false} OkIffListingsComplete(d: Dir)
    ensures DirSize(d).Ok? <==> ListingsComplete(d)
    decreases d, 1
  {
    ChildrenOkIffListingsComplete(d, |d.subdirs.items|);
  }

  lemma {:induction false} ChildrenOkIffListingsComplete(d: Dir, k: nat)
    requires k <= |d.subdirs.items|
    ensures ChildrenSize(d, k).Ok? <==> forall i :: 0 <= i < k ==> ListingsComplete(d.subdirs.items[i])
    decreases d, 0, k
  {
    if k > 0 {
      ChildrenOkIffListingsComplete(d, k - 1);
      OkIffListingsComplete(d.subdirs.items[k - 1]);
      if ChildrenSize(d, k - 1).Err? {
        assert !ListingsComplete(d.subdirs.items[k - 1]) || exists i :: 0 <= i < k - 1 && !ListingsComplete(d.subdirs.items[i]);
      }
    }
  }

  /** A healthy subtree has complete listings. */
  lemma {:induction false} HealthyListingsComplete(d: Dir)
    requires Healthy(d)
    ensures ListingsComplete(d)
    decreases d
  {
    forall i | 0 <= i < |d.subdirs.items|
      ensures ListingsComplete(d.subdirs.items[i])
    {
      HealthyListingsComplete(d.subdirs.items[i]);
    }
  }

  /** A completed computation is the size of every readable file in the
      subtree; with every length readable, of every file. */
  lemma {:induction false} OkIsTreeBytes(d: Dir)
    requires DirSize(d).Ok?
    ensures DirSize(d).value == TreeBytes(d)
    decreases d, 1
  {
    ChildrenOkIsChildBytes(d, |d.subdirs.items|);
  }

  lemma {:induction false} ChildrenOkIsChildBytes(d: Dir, k: nat)
    requires k <= |d.subdirs.items|
    requires ChildrenSize(d, k).Ok?
    ensures ChildrenSize(d, k).value == ChildBytes(d, k)
    decreases d, 0, k
  {
    if k > 0 {
      ChildrenOkIsChildBytes(d, k - 1);
      OkIsTreeBytes(d.subdirs.items[k - 1]);
    }
  }

  /** A listable directory holding an unreadable file and a 5-byte file:
      the unreadable one is not selected, and the result is 5. */
  lemma UnreadableFileSkipped()
    ensures var d := Dir("/r", Complete([FileEntry("a", Unreadable("EACCES")), FileEntry("b", Bytes(5))]), Complete([]), 0);
      DirSize(d) == Ok(5) && !Denotes(d, "a", IsFile) && Denotes(d, "b", IsFile)
  {
    var files := [FileEntry("a", Unreadable("EACCES")), FileEntry("b", Bytes(5))];
    assert files[..1][..0] == [];
    assert ReadableLength(files[..1][0]) == 0;
    assert BytesOf(files[..1]) == SumOf(files[..1][..0], ReadableLength) + ReadableLength(files[..1][0]);
    assert BytesOf(files) == BytesOf(files[..1]) + 5;
  }

  /** The failures a subtree can raise: a listing that throws, anywhere in it. */
  ghost predicate RaisesIn(m: string, d: Dir)
  {
    || (d.files.Truncated? && d.files.message == m)
    || (d.subdirs.Truncated? && d.subdirs.message == m)
    || (exists i :: 0 <= i < |d.subdirs.items| && RaisesIn(m, d.subdirs.items[i]))
  }

  /** The exception that escapes comes from the subtree itself. */
  lemma {:induction false} ErrorComesFromTree(d: Dir)
    requires DirSize(d).Err?
    ensures RaisesIn(DirSize(d).error, d)
    decreases d, 1
  {
    if d.files.Complete? && d.subdirs.Complete? {
      ChildrenErrorComesFromTree(d, |d.subdirs.items|);
    }
  }

  lemma {:induction false} ChildrenErrorComesFromTree(d: Dir, k: nat)
    requires k <= |d.subdirs.items|
    requires ChildrenSize(d, k).Err?
    ensures exists i :: 0 <= i < k && RaisesIn(ChildrenSize(d, k).error, d.subdirs.items[i])
    decreases d, 0, k
  {
    if ChildrenSize(d, k - 1).Err? {
      ChildrenErrorComesFromTree(d, k - 1);
    } else {
      ErrorComesFromTree(d.subdirs.items[k - 1]);
    }
  }

  // The script's top level.

  /** os.path.join on POSIX paths, for a name without a leading separator. */
  function Join(a: string, b: string): string
  {
    if |a| > 0 && a[|a| - 1] == '/' then a + b else a + "/" + b
  }

  function FileName(f: FileEntry): string { f.name }

  function SubdirName(s: Dir): string { BaseName(s.path) }

  /** os.listdir(d): the names of its files and subdirectories. */
  function ListNames(d: Dir): (r: Result<seq<string>, string>)
    ensures r.Ok? <==> d.files.Complete? && d.subdirs.Complete?
  {
    if d.files.Truncated? then Err(d.files.message)
    else if d.subdirs.Truncated? then Err(d.subdirs.message)
    else Ok(MapSeq(d.files.items, FileName) + MapSeq(d.subdirs.items, SubdirName))
  }

  /** What a path `Join(d.path, name)` denotes. */
  datatype Node = FileNode(length: Length) | DirNode(dir: Dir) | NoNode

  /** Index of the first file called `name`, or |files|. */
  function FileIndex(files: seq<FileEntry>, name: string): (k: nat)
    ensures k <= |files|
  {
    if files == [] || files[0].name == name then 0 else 1 + FileIndex(files[1..], name)
  }

  lemma {:induction false} FileIndexFirst(files: seq<FileEntry>, name: string)
    ensures forall i :: 0 <= i < FileIndex(files, name) ==> files[i].name != name
    ensures FileIndex(files, name) < |files| ==> files[FileIndex(files, name)].name == name
  {
    if files != [] && files[0].name != name {
      FileIndexFirst(files[1..], name);
    }
  }

  /** Index of the first subdirectory called `name`, or |subdirs|. */
  function SubdirIndex(subdirs: seq<Dir>, name: string): (k: nat)
    ensures k <= |subdirs|
  {
    if subdirs == [] || SubdirName(subdirs[0]) == name then 0 else 1 + SubdirIndex(subdirs[1..], name)
  }

  lemma {:induction false} SubdirIndexFirst(subdirs: seq<Dir>, name: string)
    ensures forall i :: 0 <= i < SubdirIndex(subdirs, name) ==> SubdirName(subdirs[i]) != name
    ensures SubdirIndex(subdirs, name) < |subdirs| ==> SubdirName(subdirs[SubdirIndex(subdirs, name)]) == name
  {
    if subdirs != [] && SubdirName(subdirs[0]) != name {
      SubdirIndexFirst(subdirs[1..], name);
    }
  }

  function Lookup(d: Dir, name: string): Node
  {
    var i := FileIndex(d.files.items, name);
    if i < |d.files.items| then FileNode(d.files.items[i].length)
    else
      var j := SubdirIndex(d.subdirs.items, name);
      if j < |d.subdirs.items| then DirNode(d.subdirs.items[j]) else NoNode
  }

  /** os.path.isfile / os.path.isdir. */
  datatype Kind = IsFile | IsDir

  /** The test `kind` of a name, resolved inside `d`. Both tests stat the
      path and are false when the stat fails, so a file whose length cannot
      be read is neither a file nor a directory to them. */
  predicate Denotes(d: Dir, name: string, kind: Kind)
  {
    match kind
    case IsFile => Lookup(d, name).FileNode? && Lookup(d, name).length.Bytes?
    case IsDir => Lookup(d, name).DirNode?
  }

  /** `[ n for n in names if os.path.isfile(...) ]` (or isdir), in order. */
  function Select(d: Dir, names: seq<string>, kind: Kind): seq<string>
  {
    if names == [] then []
    else Select(d, names[..|names| - 1], kind) + (if Denotes(d, names[|names| - 1], kind) then [names[|names| - 1]] else [])
  }

  lemma {:induction false} SelectConcat(d: Dir, s: seq<string>, t: seq<string>, kind: Kind)
    ensures Select(d, s + t, kind) == Select(d, s, kind) + Select(d, t, kind)
    decreases |t|
  {
    if t == [] {
      assert s + t == s;
    } else {
      assert (s + t)[..|s + t| - 1] == s + t[..|t| - 1];
      SelectConcat(d, s, t[..|t| - 1], kind);
    }
  }

  lemma {:induction false} SelectAll(d: Dir, s: seq<string>, kind: Kind)
    requires forall i :: 0 <= i < |s| ==> Denotes(d, s[i], kind)
    ensures Select(d, s, kind) == s
    decreases |s|
  {
    if s != [] {
      SelectAll(d, s[..|s| - 1], kind);
    }
  }

  lemma {:induction false} SelectNone(d: Dir, s: seq<string>, kind: Kind)
    requires forall i :: 0 <= i < |s| ==> !Denotes(d, s[i], kind)
    ensures Select(d, s, kind) == []
    decreases |s|
  {
    if s != [] {
      SelectNone(d, s[..|s| - 1], kind);
    }
  }

  /** The errno names of the two OSErrors a misdirected call raises. */
  const NotFound: string := "ENOENT"

  const NotADirectory: string := "ENOTDIR"

  /** os.path.getsize(Join(root.path, name)); a directory reports the size
      of its own entry, which `entrySize` gives. */
  function GetSize(root: Dir, name: string, entrySize: Dir -> nat): Result<nat, string>
  {
    match Lookup(root, name)
    case FileNode(Bytes(n)) => Ok(n)
    case FileNode(Unreadable(m)) => Err(m)
    case DirNode(s) => Ok(entrySize(s))
    case NoNode => Err(NotFound)
  }

  /** get_dir_size(Join(root.path, name)). */
  function SubdirSize(root: Dir, name: string): Result<nat, string>
  {
    match Lookup(root, name)
    case DirNode(s) => DirSize(s)
    case FileNode(_) => Err(NotADirectory)
    case NoNode => Err(NotFound)
  }

  /** The first loop of the top level after k files. */
  function RootBytes(root: Dir, files: seq<string>, k: nat, entrySize: Dir -> nat): Result<nat, string>
    requires k <= |files|
  {
    if k == 0 then Ok(0)
    else match RootBytes(root, files, k - 1, entrySize)
      case Err(m) => Err(m)
      case Ok(s) =>
        match GetSize(root, files[k - 1], entrySize)
        case Err(m) => Err(m)
        case Ok(n) => Ok(s + n)
  }

  lemma {:induction false} RootBytesSticky(root: Dir, files: seq<string>, j: nat, n: nat, entrySize: Dir -> nat)
    requires j <= n <= |files|
    requires RootBytes(root, files, j, entrySize).Err?
    ensures RootBytes(root, files, n, entrySize) == RootBytes(root, files, j, entrySize)
    decreases n
  {
    if n > j {
      RootBytesSticky(root, files, j, n - 1, entrySize);
    }
  }

  /** One printed line: a path and the bytes it reports (printed in MB). */
  datatype Line = Line(path: string, bytes: nat)

  /** What the script prints, and the exception that ended it, if any. */
  datatype Report = Report(lines: seq<Line>, failure: Option<string>)

  /** The second loop of the top level after k subdirectories. */
  function SubdirLines(root: Dir, dirs: seq<string>, k: nat): Report
    requires k <= |dirs|
  {
    if k == 0 then Report([], None)
    else
      var before := SubdirLines(root, dirs, k - 1);
      if before.failure.Some? then before
      else match SubdirSize(root, dirs[k - 1])
        case Err(m) => Report(before.lines, Some(m))
        case Ok(n) => Report(before.lines + [Line(Join(root.path, dirs[k - 1]), n)], None)
  }

  lemma {:induction false} SubdirLinesSticky(root: Dir, dirs: seq<string>, j: nat, n: nat)
    requires j <= n <= |dirs|
    requires SubdirLines(root, dirs, j).failure.Some?
    ensures SubdirLines(root, dirs, n) == SubdirLines(root, dirs, j)
    decreases n
  {
    if n > j {
      SubdirLinesSticky(root, dirs, j, n - 1);
    }
  }

  /** The top level run on `root`, with `isfile` and `isdir` resolved in
      `probe`: the process's working directory as the script is written, the
      root itself when the names are joined to it first. */
  function Script(root: Dir, probe: Dir, entrySize: Dir -> nat): Report
  {
    match ListNames(root)
    case Err(m) => Report([], Some(m))
    case Ok(names) =>
      var files, dirs := Select(probe, names, IsFile), Select(probe, names, IsDir);
      match RootBytes(root, files, |files|, entrySize)
      case Err(m) => Report([], Some(m))
      case Ok(size) =>
        var tail := SubdirLines(root, dirs, |dirs|);
        Report([Line(root.path, size)] + tail.lines, tail.failure)
  }

  /** The top level: the two comprehensions, the loop over the root's
      files, then the loop over its subdirectories. */
  method RunScript(root: Dir, probe: Dir, entrySize: Dir -> nat) returns (report: Report)
    ensures report == Script(root, probe, entrySize)
  {
    var listing := ListNames(root);
    if listing.Err? {
      return Report([], Some(listing.error));
    }
    var names := listing.value;
    var files, dirs := Select(probe, names, IsFile), Select(probe, names, IsDir);
    var size := SumRootFiles(root, files, entrySize);
    if size.Err? {
      return Report([], Some(size.error));
    }
    var tail := PrintSubdirs(root, dirs);
    report := Report([Line(root.path, size.value)] + tail.lines, tail.failure);
  }

  /** `for f in files: size += os.path.getsize(...)`. */
  method SumRootFiles(root: Dir, files: seq<string>, entrySize: Dir -> nat) returns (r: Result<nat, string>)
    ensures r == RootBytes(root, files, |files|, entrySize)
  {
    var size := 0;
    var i := 0;
    while i < |files|
      invariant 0 <= i <= |files|
      invariant RootBytes(root, files, i, entrySize) == Ok(size)
    {
      var n := GetSize(root, files[i], entrySize);
      if n.Err? {
        RootBytesSticky(root, files, i + 1, |files|, entrySize);
        return Err(n.error);
      }
      size := size + n.value;
      i := i + 1;
    }
    r := Ok(size);
  }

  /** `for d in dirs: size = get_dir_size(...); print ...`. */
  method PrintSubdirs(root: Dir, dirs: seq<string>) returns (report: Report)
    ensures report == SubdirLines(root, dirs, |dirs|)
  {
    var lines := [];
    var j := 0;
    while j < |dirs|
      invariant 0 <= j <= |dirs|
      invariant SubdirLines(root, dirs, j) == Report(lines, None)
    {
      var size := GetSubdirSize(root, dirs[j]);
      if size.Err? {
        SubdirLinesSticky(root, dirs, j + 1, |dirs|);
        return Report(lines, Some(size.error));
      }
      lines := lines + [Line(Join(root.path, dirs[j]), size.value)];
      j := j + 1;
    }
    report := Report(lines, None);
  }

  /** get_dir_size(Join(root.path, name)) as called from the top level. */
  method GetSubdirSize(root: Dir, name: string) returns (r: Result<nat, string>)
    ensures r == SubdirSize(root, name)
  {
    var node := Lookup(root, name);
    if node.DirNode? {
      r := GetDirSize(node.dir);
    } else {
      r := Err(if node.FileNode? then NotADirectory else NotFound);
    }
  }

  /** No two entries of a directory share a name. */
  predicate UniqueNames(d: Dir)
  {
    var files, subdirs := d.files.items, d.subdirs.items;
    && (forall i, j :: 0 <= i < j < |files| ==> FileName(files[i]) != FileName(files[j]))
    && (forall i, j :: 0 <= i < j < |subdirs| ==> SubdirName(subdirs[i]) != SubdirName(subdirs[j]))
    && (forall i, j :: 0 <= i < |files| && 0 <= j < |subdirs| ==> FileName(files[i]) != SubdirName(subdirs[j]))
  }

  /** Inside a directory with unique names, a file's name denotes that file. */
  lemma LookupFile(d: Dir, i: nat)
    requires UniqueNames(d) && i < |d.files.items|
    ensures Lookup(d, FileName(d.files.items[i])) == FileNode(d.files.items[i].length)
  {
    FileIndexFirst(d.files.items, FileName(d.files.items[i]));
  }

  /** Inside a directory with unique names, a subdirectory's name denotes it. */
  lemma LookupSubdir(d: Dir, j: nat)
    requires UniqueNames(d) && j < |d.subdirs.items|
    ensures Lookup(d, SubdirName(d.subdirs.items[j])) == DirNode(d.subdirs.items[j])
  {
    var name := SubdirName(d.subdirs.items[j]);
    FileIndexFirst(d.files.items, name);
    SubdirIndexFirst(d.subdirs.items, name);
  }

  /** The names of the files whose length can be read, in order. */
  function ReadableNames(files: seq<FileEntry>): seq<string>
  {
    if files == [] then []
    else ReadableNames(files[..|files| - 1]) + (if files[|files| - 1].length.Bytes? then [FileName(files[|files| - 1])] else [])
  }

  /** With every length readable, those are all the files' names. */
  lemma {:induction false} ReadableNamesAll(files: seq<FileEntry>)
    requires AllReadable(files)
    ensures ReadableNames(files) == MapSeq(files, FileName)
    decreases |files|
  {
    if files != [] {
      ReadableNamesAll(files[..|files| - 1]);
    }
  }

  /** Resolved inside the root itself, the two comprehensions pick out
      exactly the root's readable files and exactly its subdirectories. */
  lemma JoinedSelection(d: Dir)
    requires UniqueNames(d) && d.files.Complete? && d.subdirs.Complete?
    ensures Select(d, ListNames(d).value, IsFile) == ReadableNames(d.files.items)
    ensures Select(d, ListNames(d).value, IsDir) == MapSeq(d.subdirs.items, SubdirName)
  {
    var fs, ds := MapSeq(d.files.items, FileName), MapSeq(d.subdirs.items, SubdirName);
    assert ListNames(d).value == fs + ds;
    FileNamesSelected(d);
    SubdirNamesSelected(d);
    SelectConcat(d, fs, ds, IsFile);
    SelectConcat(d, fs, ds, IsDir);
  }

  lemma FileNamesSelected(d: Dir)
    requires UniqueNames(d)
    ensures Select(d, MapSeq(d.files.items, FileName), IsFile) == ReadableNames(d.files.items)
    ensures Select(d, MapSeq(d.files.items, FileName), IsDir) == []
  {
    var fs := MapSeq(d.files.items, FileName);
    MapSeqIndex(d.files.items, FileName);
    forall i | 0 <= i < |fs|
      ensures !Denotes(d, fs[i], IsDir)
    {
      LookupFile(d, i);
    }
    SelectNone(d, fs, IsDir);
    FileNamesSelectedUpTo(d, |d.files.items|);
    assert d.files.items[..|d.files.items|] == d.files.items;
  }

  /** The isfile comprehension over the names of the first k files. */
  lemma {:induction false} FileNamesSelectedUpTo(d: Dir, k: nat)
    requires UniqueNames(d) && k <= |d.files.items|
    ensures Select(d, MapSeq(d.files.items[..k], FileName), IsFile) == ReadableNames(d.files.items[..k])
    decreases k
  {
    if k > 0 {
      var files := d.files.items;
      var front := MapSeq(files[..k - 1], FileName);
      var f := files[k - 1];
      FileNamesSelectedUpTo(d, k - 1);
      MapSeqStep(files, k - 1, FileName);
      LookupFile(d, k - 1);
      assert (front + [FileName(f)])[..|front|] == front;
      assert files[..k][..k - 1] == files[..k - 1];
    }
  }

  lemma SubdirNamesSelected(d: Dir)
    requires UniqueNames(d)
    ensures Select(d, MapSeq(d.subdirs.items, SubdirName), IsDir) == MapSeq(d.subdirs.items, SubdirName)
    ensures Select(d, MapSeq(d.subdirs.items, SubdirName), IsFile) == []
  {
    var ds := MapSeq(d.subdirs.items, SubdirName);
    MapSeqIndex(d.subdirs.items, SubdirName);
    forall j | 0 <= j < |ds|
      ensures Denotes(d, ds[j], IsDir) && !Denotes(d, ds[j], IsFile)
    {
      LookupSubdir(d, j);
    }
    SelectAll(d, ds, IsDir);
    SelectNone(d, ds, IsFile);
  }

  /** One more file read by the first loop. */
  lemma RootBytesStep(root: Dir, files: seq<string>, k: nat, entrySize: Dir -> nat, sum: nat, n: nat)
    requires 0 < k <= |files|
    requires RootBytes(root, files, k - 1, entrySize) == Ok(sum)
    requires GetSize(root, files[k - 1], entrySize) == Ok(n)
    ensures RootBytes(root, files, k, entrySize) == Ok(sum + n)
  {
  }

  /** The first loop reads only the first k names. */
  lemma {:induction false} RootBytesPrefix(root: Dir, a: seq<string>, b: seq<string>, k: nat, entrySize: Dir -> nat)
    requires k <= |a|
    ensures RootBytes(root, a + b, k, entrySize) == RootBytes(root, a, k, entrySize)
    decreases k
  {
    if k > 0 {
      RootBytesPrefix(root, a, b, k - 1, entrySize);
      assert (a + b)[k - 1] == a[k - 1];
    }
  }

  /** With the names joined to the root, the first loop over the readable
      files among the first k sums their bytes. */
  lemma {:induction false} JoinedRootBytes(d: Dir, k: nat, entrySize: Dir -> nat)
    requires UniqueNames(d) && k <= |d.files.items|
    ensures RootBytes(d, ReadableNames(d.files.items[..k]), |ReadableNames(d.files.items[..k])|, entrySize)
      == Ok(BytesOf(d.files.items[..k]))
    decreases k
  {
    if k > 0 {
      var files := d.files.items;
      JoinedRootBytes(d, k - 1, entrySize);
      ReadableNamesTake(files, k);
      SumOfTake(files, k, ReadableLength);
      if files[k - 1].length.Bytes? {
        JoinedRootBytesStep(d, ReadableNames(files[..k - 1]), k - 1, entrySize, BytesOf(files[..k - 1]));
      } else {
        assert ReadableNames(files[..k]) == ReadableNames(files[..k - 1]);
        assert ReadableLength(files[k - 1]) == 0;
      }
    }
  }

  /** ReadableNames over the first k files, one more file at a time. */
  lemma ReadableNamesTake(files: seq<FileEntry>, k: nat)
    requires 0 < k <= |files|
    ensures ReadableNames(files[..k])
      == ReadableNames(files[..k - 1]) + (if files[k - 1].length.Bytes? then [FileName(files[k - 1])] else [])
  {
    assert files[..k][..k - 1] == files[..k - 1];
  }

  /** One more readable root file, found by its joined name, adds its length. */
  lemma JoinedRootBytesStep(d: Dir, front: seq<string>, i: nat, entrySize: Dir -> nat, sum: nat)
    requires UniqueNames(d) && i < |d.files.items| && d.files.items[i].length.Bytes?
    requires RootBytes(d, front, |front|, entrySize) == Ok(sum)
    ensures RootBytes(d, front + [FileName(d.files.items[i])], |front| + 1, entrySize)
      == Ok(sum + d.files.items[i].length.n)
  {
    var names := front + [FileName(d.files.items[i])];
    RootBytesPrefix(d, front, [FileName(d.files.items[i])], |front|, entrySize);
    LookupFile(d, i);
    assert names[|front|] == FileName(d.files.items[i]);
    RootBytesStep(d, names, |front| + 1, entrySize, sum, d.files.items[i].length.n);
  }

  /** The subdirectory lines JoinedSubdirLines describes. */
  ghost predicate TreeLines(d: Dir, lines: seq<Line>)
  {
    && |lines| <= |d.subdirs.items|
    && forall i :: 0 <= i < |lines| ==>
         lines[i] == Line(Join(d.path, SubdirName(d.subdirs.items[i])), TreeBytes(d.subdirs.items[i]))
  }

  /** When every name measures without error, the second loop prints one
      line per name with its size. */
  lemma SubdirLinesAllOk(root: Dir, dirs: seq<string>, sizes: seq<nat>, k: nat)
    requires |sizes| == |dirs| && k <= |dirs|
    requires forall i :: 0 <= i < |dirs| ==> SubdirSize(root, dirs[i]) == Ok(sizes[i])
    ensures SubdirLines(root, dirs, k).failure.None?
    ensures |SubdirLines(root, dirs, k).lines| == k
    ensures forall i :: 0 <= i < k ==> SubdirLines(root, dirs, k).lines[i] == Line(Join(root.path, dirs[i]), sizes[i])
  {
    SubdirLinesOk(root, dirs, sizes, k);
    forall i | 0 <= i < k
      ensures |SubdirLines(root, dirs, k).lines| == k
      ensures SubdirLines(root, dirs, k).lines[i] == Line(Join(root.path, dirs[i]), sizes[i])
    {
      JoinedLinesAt(root.path, dirs[..k], sizes[..k], i);
    }
    if k == 0 {
      assert |JoinedLines(root.path, dirs[..k], sizes[..k])| == 0;
    }
  }

  /** The lines printed for `names` measuring `sizes`, under `rootPath`. */
  function JoinedLines(rootPath: string, names: seq<string>, sizes: seq<nat>): seq<Line>
    requires |names| == |sizes|
  {
    if names == [] then []
    else JoinedLines(rootPath, names[..|names| - 1], sizes[..|sizes| - 1]) + [Line(Join(rootPath, names[|names| - 1]), sizes[|sizes| - 1])]
  }

  lemma {:induction false} JoinedLinesAt(rootPath: string, names: seq<string>, sizes: seq<nat>, i: nat)
    requires |names| == |sizes| && i < |names|
    ensures |JoinedLines(rootPath, names, sizes)| == |names|
    ensures JoinedLines(rootPath, names, sizes)[i] == Line(Join(rootPath, names[i]), sizes[i])
    decreases |names|
  {
    var n := |names| - 1;
    var front := JoinedLines(rootPath, names[..n], sizes[..n]);
    var last := [Line(Join(rootPath, names[n]), sizes[n])];
    if i < n {
      JoinedLinesAt(rootPath, names[..n], sizes[..n], i);
      IndexBefore(front, last, i);
    } else if n > 0 {
      JoinedLinesAt(rootPath, names[..n], sizes[..n], 0);
      IndexAfter(front, last, 0);
    } else {
      assert front == [];
    }
  }

  /** JoinedLines over the first k names, one more name at a time. */
  lemma JoinedLinesTake(rootPath: string, names: seq<string>, sizes: seq<nat>, k: nat)
    requires |names| == |sizes| && 0 < k <= |names|
    ensures JoinedLines(rootPath, names[..k], sizes[..k])
      == JoinedLines(rootPath, names[..k - 1], sizes[..k - 1]) + [Line(Join(rootPath, names[k - 1]), sizes[k - 1])]
  {
    assert names[..k][..k - 1] == names[..k - 1];
    assert sizes[..k][..k - 1] == sizes[..k - 1];
  }

  lemma {:induction false} SubdirLinesOk(root: Dir, dirs: seq<string>, sizes: seq<nat>, k: nat)
    requires |sizes| == |dirs| && k <= |dirs|
    requires forall i :: 0 <= i < |dirs| ==> SubdirSize(root, dirs[i]) == Ok(sizes[i])
    ensures SubdirLines(root, dirs, k) == Report(JoinedLines(root.path, dirs[..k], sizes[..k]), None)
    decreases k
  {
    if k > 0 {
      SubdirLinesOk(root, dirs, sizes, k - 1);
      SubdirLinesOkStep(root, dirs, sizes[k - 1], k);
      JoinedLinesTake(root.path, dirs, sizes, k);
    }
  }

  /** After healthy subdirectories, one more that measures `n` adds its line. */
  lemma SubdirLinesOkStep(root: Dir, dirs: seq<string>, n: nat, k: nat)
    requires 0 < k <= |dirs|
    requires SubdirLines(root, dirs, k - 1).failure.None? && SubdirSize(root, dirs[k - 1]) == Ok(n)
    ensures SubdirLines(root, dirs, k) == Report(SubdirLines(root, dirs, k - 1).lines + [Line(Join(root.path, dirs[k - 1]), n)], None)
  {
  }

  /** The name of a subdirectory whose listings complete, joined to the
      root, measures its tree. */
  lemma JoinedSubdirSize(d: Dir, j: nat)
    requires UniqueNames(d) && j < |d.subdirs.items| && ListingsComplete(d.subdirs.items[j])
    ensures |MapSeq(d.subdirs.items, SubdirName)| == |d.subdirs.items|
    ensures MapSeq(d.subdirs.items, SubdirName)[j] == SubdirName(d.subdirs.items[j])
    ensures SubdirSize(d, MapSeq(d.subdirs.items, SubdirName)[j]) == Ok(TreeBytes(d.subdirs.items[j]))
  {
    MapSeqIndex(d.subdirs.items, SubdirName);
    LookupSubdir(d, j);
    OkIffListingsComplete(d.subdirs.items[j]);
    OkIsTreeBytes(d.subdirs.items[j]);
  }

  lemma JoinedSubdirLines(d: Dir, k: nat)
    requires UniqueNames(d) && k <= |d.subdirs.items|
    requires forall i :: 0 <= i < |d.subdirs.items| ==> ListingsComplete(d.subdirs.items[i])
    ensures |MapSeq(d.subdirs.items, SubdirName)| == |d.subdirs.items|
    ensures SubdirLines(d, MapSeq(d.subdirs.items, SubdirName), k).failure.None?
    ensures |SubdirLines(d, MapSeq(d.subdirs.items, SubdirName), k).lines| == k
    ensures TreeLines(d, SubdirLines(d, MapSeq(d.subdirs.items, SubdirName), k).lines)
  {
    var subs := d.subdirs.items;
    var ds := MapSeq(subs, SubdirName);
    var sizes := MapSeq(subs, TreeBytes);
    MapSeqIndex(subs, SubdirName);
    MapSeqIndex(subs, TreeBytes);
    forall i | 0 <= i < |ds|
      ensures SubdirSize(d, ds[i]) == Ok(sizes[i])
    {
      JoinedSubdirSize(d, i);
    }
    SubdirLinesAllOk(d, ds, sizes, k);
  }

  /** With the names joined to the root (the evident intent), a root whose
      listings all complete prints its own readable files' bytes and then
      one line per subdirectory with that subdirectory's whole-tree bytes. */
  lemma JoinedNamesReportTree(root: Dir, entrySize: Dir -> nat)
    requires UniqueNames(root) && ListingsComplete(root)
    ensures Script(root, root, entrySize).failure.None?
    ensures |Script(root, root, entrySize).lines| == 1 + |root.subdirs.items|
    ensures Script(root, root, entrySize).lines[0] == Line(root.path, BytesOf(root.files.items))
    ensures TreeLines(root, Script(root, root, entrySize).lines[1..])
  {
    JoinedSelection(root);
    assert root.files.items[..|root.files.items|] == root.files.items;
    JoinedRootBytes(root, |root.files.items|, entrySize);
    JoinedSubdirLines(root, |root.subdirs.items|);
    var tail := SubdirLines(root, MapSeq(root.subdirs.items, SubdirName), |root.subdirs.items|);
    assert ([Line(root.path, BytesOf(root.files.items))] + tail.lines)[1..] == tail.lines;
  }

  /** As written, the names are looked up in the working directory. Run from
      a directory that holds none of them, the script prints a root line of
      0 bytes and no subdirectory line, whatever the root holds. */
  lemma BareNamesMissEntries(root: Dir, cwd: Dir, entrySize: Dir -> nat)
    requires root.files.Complete? && root.subdirs.Complete?
    requires cwd.files.items == [] && cwd.subdirs.items == []
    ensures Script(root, cwd, entrySize) == Report([Line(root.path, 0)], None)
  {
    var names := ListNames(root).value;
    SelectNone(cwd, names, IsFile);
    SelectNone(cwd, names, IsDir);
  }

  /** One root with a 10-byte file, run from an empty working directory:
      the script as written reports 0 bytes where the joined test reports 10. */
  lemma BareNamesCounterexample(entrySize: Dir -> nat)
    ensures var root := Dir("/data", Complete([FileEntry("a.txt", Bytes(10))]), Complete([]), 0);
      var cwd := Dir("/home", Complete([]), Complete([]), 0);
      && Script(root, cwd, entrySize).lines == [Line("/data", 0)]
      && Script(root, root, entrySize).lines == [Line("/data", 10)]
  {
    var root := Dir("/data", Complete([FileEntry("a.txt", Bytes(10))]), Complete([]), 0);
    var cwd := Dir("/home", Complete([]), Complete([]), 0);
    BareNamesMissEntries(root, cwd, entrySize);
    JoinedNamesReportTree(root, entrySize);
    assert BytesOf(root.files.items) == 10 by {
      assert root.files.items[..0] == [];
    }
  }
}
