/** The repository shared by csharp10/Common, csharp12/Common and
    csharp13/Common: one try block per directory around its own files and
    its subdirectory loop, subdirectory results recorded with
    ConcurrentDictionary.TryAdd. The three differ only in whether the file
    count or the byte sum is taken first. */
module CommonRepository {
  import opened Seqs
  import opened FileSystem

  /** The order of the two enumerations in getCurrentDirectoryFileSize:
      `(files.Count(), files.Sum(...))` in csharp10,
      `(files.Sum(...), files.Count())` in csharp12 and csharp13. */
  datatype Evaluation = CountFirst | SumFirst

  /** getCurrentDirectoryFileSize: both values or the message of the first
      exception. Count() throws with the listing's message when the listing
      throws; Sum() throws at the first unreadable length it reaches, and
      with the listing's message when every yielded length is readable. */
  function OwnFiles(d: Dir, ev: Evaluation): (r: Result<Sums, string>)
    ensures r.Ok? <==> d.files.Complete? && AllReadable(d.files.items)
    ensures r.Ok? ==> r.value == Sums(BytesOf(d.files.items), |d.files.items|)
  {
    var files := d.files.items;
    var k := FirstUnreadable(files);
    if ev.CountFirst? && d.files.Truncated? then Err(d.files.message)
    else if k < |files| then Err(files[k].length.message)
    else if d.files.Truncated? then Err(d.files.message)
    else
      AllReadableSums(files);
      Ok(Sums(PrefixBytes(files), |files|))
  }

  /** getDirectorySize(path): a failure in the directory's own files skips
      its subdirectories; a subdirectory listing that throws keeps the
      children it yielded. Either way exactly one error names the directory. */
  function DirectorySize(d: Dir, ev: Evaluation): Measure
    decreases d, 1
  {
    match OwnFiles(d, ev)
    case Err(message) => Measure(0, 0, [ErrorInfo(d.path, message)])
    case Ok(own) => Then(Then(Measure(own.size, own.count, []), ChildrenUpTo(d, ev, |d.subdirs.items|)), ListingFailure(d))
  }

  /** The measurements of the first k subdirectories, one after another. */
  function ChildrenUpTo(d: Dir, ev: Evaluation, k: nat): Measure
    requires k <= |d.subdirs.items|
    decreases d, 0, k
  {
    if k == 0 then Measure(0, 0, [])
    else Then(ChildrenUpTo(d, ev, k - 1), DirectorySize(d.subdirs.items[k - 1], ev))
  }

  /** DirectorySize of a directory whose own files were measured, field by field. */
  lemma DirectorySizeAfterOwnFiles(d: Dir, ev: Evaluation)
    requires OwnFiles(d, ev).Ok?
    ensures var own, children := OwnFiles(d, ev).value, ChildrenUpTo(d, ev, |d.subdirs.items|);
      && DirectorySize(d, ev).size == own.size + children.size
      && DirectorySize(d, ev).count == own.count + children.count
      && DirectorySize(d, ev).errors == children.errors + ListingFailure(d).errors
  {
    var children := ChildrenUpTo(d, ev, |d.subdirs.items|);
    assert [] + children.errors == children.errors;
  }

  function RecursiveSize(ev: Evaluation): Dir -> nat { (d: Dir) => DirectorySize(d, ev).size }

  function RecursiveCount(ev: Evaluation): Dir -> nat { (d: Dir) => DirectorySize(d, ev).count }

  function RecursiveErrors(ev: Evaluation): Dir -> seq<ErrorInfo> { (d: Dir) => DirectorySize(d, ev).errors }

  /** The DirectoryStatistics a worker adds for its subdirectory. */
  function Entry(ev: Evaluation): Dir -> Stat
  {
    (d: Dir) => Stat(d.path, DirectorySize(d, ev).size, DirectorySize(d, ev).count)
  }

  method GetDirectorySize(d: Dir, ev: Evaluation, log: ErrorLog) returns (size: nat, count: nat)
    modifies log
    ensures size == DirectorySize(d, ev).size && count == DirectorySize(d, ev).count
    ensures log.entries == old(log.entries) + DirectorySize(d, ev).errors
    decreases d, 1
  {
    var own := OwnFiles(d, ev);
    if own.Err? {
      log.Add(ErrorInfo(d.path, own.error));
      return 0, 0;
    }
    var s, c := MeasureChildren(d, ev, log);
    size, count := own.value.size + s, own.value.count + c;
  }

  /** One more child measured, behind the errors logged before the loop. */
  lemma ChildrenAppend(p: seq<ErrorInfo>, d: Dir, ev: Evaluation, j: nat)
    requires j < |d.subdirs.items|
    ensures ChildrenUpTo(d, ev, j + 1).size == ChildrenUpTo(d, ev, j).size + DirectorySize(d.subdirs.items[j], ev).size
    ensures ChildrenUpTo(d, ev, j + 1).count == ChildrenUpTo(d, ev, j).count + DirectorySize(d.subdirs.items[j], ev).count
    ensures (p + ChildrenUpTo(d, ev, j).errors) + DirectorySize(d.subdirs.items[j], ev).errors == p + ChildrenUpTo(d, ev, j + 1).errors
  {
  }

  /** The foreach over the subdirectories, inside the try block. */
  method MeasureChildren(d: Dir, ev: Evaluation, log: ErrorLog) returns (size: nat, count: nat)
    modifies log
    ensures size == ChildrenUpTo(d, ev, |d.subdirs.items|).size && count == ChildrenUpTo(d, ev, |d.subdirs.items|).count
    ensures log.entries == old(log.entries) + ChildrenUpTo(d, ev, |d.subdirs.items|).errors + ListingFailure(d).errors
    decreases d, 0
  {
    size, count := 0, 0;
    var subdirs := d.subdirs.items;
    var j := 0;
    while j < |subdirs|
      invariant 0 <= j <= |subdirs|
      invariant size == ChildrenUpTo(d, ev, j).size && count == ChildrenUpTo(d, ev, j).count
      invariant log.entries == old(log.entries) + ChildrenUpTo(d, ev, j).errors
    {
      ChildrenAppend(old(log.entries), d, ev, j);
      var s, c := GetDirectorySize(subdirs[j], ev, log);
      size, count := size + s, count + c;
      j := j + 1;
    }
    if d.subdirs.Truncated? {
      log.Add(ErrorInfo(d.path, d.subdirs.message));
    }
  }

  /** Without failures the measure is the whole subtree and nothing is logged. */
  lemma {:induction false} HealthyMeasuresWholeTree(d: Dir, ev: Evaluation)
    requires Healthy(d)
    ensures DirectorySize(d, ev) == Measure(TreeBytes(d), TreeFiles(d), [])
    decreases d, 1
  {
    HealthyChildren(d, ev, |d.subdirs.items|);
  }

  lemma {:induction false} HealthyChildren(d: Dir, ev: Evaluation, k: nat)
    requires Healthy(d) && k <= |d.subdirs.items|
    ensures ChildrenUpTo(d, ev, k) == Measure(ChildBytes(d, k), ChildFiles(d, k), [])
    decreases d, 0, k
  {
    if k > 0 {
      HealthyChildren(d, ev, k - 1);
      HealthyMeasuresWholeTree(d.subdirs.items[k - 1], ev);
    }
  }

  /** Nothing is logged exactly when nothing in the subtree fails. */
  lemma {:induction false} NoErrorsIffHealthy(d: Dir, ev: Evaluation)
    ensures DirectorySize(d, ev).errors == [] <==> Healthy(d)
    decreases d, 1
  {
    ChildrenNoErrors(d, ev, |d.subdirs.items|);
  }

  lemma {:induction false} ChildrenNoErrors(d: Dir, ev: Evaluation, k: nat)
    requires k <= |d.subdirs.items|
    ensures ChildrenUpTo(d, ev, k).errors == [] <==> forall i :: 0 <= i < k ==> Healthy(d.subdirs.items[i])
    decreases d, 0, k
  {
    if k > 0 {
      var sub := d.subdirs.items[k - 1];
      ChildrenStep(d, ev, k);
      ChildrenNoErrors(d, ev, k - 1);
      NoErrorsIffHealthy(sub, ev);
      HealthyPrefixStep(d.subdirs.items, k);
      ThenNoErrors(ChildrenUpTo(d, ev, k - 1), DirectorySize(sub, ev));
    }
  }

  lemma HealthyPrefixStep(items: seq<Dir>, k: nat)
    requires 0 < k <= |items|
    ensures (forall i :: 0 <= i < k ==> Healthy(items[i]))
      <==> (forall i :: 0 <= i < k - 1 ==> Healthy(items[i])) && Healthy(items[k - 1])
  {
  }

  /** One try block per directory: at most one error for every directory
      the traversal reaches. */
  lemma {:induction false} ErrorsBounded(d: Dir, ev: Evaluation)
    ensures |DirectorySize(d, ev).errors| <= NodeCount(d)
    decreases d, 1
  {
    ChildrenErrorsBounded(d, ev, |d.subdirs.items|);
  }

  lemma {:induction false} ChildrenErrorsBounded(d: Dir, ev: Evaluation, k: nat)
    requires k <= |d.subdirs.items|
    ensures |ChildrenUpTo(d, ev, k).errors| <= ChildNodes(d, k)
    decreases d, 0, k
  {
    if k > 0 {
      ChildrenErrorsBounded(d, ev, k - 1);
      ErrorsBounded(d.subdirs.items[k - 1], ev);
    }
  }

  /** Failures only ever lose data. */
  lemma {:induction false} NeverOvercounts(d: Dir, ev: Evaluation)
    ensures DirectorySize(d, ev).size <= TreeBytes(d)
    ensures DirectorySize(d, ev).count <= TreeFiles(d)
    decreases d, 1
  {
    ChildrenNeverOvercount(d, ev, |d.subdirs.items|);
  }

  lemma {:induction false} ChildrenNeverOvercount(d: Dir, ev: Evaluation, k: nat)
    requires k <= |d.subdirs.items|
    ensures ChildrenUpTo(d, ev, k).size <= ChildBytes(d, k)
    ensures ChildrenUpTo(d, ev, k).count <= ChildFiles(d, k)
    decreases d, 0, k
  {
    if k > 0 {
      ChildrenNeverOvercount(d, ev, k - 1);
      NeverOvercounts(d.subdirs.items[k - 1], ev);
    }
  }

  /** When the listing and a length lookup both fail, the order of Count()
      and Sum() decides which message is logged; nothing else differs. */
  lemma MessagePriority(d: Dir, k: nat)
    requires d.files.Truncated?
    requires k < |d.files.items| && d.files.items[k].length.Unreadable?
    requires forall i :: 0 <= i < k ==> d.files.items[i].length.Bytes?
    ensures OwnFiles(d, CountFirst) == Err(d.files.message)
    ensures OwnFiles(d, SumFirst) == Err(d.files.items[k].length.message)
  {
    FirstUnreadableAt(d.files.items, k);
  }

  /** csharp10 and csharp12/13 measure the same sizes and counts and log
      errors for the same directories, in the same order. */
  lemma {:induction false} EvaluationOrderAgreement(d: Dir)
    ensures DirectorySize(d, CountFirst).size == DirectorySize(d, SumFirst).size
    ensures DirectorySize(d, CountFirst).count == DirectorySize(d, SumFirst).count
    ensures ErrorPaths(DirectorySize(d, CountFirst).errors) == ErrorPaths(DirectorySize(d, SumFirst).errors)
    decreases d, 1
  {
    if OwnFiles(d, CountFirst).Ok? {
      ChildrenAgreement(d, |d.subdirs.items|);
      AgreementAfterChildren(d);
    } else {
      AgreementOnOwnFailure(d);
    }
  }

  lemma AgreementOnOwnFailure(d: Dir)
    requires OwnFiles(d, CountFirst).Err?
    ensures DirectorySize(d, CountFirst).size == DirectorySize(d, SumFirst).size == 0
    ensures DirectorySize(d, CountFirst).count == DirectorySize(d, SumFirst).count == 0
    ensures ErrorPaths(DirectorySize(d, CountFirst).errors) == ErrorPaths(DirectorySize(d, SumFirst).errors) == [d.path]
  {
    var e1, e2 := ErrorInfo(d.path, OwnFiles(d, CountFirst).error), ErrorInfo(d.path, OwnFiles(d, SumFirst).error);
    assert DirectorySize(d, CountFirst) == Measure(0, 0, [e1]);
    assert DirectorySize(d, SumFirst) == Measure(0, 0, [e2]);
    assert [e1][..0] == [] && [e2][..0] == [];
  }

  lemma AgreementAfterChildren(d: Dir)
    requires OwnFiles(d, CountFirst).Ok?
    requires ChildrenUpTo(d, CountFirst, |d.subdirs.items|).size == ChildrenUpTo(d, SumFirst, |d.subdirs.items|).size
    requires ChildrenUpTo(d, CountFirst, |d.subdirs.items|).count == ChildrenUpTo(d, SumFirst, |d.subdirs.items|).count
    requires ErrorPaths(ChildrenUpTo(d, CountFirst, |d.subdirs.items|).errors) == ErrorPaths(ChildrenUpTo(d, SumFirst, |d.subdirs.items|).errors)
    ensures DirectorySize(d, CountFirst).size == DirectorySize(d, SumFirst).size
    ensures DirectorySize(d, CountFirst).count == DirectorySize(d, SumFirst).count
    ensures ErrorPaths(DirectorySize(d, CountFirst).errors) == ErrorPaths(DirectorySize(d, SumFirst).errors)
  {
    var n := |d.subdirs.items|;
    var a, b := ChildrenUpTo(d, CountFirst, n), ChildrenUpTo(d, SumFirst, n);
    var failure := ListingFailure(d).errors;
    var own := OwnFiles(d, CountFirst).value;
    assert OwnFiles(d, SumFirst).Ok? && OwnFiles(d, SumFirst).value == own;
    DirectorySizeAfterOwnFiles(d, CountFirst);
    DirectorySizeAfterOwnFiles(d, SumFirst);
    assert DirectorySize(d, CountFirst).errors == a.errors + failure;
    assert DirectorySize(d, SumFirst).errors == b.errors + failure;
    ErrorPathsConcat(a.errors, failure);
    ErrorPathsConcat(b.errors, failure);
  }

  lemma {:induction false} ChildrenAgreement(d: Dir, k: nat)
    requires k <= |d.subdirs.items|
    ensures ChildrenUpTo(d, CountFirst, k).size == ChildrenUpTo(d, SumFirst, k).size
    ensures ChildrenUpTo(d, CountFirst, k).count == ChildrenUpTo(d, SumFirst, k).count
    ensures ErrorPaths(ChildrenUpTo(d, CountFirst, k).errors) == ErrorPaths(ChildrenUpTo(d, SumFirst, k).errors)
    decreases d, 0, k
  {
    if k > 0 {
      var sub := d.subdirs.items[k - 1];
      var a, b := ChildrenUpTo(d, CountFirst, k - 1), ChildrenUpTo(d, SumFirst, k - 1);
      var x, y := DirectorySize(sub, CountFirst), DirectorySize(sub, SumFirst);
      assert ChildrenUpTo(d, CountFirst, k) == Then(a, x);
      assert ChildrenUpTo(d, SumFirst, k) == Then(b, y);
      ChildrenAgreement(d, k - 1);
      EvaluationOrderAgreement(sub);
      ErrorPathsConcatAgree(a.errors, b.errors, x.errors, y.errors);
    }
  }

  /** ChildrenUpTo takes one subdirectory's measurement at a time. */
  lemma ChildrenStep(d: Dir, ev: Evaluation, k: nat)
    requires 0 < k <= |d.subdirs.items|
    ensures ChildrenUpTo(d, ev, k) == Then(ChildrenUpTo(d, ev, k - 1), DirectorySize(d.subdirs.items[k - 1], ev))
  {
  }

  /** A sequence of two measurements has no errors when neither has. */
  lemma ThenNoErrors(a: Measure, x: Measure)
    ensures Then(a, x).errors == [] <==> a.errors == [] && x.errors == []
  {
    if a.errors != [] {
      assert Then(a, x).errors[0] == a.errors[0];
    }
  }

  /** A subdirectory listing that throws after some children keeps their
      sums and their errors, and logs one more error for the directory. */
  lemma {:induction false} TruncatedSubdirsKeepYielded(d: Dir, ev: Evaluation)
    requires d.subdirs.Truncated? && OwnFiles(d, ev).Ok?
    ensures var whole := DirectorySize(d.(subdirs := Complete(d.subdirs.items)), ev);
      && DirectorySize(d, ev).size == whole.size
      && DirectorySize(d, ev).count == whole.count
      && DirectorySize(d, ev).errors == whole.errors + [ErrorInfo(d.path, d.subdirs.message)]
  {
    SameChildren(d, d.(subdirs := Complete(d.subdirs.items)), ev, |d.subdirs.items|);
  }

  lemma {:induction false} SameChildren(d: Dir, e: Dir, ev: Evaluation, k: nat)
    requires d.subdirs.items == e.subdirs.items && k <= |d.subdirs.items|
    ensures ChildrenUpTo(d, ev, k) == ChildrenUpTo(e, ev, k)
    decreases k
  {
    if k > 0 {
      SameChildren(d, e, ev, k - 1);
    }
  }

  /** The children's measurement, written over the children's results. */
  lemma ChildrenClosedForm(d: Dir, ev: Evaluation, k: nat)
    requires k <= |d.subdirs.items|
    ensures ChildrenUpTo(d, ev, k).size == SumOf(d.subdirs.items[..k], RecursiveSize(ev))
    ensures ChildrenUpTo(d, ev, k).count == SumOf(d.subdirs.items[..k], RecursiveCount(ev))
    ensures ChildrenUpTo(d, ev, k).errors == FlatMap(d.subdirs.items[..k], RecursiveErrors(ev))
  {
    ChildrenSizeClosedForm(d, ev, k);
    ChildrenCountClosedForm(d, ev, k);
    ChildrenErrorsClosedForm(d, ev, k);
  }

  lemma {:induction false} ChildrenSizeClosedForm(d: Dir, ev: Evaluation, k: nat)
    requires k <= |d.subdirs.items|
    ensures ChildrenUpTo(d, ev, k).size == SumOf(d.subdirs.items[..k], RecursiveSize(ev))
    decreases k
  {
    if k > 0 {
      ChildrenSizeStep(d, ev, k);
      ChildrenSizeClosedForm(d, ev, k - 1);
      SumOfTake(d.subdirs.items, k, RecursiveSize(ev));
    }
  }

  lemma ChildrenSizeStep(d: Dir, ev: Evaluation, k: nat)
    requires 0 < k <= |d.subdirs.items|
    ensures ChildrenUpTo(d, ev, k).size == ChildrenUpTo(d, ev, k - 1).size + RecursiveSize(ev)(d.subdirs.items[k - 1])
  {
  }

  lemma {:induction false} ChildrenCountClosedForm(d: Dir, ev: Evaluation, k: nat)
    requires k <= |d.subdirs.items|
    ensures ChildrenUpTo(d, ev, k).count == SumOf(d.subdirs.items[..k], RecursiveCount(ev))
    decreases k
  {
    if k > 0 {
      ChildrenCountStep(d, ev, k);
      ChildrenCountClosedForm(d, ev, k - 1);
      SumOfTake(d.subdirs.items, k, RecursiveCount(ev));
    }
  }

  lemma ChildrenCountStep(d: Dir, ev: Evaluation, k: nat)
    requires 0 < k <= |d.subdirs.items|
    ensures ChildrenUpTo(d, ev, k).count == ChildrenUpTo(d, ev, k - 1).count + RecursiveCount(ev)(d.subdirs.items[k - 1])
  {
  }

  lemma {:induction false} ChildrenErrorsClosedForm(d: Dir, ev: Evaluation, k: nat)
    requires k <= |d.subdirs.items|
    ensures ChildrenUpTo(d, ev, k).errors == FlatMap(d.subdirs.items[..k], RecursiveErrors(ev))
    decreases k
  {
    if k > 0 {
      ChildrenErrorsStep(d, ev, k);
      ChildrenErrorsClosedForm(d, ev, k - 1);
      FlatMapTake(d.subdirs.items, k, RecursiveErrors(ev));
    }
  }

  lemma ChildrenErrorsStep(d: Dir, ev: Evaluation, k: nat)
    requires 0 < k <= |d.subdirs.items|
    ensures ChildrenUpTo(d, ev, k).errors == ChildrenUpTo(d, ev, k - 1).errors + RecursiveErrors(ev)(d.subdirs.items[k - 1])
  {
  }

  /** With a root whose listing and files succeed, the root's own files plus
      every worker's result is one recursive measurement of the root,
      whatever order the workers finish in; the errors agree up to order. */
  lemma CompleteRunIsRecursive(root: Dir, ev: Evaluation, schedule: seq<Dir>)
    requires multiset(schedule) == multiset(root.subdirs.items)
    requires root.subdirs.Complete? && OwnFiles(root, ev).Ok?
    ensures OwnFiles(root, ev).value.size + SumOf(schedule, RecursiveSize(ev)) == DirectorySize(root, ev).size
    ensures OwnFiles(root, ev).value.count + SumOf(schedule, RecursiveCount(ev)) == DirectorySize(root, ev).count
    ensures multiset(FlatMap(schedule, RecursiveErrors(ev))) == multiset(DirectorySize(root, ev).errors)
  {
    var n := |root.subdirs.items|;
    var items := root.subdirs.items;
    assert items[..n] == items;
    var children := ChildrenUpTo(root, ev, n);
    assert DirectorySize(root, ev) == Then(Measure(OwnFiles(root, ev).value.size, OwnFiles(root, ev).value.count, []), children);
    assert SumOf(schedule, RecursiveSize(ev)) == children.size by {
      ChildrenClosedForm(root, ev, n);
      SumOfPermutation(schedule, items, RecursiveSize(ev));
    }
    assert SumOf(schedule, RecursiveCount(ev)) == children.count by {
      ChildrenClosedForm(root, ev, n);
      SumOfPermutation(schedule, items, RecursiveCount(ev));
    }
    assert multiset(FlatMap(schedule, RecursiveErrors(ev))) == multiset(children.errors) by {
      ChildrenClosedForm(root, ev, n);
      FlatMapPermutation(schedule, items, RecursiveErrors(ev));
    }
  }

  /** ConcurrentDictionary.TryAdd: adds the pair unless the key is present. */
  function TryAdd(m: map<string, Stat>, key: string, value: Stat): (r: map<string, Stat>)
    ensures r.Keys == m.Keys + {key}
    ensures forall k :: k in m ==> r[k] == m[k]
    ensures key !in m ==> r[key] == value
  {
    if key in m then m else m[key := value]
  }

  /** TryAdd of every entry, keyed by its path, in order. */
  function AddAll(m: map<string, Stat>, entries: seq<Stat>): map<string, Stat>
  {
    if entries == [] then m
    else TryAdd(AddAll(m, entries[..|entries| - 1]), entries[|entries| - 1].path, entries[|entries| - 1])
  }

  /** Paths no two of which are equal. */
  predicate DistinctPaths(entries: seq<Stat>)
  {
    forall i, j :: 0 <= i < j < |entries| ==> entries[i].path != entries[j].path
  }

  /** Adding entries never overwrites a key already present. */
  lemma {:induction false} AddAllKeeps(m: map<string, Stat>, entries: seq<Stat>, k: string)
    requires k in m
    ensures k in AddAll(m, entries) && AddAll(m, entries)[k] == m[k]
    decreases |entries|
  {
    if entries != [] {
      AddAllKeeps(m, entries[..|entries| - 1], k);
    }
  }

  /** Every key of the result was present before or is the path of an entry. */
  lemma {:induction false} AddAllKeys(m: map<string, Stat>, entries: seq<Stat>, k: string)
    requires k in AddAll(m, entries) && k !in m
    ensures exists i :: 0 <= i < |entries| && entries[i].path == k
    decreases |entries|
  {
    var n := |entries| - 1;
    if k in AddAll(m, entries[..n]) {
      AddAllKeys(m, entries[..n], k);
      var i :| 0 <= i < n && entries[..n][i].path == k;
      assert entries[i].path == k;
    } else {
      assert entries[n].path == k;
    }
  }

  /** With distinct paths that are new to the map, every entry ends up
      under its own path. */
  lemma {:induction false} AddAllValue(m: map<string, Stat>, entries: seq<Stat>, i: nat)
    requires DistinctPaths(entries) && i < |entries|
    requires forall j :: 0 <= j < |entries| ==> entries[j].path !in m
    ensures entries[i].path in AddAll(m, entries) && AddAll(m, entries)[entries[i].path] == entries[i]
    decreases |entries|
  {
    var n := |entries| - 1;
    var prev := entries[..n];
    assert DistinctPaths(prev);
    if i < n {
      assert prev[i] == entries[i];
      AddAllValue(m, prev, i);
    } else if entries[n].path in AddAll(m, prev) {
      AddAllKeys(m, prev, entries[n].path);
    }
  }

  /** Run's dictionary does not depend on the order in which the workers
      finish, as long as the subdirectory paths are distinct and differ
      from every key already present. */
  lemma AddAllOrderIrrelevant(m: map<string, Stat>, s: seq<Stat>, t: seq<Stat>)
    requires multiset(s) == multiset(t)
    requires DistinctPaths(s) && DistinctPaths(t)
    requires forall i :: 0 <= i < |s| ==> s[i].path !in m
    ensures AddAll(m, s) == AddAll(m, t)
  {
    forall i | 0 <= i < |t| ensures t[i].path !in m {
      assert t[i] in multiset(s);
    }
    forall k | k in AddAll(m, s) ensures k in AddAll(m, t) && AddAll(m, s)[k] == AddAll(m, t)[k] {
      AddAllKeyAgrees(m, s, t, k);
    }
    forall k | k in AddAll(m, t) ensures k in AddAll(m, s) {
      AddAllKeyAgrees(m, t, s, k);
    }
  }

  /** A key of AddAll(m, s) has the same value in AddAll(m, t) when `t`
      holds the same entries as `s`. */
  lemma AddAllKeyAgrees(m: map<string, Stat>, s: seq<Stat>, t: seq<Stat>, k: string)
    requires multiset(s) == multiset(t)
    requires DistinctPaths(s) && DistinctPaths(t)
    requires forall i :: 0 <= i < |s| ==> s[i].path !in m
    requires forall i :: 0 <= i < |t| ==> t[i].path !in m
    requires k in AddAll(m, s)
    ensures k in AddAll(m, t) && AddAll(m, s)[k] == AddAll(m, t)[k]
  {
    if k in m {
      AddAllKeeps(m, s, k);
      AddAllKeeps(m, t, k);
    } else {
      AddAllKeys(m, s, k);
      var i :| 0 <= i < |s| && s[i].path == k;
      assert s[i] in multiset(t);
      var j :| 0 <= j < |t| && t[j] == s[i];
      AddAllValue(m, s, i);
      AddAllValue(m, t, j);
    }
  }

  /** TryAdd behind the step of a loop over `entries`. */
  lemma AddAllStep(m: map<string, Stat>, entries: seq<Stat>, i: nat)
    requires i < |entries|
    ensures TryAdd(AddAll(m, entries[..i]), entries[i].path, entries[i]) == AddAll(m, entries[..i + 1])
  {
    assert entries[..i + 1][..i] == entries[..i];
  }

  /** The repository of csharp10/12/13 Common: `_repository`, `_errors`,
      `counter`, the running totals and the tree found at `_rootPath`. */
  class DirectoryRepository {
    const root: Dir
    const evaluation: Evaluation
    const errors: ErrorLog
    var repository: map<string, Stat>
    var counter: nat
    var totalSize: nat
    var totalCount: nat

    constructor (root: Dir, evaluation: Evaluation)
      ensures this.root == root && this.evaluation == evaluation
      ensures fresh(errors) && errors.entries == []
      ensures repository == map[] && counter == 0 && totalSize == 0 && totalCount == 0
    {
      this.root := root;
      this.evaluation := evaluation;
      errors := new ErrorLog();
      repository, counter, totalSize, totalCount := map[], 0, 0, 0;
    }

    /** The csharp10 and csharp12 constructor: DirectoryNotFoundException
        for a path that does not exist. */
    static method Open(path: string, fs: FileSystem, evaluation: Evaluation) returns (r: Result<DirectoryRepository, Exception>)
      ensures r.Err? <==> path !in fs
      ensures r.Err? ==> r.error == DirectoryNotFound(path)
      ensures r.Ok? ==> fresh(r.value) && fresh(r.value.errors) && r.value.root == fs[path] && r.value.evaluation == evaluation
      ensures r.Ok? ==> r.value.repository == map[] && r.value.errors.entries == []
      ensures r.Ok? ==> r.value.counter == 0 && r.value.totalSize == 0 && r.value.totalCount == 0
    {
      if path !in fs {
        return Err(DirectoryNotFound(path));
      }
      var repo := new DirectoryRepository(fs[path], evaluation);
      r := Ok(repo);
    }

    /** The csharp13 constructor: a null path throws ArgumentNullException
        for `path` before the existence check; the byte sum comes first. */
    static method OpenChecked(path: Option<string>, fs: FileSystem) returns (r: Result<DirectoryRepository, Exception>)
      ensures path.None? ==> r == Err(ArgumentNull("path"))
      ensures path.Some? && path.value !in fs ==> r == Err(DirectoryNotFound(path.value))
      ensures r.Ok? <==> path.Some? && path.value in fs
      ensures r.Ok? ==> fresh(r.value) && fresh(r.value.errors) && r.value.root == fs[path.value] && r.value.evaluation == SumFirst
      ensures r.Ok? ==> r.value.repository == map[] && r.value.errors.entries == []
      ensures r.Ok? ==> r.value.counter == 0 && r.value.totalSize == 0 && r.value.totalCount == 0
    {
      if path.None? {
        return Err(ArgumentNull("path"));
      }
      r := Open(path.value, fs, SumFirst);
    }

    /** The body of one worker: measure the subdirectory (logging its
        errors), TryAdd its statistics, then count it and add it. */
    method MergeWorker(sub: Dir)
      modifies this, errors
      ensures repository == TryAdd(old(repository), sub.path, Entry(evaluation)(sub))
      ensures errors.entries == old(errors.entries) + RecursiveErrors(evaluation)(sub)
      ensures counter == old(counter) + 1
      ensures totalSize == old(totalSize) + RecursiveSize(evaluation)(sub)
      ensures totalCount == old(totalCount) + RecursiveCount(evaluation)(sub)
    {
      var size, count := GetDirectorySize(sub, evaluation, errors);
      repository := TryAdd(repository, sub.path, Stat(sub.path, size, count));
      counter := counter + 1;
      totalSize, totalCount := totalSize + size, totalCount + count;
    }

    /** The workers of Parallel.ForEach, finishing in the order `schedule`. */
    method MergeWorkers(schedule: seq<Dir>)
      modifies this, errors
      ensures repository == AddAll(old(repository), MapSeq(schedule, Entry(evaluation)))
      ensures errors.entries == old(errors.entries) + FlatMap(schedule, RecursiveErrors(evaluation))
      ensures counter == old(counter) + |schedule|
      ensures totalSize == old(totalSize) + SumOf(schedule, RecursiveSize(evaluation))
      ensures totalCount == old(totalCount) + SumOf(schedule, RecursiveCount(evaluation))
    {
      ghost var repository0, errors0 := repository, errors.entries;
      ghost var counter0, size0, count0 := counter, totalSize, totalCount;
      ghost var entries := MapSeq(schedule, Entry(evaluation));
      MapSeqIndex(schedule, Entry(evaluation));
      var i := 0;
      while i < |schedule|
        invariant 0 <= i <= |schedule|
        invariant repository == AddAll(repository0, entries[..i])
        invariant errors.entries == errors0 + FlatMap(schedule[..i], RecursiveErrors(evaluation))
        invariant counter == counter0 + i
        invariant totalSize == size0 + SumOf(schedule[..i], RecursiveSize(evaluation))
        invariant totalCount == count0 + SumOf(schedule[..i], RecursiveCount(evaluation))
      {
        MergeWorker(schedule[i]);
        AddAllStep(repository0, entries, i);
        FlatMapAppend(errors0, schedule, i, RecursiveErrors(evaluation));
        SumOfStep(schedule, i, RecursiveSize(evaluation));
        SumOfStep(schedule, i, RecursiveCount(evaluation));
        i := i + 1;
      }
      assert schedule[..i] == schedule;
      assert entries[..i] == entries;
    }

    /** Run: counting the root's subdirectories throws first when that
        listing fails, then the root's own files throw when they fail;
        otherwise they set the totals, the root is TryAdded and every
        worker merges. */
    method Run(schedule: seq<Dir>) returns (outcome: Outcome<Exception>)
      requires multiset(schedule) == multiset(root.subdirs.items)
      modifies this, errors
      ensures root.subdirs.Truncated? ==> outcome == Fail(IOError(root.subdirs.message))
      ensures root.subdirs.Complete? && OwnFiles(root, evaluation).Err? ==> outcome == Fail(IOError(OwnFiles(root, evaluation).error))
      ensures outcome.Pass? <==> root.subdirs.Complete? && OwnFiles(root, evaluation).Ok?
      ensures outcome.Fail? ==>
        && repository == old(repository) && errors.entries == old(errors.entries)
        && counter == old(counter) && totalSize == old(totalSize) && totalCount == old(totalCount)
      ensures outcome.Pass? ==>
        var own := OwnFiles(root, evaluation).value;
        && repository == AddAll(TryAdd(old(repository), root.path, Stat(root.path, own.size, own.count)), MapSeq(schedule, Entry(evaluation)))
        && errors.entries == old(errors.entries) + FlatMap(schedule, RecursiveErrors(evaluation))
        && counter == old(counter) + |schedule|
        && totalSize == own.size + SumOf(schedule, RecursiveSize(evaluation))
        && totalCount == own.count + SumOf(schedule, RecursiveCount(evaluation))
    {
      if root.subdirs.Truncated? {
        return Fail(IOError(root.subdirs.message));
      }
      var own := OwnFiles(root, evaluation);
      if own.Err? {
        return Fail(IOError(own.error));
      }
      totalCount, totalSize := own.value.count, own.value.size;
      repository := TryAdd(repository, root.path, Stat(root.path, own.value.size, own.value.count));
      MergeWorkers(schedule);
      outcome := Pass;
    }
  }
}
