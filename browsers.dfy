/** The browsers applied to the statistics trees the programs build:
    csharp13's DirectoryStatistics (csharp13/Models/Models.cs) and
    csharp14's (csharp14/Models/Models.cs, with LastModified). */
module Browsers {
  import opened Seqs
  import opened FileSystem
  import N = Navigation
  import T13 = CSharp13Tree
  import T14 = CSharp14Statistics
  import Common = CommonRepository

  /** How both csharp13 browsers read a record. */
  const Csharp13: N.Shape<T13.Stats> :=
    N.Shape((s: T13.Stats) => s.path, (s: T13.Stats) => s.size, (s: T13.Stats) => s.count,
            (s: T13.Stats) => s.subdirectories)

  /** How the csharp14 browser reads a record. */
  const Csharp14: N.Shape<T14.Stats> :=
    N.Shape((s: T14.Stats) => s.path, (s: T14.Stats) => s.size, (s: T14.Stats) => s.count,
            (s: T14.Stats) => s.subdirectories)

  /** The footers of NavigateInteractive's table under a directory measured
      by csharp13 leave out the directory's own files: they are its totals
      less its own file count and bytes. */
  lemma FooterLeavesOutOwnFiles(d: Dir)
    requires Common.OwnFiles(d, Common.SumFirst).Ok?
    ensures N.TableOf(Csharp13, T13.Tree(d)).files + |d.files.items| == T13.Tree(d).count
    ensures N.TableOf(Csharp13, T13.Tree(d)).size + BytesOf(d.files.items) == T13.Tree(d).size
  {
    var t := T13.Tree(d);
    T13.TreeShape(d);
    SumOfPointwise(t.subdirectories, t.subdirectories, Csharp13.count, T13.StatsCount);
    SumOfPointwise(t.subdirectories, t.subdirectories, Csharp13.size, T13.StatsSize);
  }

  /** In the csharp14 browser the menu of a measured directory has one line
      for every subdirectory its enumeration yielded. */
  lemma MenuListsEverySubdirectory(stack: seq<T14.Stats>, d: Dir)
    requires |stack| > 0 && N.Top(stack) == T14.Tree(d)
    ensures |N.Menu(N.MenuTable, Csharp14, stack)| == |d.subdirs.items| + (if |stack| > 1 then 2 else 1)
    ensures forall k :: 0 <= k < |d.subdirs.items| ==>
      N.ChildChoice(N.MenuTable, Csharp14, T14.Tree(d.subdirs.items[k])) in N.Menu(N.MenuTable, Csharp14, stack)
  {
    T14.TreeShape(d);
    MapSeqIndex(d.subdirs.items, T14.SubtreeStats);
    N.MenuLayout(N.MenuTable, Csharp14, stack);
    forall k | 0 <= k < |d.subdirs.items|
      ensures N.ChildChoice(N.MenuTable, Csharp14, T14.Tree(d.subdirs.items[k])) in N.Menu(N.MenuTable, Csharp14, stack)
    {
      assert T14.Tree(d).subdirectories[k] == T14.Tree(d.subdirs.items[k]);
      N.MenuListsEveryChild(N.MenuTable, Csharp14, stack, T14.Tree(d.subdirs.items[k]));
    }
  }
}
