/** Go/cmd/sorted.go: `directorySlice` implements sort.Interface (Len, Swap,
    Less) so that sort.Sort orders the measured directories largest first;
    and `sorted` (Go/cmd/directorysize.go), which collects the repository's
    map values into such a slice and sorts it. A slice is an array here:
    Swap changes its elements in place. */
module GoSorted {
  import opened Seqs

  /** DirectoryInfo (Go/cmd/directorysize.go); the slice holds references to
      records nothing changes, modelled as the records themselves. */
  datatype DirectoryInfo = DirectoryInfo(directorySize: int, path: string, fileCount: int)

  function SizeKey(d: DirectoryInfo): int { d.directorySize }

  /** Len: the number of directories in the slice. */
  function Len(d: array<DirectoryInfo>): (n: nat)
    ensures n == d.Length
  {
    d.Length
  }

  /** Less(i, j): the directory at i is strictly larger than the one at j,
      so the larger directory sorts first. */
  predicate Less(d: array<DirectoryInfo>, i: int, j: int)
    requires 0 <= i < d.Length && 0 <= j < d.Length
    reads d
  {
    d[i].directorySize > d[j].directorySize
  }

  /** Less is a strict weak order, as sort.Sort requires: irreflexive,
      asymmetric and transitive, with "neither is less" meaning equal sizes,
      which is itself transitive. */
  lemma LessIsStrictWeakOrder(d: array<DirectoryInfo>)
    ensures forall i :: 0 <= i < d.Length ==> !Less(d, i, i)
    ensures forall i, j :: 0 <= i < d.Length && 0 <= j < d.Length && Less(d, i, j) ==> !Less(d, j, i)
    ensures forall i, j, k :: 0 <= i < d.Length && 0 <= j < d.Length && 0 <= k < d.Length ==>
      (Less(d, i, j) && Less(d, j, k) ==> Less(d, i, k))
    ensures forall i, j :: 0 <= i < d.Length && 0 <= j < d.Length ==>
      (!Less(d, i, j) && !Less(d, j, i) <==> d[i].directorySize == d[j].directorySize)
  {
  }

  /** The slice after Swap(i, j): the two elements exchanged, every other
      element where it was. */
  function Swapped(s: seq<DirectoryInfo>, i: nat, j: nat): (r: seq<DirectoryInfo>)
    requires i < |s| && j < |s|
    ensures |r| == |s| && r[i] == s[j] && r[j] == s[i]
    ensures forall k :: 0 <= k < |s| && k != i && k != j ==> r[k] == s[k]
  {
    s[i := s[j]][j := s[i]]
  }

  /** Swapping twice restores the slice. */
  lemma SwappedTwice(s: seq<DirectoryInfo>, i: nat, j: nat)
    requires i < |s| && j < |s|
    ensures Swapped(Swapped(s, i, j), i, j) == s
  {
    assert forall k :: 0 <= k < |s| ==> Swapped(Swapped(s, i, j), i, j)[k] == s[k];
  }

  /** A swap keeps the same directories. */
  lemma SwappedPermutation(s: seq<DirectoryInfo>, i: nat, j: nat)
    requires i < |s| && j < |s|
    ensures multiset(Swapped(s, i, j)) == multiset(s)
  {
    if i != j {
      var t := s[i := s[j]];
      assert multiset(t) == multiset(s) - multiset{s[i]} + multiset{s[j]};
      assert multiset(t[j := s[i]]) == multiset(t) - multiset{t[j]} + multiset{s[i]};
    }
  }

  /** Swap: `d[i], d[j] = d[j], d[i]`. */
  method Swap(d: array<DirectoryInfo>, i: int, j: int)
    requires 0 <= i < d.Length && 0 <= j < d.Length
    modifies d
    ensures d[..] == Swapped(old(d[..]), i, j)
  {
    d[i], d[j] := d[j], d[i];
  }

  /** Sorted in the sense of sort.IsSorted: no element is Less than the one
      before it. */
  ghost predicate IsSorted(d: array<DirectoryInfo>)
    reads d
  {
    forall i, j :: 0 <= i < d.Length && j == i + 1 < d.Length ==> !Less(d, j, i)
  }

  /** Sorted by Less means sizes never increase along the slice. */
  lemma IsSortedIffNonIncreasing(d: array<DirectoryInfo>)
    ensures IsSorted(d) <==> NonIncreasing(d[..], SizeKey)
  {
    if IsSorted(d) {
      forall i | 0 < i < d.Length
        ensures SizeKey(d[..][i - 1]) >= SizeKey(d[..][i])
      {
        assert !Less(d, i, i - 1);
      }
    }
    if NonIncreasing(d[..], SizeKey) {
      forall i, j | 0 <= i < d.Length && j == i + 1 < d.Length
        ensures !Less(d, j, i)
      {
        assert SizeKey(d[..][j - 1]) >= SizeKey(d[..][j]);
      }
    }
  }

  /** Adjacent sizes never increase among the first `n` elements of `s`,
      except possibly between positions `hole - 1` and `hole`. */
  ghost predicate OrderedExcept(s: seq<DirectoryInfo>, n: nat, hole: int)
  {
    forall k :: 0 < k < n && k < |s| && k != hole ==> s[k - 1].directorySize >= s[k].directorySize
  }

  /** One swap of insertion sort: the element at `j`, larger than the one
      before it, moves down one place, and the hole moves with it. */
  lemma SwapDown(s: seq<DirectoryInfo>, i: nat, j: nat)
    requires 0 < j <= i < |s|
    requires OrderedExcept(s, i + 1, j)
    requires j < i ==> s[j - 1].directorySize >= s[j + 1].directorySize
    requires s[j].directorySize > s[j - 1].directorySize
    ensures OrderedExcept(Swapped(s, j, j - 1), i + 1, j - 1)
    ensures 1 < j ==> Swapped(s, j, j - 1)[j - 2].directorySize >= Swapped(s, j, j - 1)[j].directorySize
    ensures multiset(Swapped(s, j, j - 1)) == multiset(s)
  {
    SwappedPermutation(s, j, j - 1);
  }

  /** sort.Sort on the slice, through Len, Less and Swap only: the library's
      insertion sort, which moves each element down past every element it
      is Less than. sort.Sort itself is the Go library's and not part of
      this model; any correct sort.Sort meets the same postconditions. */
  method Sort(d: array<DirectoryInfo>)
    modifies d
    ensures multiset(d[..]) == multiset(old(d[..]))
    ensures IsSorted(d)
  {
    var n := Len(d);
    var i := 1;
    while i < n
      invariant 1 <= i
      invariant multiset(d[..]) == multiset(old(d[..]))
      invariant OrderedExcept(d[..], i, 0)
    {
      InsertDown(d, i);
      i := i + 1;
    }
    OrderedIsSorted(d);
  }

  /** One pass of the insertion sort: `d[i]` is swapped down while it is
      Less than the element before it. */
  method InsertDown(d: array<DirectoryInfo>, i: nat)
    requires 0 < i < d.Length
    requires OrderedExcept(d[..], i, 0)
    modifies d
    ensures multiset(d[..]) == multiset(old(d[..]))
    ensures OrderedExcept(d[..], i + 1, 0)
  {
    var j := i;
    while j > 0 && Less(d, j, j - 1)
      invariant 0 <= j <= i
      invariant multiset(d[..]) == multiset(old(d[..]))
      invariant OrderedExcept(d[..], i + 1, j)
      invariant 0 < j < i ==> d[j - 1].directorySize >= d[j + 1].directorySize
    {
      SwapDown(d[..], i, j);
      Swap(d, j, j - 1);
      j := j - 1;
    }
  }

  /** A slice without descents is sorted by Less. */
  lemma OrderedIsSorted(d: array<DirectoryInfo>)
    requires OrderedExcept(d[..], d.Length, 0)
    ensures IsSorted(d)
  {
    forall a, b | 0 <= a < d.Length && b == a + 1 < d.Length
      ensures !Less(d, b, a)
    {
      assert d[..][b - 1] == d[a] && d[..][b] == d[b];
    }
  }

  /** The values of `repo` at `keys`, in that order. */
  function ValuesAt(repo: map<string, DirectoryInfo>, keys: seq<string>): (r: seq<DirectoryInfo>)
    requires forall k :: k in keys ==> k in repo
    ensures |r| == |keys|
    ensures forall i :: 0 <= i < |keys| ==> r[i] == repo[keys[i]]
  {
    if keys == [] then [] else ValuesAt(repo, keys[..|keys| - 1]) + [repo[keys[|keys| - 1]]]
  }

  /** `sorted()`: every value of the repository map appended to a slice in
      the map's iteration order, which Go leaves unspecified and which
      `keys` gives (each key once), then sort.Sort. */
  method Sorted(repo: map<string, DirectoryInfo>, keys: seq<string>) returns (s: array<DirectoryInfo>)
    requires forall k :: k in repo <==> k in keys
    requires forall i, j :: 0 <= i < j < |keys| ==> keys[i] != keys[j]
    ensures fresh(s)
    ensures multiset(s[..]) == multiset(ValuesAt(repo, keys))
    ensures NonIncreasing(s[..], SizeKey)
  {
    var collected: seq<DirectoryInfo> := [];
    for i := 0 to |keys|
      invariant collected == ValuesAt(repo, keys[..i])
    {
      assert keys[..i + 1][..i] == keys[..i];
      collected := collected + [repo[keys[i]]];
    }
    assert keys[..|keys|] == keys;
    s := new DirectoryInfo[|collected|](k requires 0 <= k < |collected| => collected[k]);
    assert s[..] == collected;
    Sort(s);
    IsSortedIffNonIncreasing(s);
  }

  /** The slice holds one directory per key of the map. */
  lemma ValuesAtListsEveryKey(repo: map<string, DirectoryInfo>, keys: seq<string>)
    requires forall k :: k in repo <==> k in keys
    requires forall i, j :: 0 <= i < j < |keys| ==> keys[i] != keys[j]
    ensures |ValuesAt(repo, keys)| == |repo|
    ensures forall k :: k in repo ==> repo[k] in ValuesAt(repo, keys)
  {
    var ks := set i | 0 <= i < |keys| :: keys[i];
    assert ks == repo.Keys;
    KeysCount(keys);
    forall k | k in repo
      ensures repo[k] in ValuesAt(repo, keys)
    {
      var i :| 0 <= i < |keys| && keys[i] == k;
      assert ValuesAt(repo, keys)[i] == repo[k];
    }
  }

  /** A list of distinct keys has as many keys as elements. */
  lemma {:induction false} KeysCount(keys: seq<string>)
    requires forall i, j :: 0 <= i < j < |keys| ==> keys[i] != keys[j]
    ensures |set i | 0 <= i < |keys| :: keys[i]| == |keys|
    decreases |keys|
  {
    if keys != [] {
      var n := |keys| - 1;
      KeysCount(keys[..n]);
      var front := set i | 0 <= i < n :: keys[..n][i];
      assert (set i | 0 <= i < |keys| :: keys[i]) == front + {keys[n]};
      assert keys[n] !in front;
    }
  }

  /** Whatever order the map is iterated in and however sort.Sort orders
      directories of equal size, the sizes come out in the same order as a
      stable descending sort of the collected values lists them. */
  lemma SortedSizesDetermined(values: seq<DirectoryInfo>, s: seq<DirectoryInfo>)
    requires multiset(s) == multiset(values)
    requires NonIncreasing(s, SizeKey)
    ensures MapSeq(s, SizeKey) == MapSeq(SortDescending(values, SizeKey), SizeKey)
  {
    SortedKeysUnique(s, SortDescending(values, SizeKey), SizeKey);
  }
}
