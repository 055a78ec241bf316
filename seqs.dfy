/** Sequence helpers shared by every variant: sums accumulated the way a
    foreach loop accumulates them, element-wise maps, and the descending
    sort that LINQ's OrderByDescending and Go's sort.Sort perform. */
module Seqs {

  datatype Option<+T> = None | Some(value: T)

  datatype Result<+T, +E> = Ok(value: T) | Err(error: E)

  /** Whether an operation ran to completion or threw. */
  datatype Outcome<+E> = Pass | Fail(error: E)

  function Min(a: int, b: int): int { if a <= b then a else b }

  /** The identity on naturals, for summing a sequence of numbers. */
  function Nat(n: nat): nat { n }

  /** Sum of `f` over `s`, accumulated from the front, one element per step. */
  function SumOf<T>(s: seq<T>, f: T -> nat): nat
  {
    if s == [] then 0 else SumOf(s[..|s| - 1], f) + f(s[|s| - 1])
  }

  /** `f` applied to every element of `s`, in order. */
  function MapSeq<A, B>(s: seq<A>, f: A -> B): seq<B>
  {
    if s == [] then [] else MapSeq(s[..|s| - 1], f) + [f(s[|s| - 1])]
  }

  lemma {:induction false} MapSeqIndex<A, B>(s: seq<A>, f: A -> B)
    ensures |MapSeq(s, f)| == |s|
    ensures forall i :: 0 <= i < |s| ==> MapSeq(s, f)[i] == f(s[i])
    decreases |s|
  {
    if s != [] {
      MapSeqIndex(s[..|s| - 1], f);
    }
  }

  lemma {:induction false} MapSeqConcat<A, B>(s: seq<A>, t: seq<A>, f: A -> B)
    ensures MapSeq(s + t, f) == MapSeq(s, f) + MapSeq(t, f)
    decreases |t|
  {
    if t == [] {
      assert s + t == s;
    } else {
      assert (s + t)[..|s + t| - 1] == s + t[..|t| - 1];
      MapSeqConcat(s, t[..|t| - 1], f);
    }
  }

  /** One more loop iteration adds one more term. */
  lemma SumOfStep<T>(s: seq<T>, i: nat, f: T -> nat)
    requires i < |s|
    ensures SumOf(s[..i + 1], f) == SumOf(s[..i], f) + f(s[i])
  {
    assert s[..i + 1][..i] == s[..i];
  }

  /** SumOfStep for the prefix of length `k`. */
  lemma SumOfTake<T>(s: seq<T>, k: nat, f: T -> nat)
    requires 0 < k <= |s|
    ensures SumOf(s[..k], f) == SumOf(s[..k - 1], f) + f(s[k - 1])
  {
    assert s[..k][..k - 1] == s[..k - 1];
  }

  lemma MapSeqStep<A, B>(s: seq<A>, i: nat, f: A -> B)
    requires i < |s|
    ensures MapSeq(s[..i + 1], f) == MapSeq(s[..i], f) + [f(s[i])]
  {
    assert s[..i + 1][..i] == s[..i];
  }

  /** MapSeqStep behind a fixed prefix, as a loop appending to a list needs it. */
  lemma MapSeqAppend<A, B>(p: seq<B>, s: seq<A>, i: nat, f: A -> B)
    requires i < |s|
    ensures (p + MapSeq(s[..i], f)) + [f(s[i])] == p + MapSeq(s[..i + 1], f)
  {
    MapSeqStep(s, i, f);
  }

  lemma {:induction false} SumOfConcat<T>(s: seq<T>, t: seq<T>, f: T -> nat)
    ensures SumOf(s + t, f) == SumOf(s, f) + SumOf(t, f)
    decreases |t|
  {
    if t == [] {
      assert s + t == s;
    } else {
      assert (s + t)[..|s + t| - 1] == s + t[..|t| - 1];
      SumOfConcat(s, t[..|t| - 1], f);
    }
  }

  /** A sum does not depend on the order of its terms. */
  lemma {:induction false} SumOfPermutation<T>(s: seq<T>, t: seq<T>, f: T -> nat)
    requires multiset(s) == multiset(t)
    ensures SumOf(s, f) == SumOf(t, f)
    decreases |s|
  {
    if s == [] {
      assert |t| == |multiset(t)| == 0;
    } else {
      var x := s[|s| - 1];
      var s' := s[..|s| - 1];
      assert s == s' + [x];
      var j := MultisetIndex(t, x, multiset(s'));
      MultisetRemove(t, j);
      SumOfPermutation(s', t[..j] + t[j + 1..], f);
      SumOfRemove(t, j, f);
    }
  }

  /** An element of a sequence `t` whose multiset is `m` plus that element,
      found at some index. */
  lemma MultisetIndex<T>(t: seq<T>, x: T, m: multiset<T>) returns (j: nat)
    requires multiset(t) == m + multiset{x}
    ensures j < |t| && t[j] == x
  {
    assert x in multiset(t);
    j :| 0 <= j < |t| && t[j] == x;
  }

  /** Taking out the term at `j` takes its value out of the sum. */
  lemma SumOfRemove<T>(t: seq<T>, j: nat, f: T -> nat)
    requires j < |t|
    ensures SumOf(t, f) == SumOf(t[..j] + t[j + 1..], f) + f(t[j])
  {
    var x := t[j];
    assert t == t[..j] + [x] + t[j + 1..];
    SumOfConcat(t[..j] + [x], t[j + 1..], f);
    SumOfConcat(t[..j], [x], f);
    SumOfConcat(t[..j], t[j + 1..], f);
    assert [x][..0] == [];
  }

  /** Two sums agree when their terms agree position by position. */
  lemma {:induction false} SumOfPointwise<A, B>(s: seq<A>, t: seq<B>, f: A -> nat, g: B -> nat)
    requires |s| == |t|
    requires forall i :: 0 <= i < |s| ==> f(s[i]) == g(t[i])
    ensures SumOf(s, f) == SumOf(t, g)
    decreases |s|
  {
    if s != [] {
      SumOfPointwise(s[..|s| - 1], t[..|t| - 1], f, g);
    }
  }

  lemma MultisetRemove<T>(t: seq<T>, j: nat)
    requires j < |t|
    ensures multiset(t[..j] + t[j + 1..]) == multiset(t) - multiset{t[j]}
    ensures multiset(t) == multiset(t[..j] + t[j + 1..]) + multiset{t[j]}
    ensures t == t[..j] + [t[j]] + t[j + 1..]
  {
    assert t == t[..j] + [t[j]] + t[j + 1..];
  }

  /** A sum of smaller terms is smaller. */
  lemma {:induction false} SumOfMonotone<A, B>(s: seq<A>, t: seq<B>, f: A -> nat, g: B -> nat)
    requires |s| == |t|
    requires forall i :: 0 <= i < |s| ==> f(s[i]) <= g(t[i])
    ensures SumOf(s, f) <= SumOf(t, g)
    decreases |s|
  {
    if s != [] {
      SumOfMonotone(s[..|s| - 1], t[..|t| - 1], f, g);
    }
  }

  /** The sequences `f` gives for the elements of `s`, one after another. */
  function FlatMap<A, B>(s: seq<A>, f: A -> seq<B>): seq<B>
  {
    if s == [] then [] else FlatMap(s[..|s| - 1], f) + f(s[|s| - 1])
  }

  lemma FlatMapStep<A, B>(s: seq<A>, i: nat, f: A -> seq<B>)
    requires i < |s|
    ensures FlatMap(s[..i + 1], f) == FlatMap(s[..i], f) + f(s[i])
  {
    assert s[..i + 1][..i] == s[..i];
  }

  /** FlatMapStep for the prefix of length `k`. */
  lemma FlatMapTake<A, B>(s: seq<A>, k: nat, f: A -> seq<B>)
    requires 0 < k <= |s|
    ensures FlatMap(s[..k], f) == FlatMap(s[..k - 1], f) + f(s[k - 1])
  {
    assert s[..k][..k - 1] == s[..k - 1];
  }

  /** FlatMapStep behind a fixed prefix. */
  lemma FlatMapAppend<A, B>(p: seq<B>, s: seq<A>, i: nat, f: A -> seq<B>)
    requires i < |s|
    ensures (p + FlatMap(s[..i], f)) + f(s[i]) == p + FlatMap(s[..i + 1], f)
  {
    FlatMapStep(s, i, f);
  }

  lemma {:induction false} FlatMapConcat<A, B>(s: seq<A>, t: seq<A>, f: A -> seq<B>)
    ensures FlatMap(s + t, f) == FlatMap(s, f) + FlatMap(t, f)
    decreases |t|
  {
    if t == [] {
      assert s + t == s;
    } else {
      assert (s + t)[..|s + t| - 1] == s + t[..|t| - 1];
      FlatMapConcat(s, t[..|t| - 1], f);
    }
  }

  /** Cutting `t` around position `j` cuts the collected elements there too. */
  lemma FlatMapAround<A, B>(t: seq<A>, j: nat, f: A -> seq<B>)
    requires j < |t|
    ensures FlatMap(t, f) == FlatMap(t[..j], f) + f(t[j]) + FlatMap(t[j + 1..], f)
  {
    assert t == t[..j + 1] + t[j + 1..];
    FlatMapConcat(t[..j + 1], t[j + 1..], f);
    FlatMapStep(t, j, f);
  }

  /** The elements collected do not depend on the order of the parts. */
  lemma {:induction false} FlatMapPermutation<A, B>(s: seq<A>, t: seq<A>, f: A -> seq<B>)
    requires multiset(s) == multiset(t)
    ensures multiset(FlatMap(s, f)) == multiset(FlatMap(t, f))
    decreases |s|
  {
    if s == [] {
      assert |t| == |multiset(t)| == 0;
      assert t == [];
    } else {
      var n := |s| - 1;
      assert s[n] in multiset(t);
      var j :| 0 <= j < |t| && t[j] == s[n];
      MultisetRemove(s, n);
      MultisetRemove(t, j);
      assert s[..n] + s[n + 1..] == s[..n];
      FlatMapPermutation(s[..n], t[..j] + t[j + 1..], f);
      FlatMapRemove(t, j, f);
      FlatMapRemove(s, n, f);
    }
  }

  /** The elements collected from `t` are those collected from `t` without
      its part at `j`, plus that part's elements. */
  lemma FlatMapRemove<A, B>(t: seq<A>, j: nat, f: A -> seq<B>)
    requires j < |t|
    ensures multiset(FlatMap(t, f)) == multiset(FlatMap(t[..j] + t[j + 1..], f)) + multiset(f(t[j]))
  {
    FlatMapConcat(t[..j], t[j + 1..], f);
    FlatMapAround(t, j, f);
    var mf, mb := FlatMap(t[..j], f), FlatMap(t[j + 1..], f);
    assert multiset(mf + f(t[j]) + mb) == multiset(mf) + multiset(f(t[j])) + multiset(mb);
  }

  /** Terms that are all zero sum to zero. */
  lemma {:induction false} SumOfZero<T>(s: seq<T>, f: T -> nat)
    requires forall i :: 0 <= i < |s| ==> f(s[i]) == 0
    ensures SumOf(s, f) == 0
    decreases |s|
  {
    if s != [] {
      SumOfZero(s[..|s| - 1], f);
    }
  }

  /** Keys never increase from one position to the next. */
  ghost predicate NonIncreasing<T>(s: seq<T>, key: T -> int)
  {
    forall i :: 0 < i < |s| ==> key(s[i - 1]) >= key(s[i])
  }

  /** Every earlier key is at least every later key. */
  lemma {:induction false} NonIncreasingPairwise<T>(s: seq<T>, key: T -> int, i: nat, j: nat)
    requires NonIncreasing(s, key)
    requires i <= j < |s|
    ensures key(s[i]) >= key(s[j])
    decreases j - i
  {
    if i < j {
      NonIncreasingPairwise(s, key, i + 1, j);
    }
  }

  /** Inserts `x` before the first element whose key is not greater than its own. */
  function InsertDescending<T>(x: T, s: seq<T>, key: T -> int): (r: seq<T>)
    requires NonIncreasing(s, key)
    ensures multiset(r) == multiset(s) + multiset{x}
    ensures NonIncreasing(r, key)
    ensures |r| == |s| + 1
    ensures r[0] == x || (s != [] && r[0] == s[0])
  {
    if s == [] || key(x) >= key(s[0]) then [x] + s
    else
      assert s == [s[0]] + s[1..];
      [s[0]] + InsertDescending(x, s[1..], key)
  }

  /** A stable sort by descending key (insertion sort). */
  function SortDescending<T>(s: seq<T>, key: T -> int): (r: seq<T>)
    ensures multiset(r) == multiset(s)
    ensures NonIncreasing(r, key)
  {
    if s == [] then []
    else
      assert s == [s[0]] + s[1..];
      InsertDescending(s[0], SortDescending(s[1..], key), key)
  }

  /** The elements of `s` whose key is `v`, in order. */
  function WithKey<T>(s: seq<T>, key: T -> int, v: int): seq<T>
  {
    if s == [] then [] else (if key(s[0]) == v then [s[0]] else []) + WithKey(s[1..], key, v)
  }

  lemma WithKeyCons<T>(y: T, t: seq<T>, key: T -> int, v: int)
    ensures WithKey([y] + t, key, v) == (if key(y) == v then [y] else []) + WithKey(t, key, v)
  {
    assert ([y] + t)[1..] == t;
  }

  /** Inserting `x` puts it before every element of equal key. */
  lemma {:induction false} InsertDescendingWithKey<T>(x: T, s: seq<T>, key: T -> int, v: int)
    requires NonIncreasing(s, key)
    ensures WithKey(InsertDescending(x, s, key), key, v) == (if key(x) == v then [x] else []) + WithKey(s, key, v)
    decreases |s|
  {
    if s == [] || key(x) >= key(s[0]) {
      assert InsertDescending(x, s, key) == [x] + s;
      WithKeyCons(x, s, key, v);
    } else {
      var y, t := s[0], s[1..];
      assert s == [y] + t;
      var rest := InsertDescending(x, t, key);
      assert InsertDescending(x, s, key) == [y] + rest;
      InsertDescendingWithKey(x, t, key, v);
      WithKeyCons(y, rest, key, v);
      WithKeyCons(y, t, key, v);
      var w := WithKey(t, key, v);
      if key(x) == v {
        assert WithKey(s, key, v) == w && WithKey(rest, key, v) == [x] + w;
      } else if key(y) == v {
        assert WithKey(s, key, v) == [y] + w && WithKey(rest, key, v) == w;
      } else {
        assert WithKey(s, key, v) == w && WithKey(rest, key, v) == w;
      }
    }
  }

  /** SortDescending is stable: the elements of any one key keep their
      order in the input. */
  lemma {:induction false} SortDescendingStable<T>(s: seq<T>, key: T -> int, v: int)
    ensures WithKey(SortDescending(s, key), key, v) == WithKey(s, key, v)
    decreases |s|
  {
    if s != [] {
      SortDescendingStable(s[1..], key, v);
      InsertDescendingWithKey(s[0], SortDescending(s[1..], key), key, v);
    }
  }

  /** Cutting `t` around position `j` cuts the images there too. */
  lemma MapSeqAround<A, B>(t: seq<A>, j: nat, f: A -> B)
    requires j < |t|
    ensures MapSeq(t, f) == MapSeq(t[..j], f) + [f(t[j])] + MapSeq(t[j + 1..], f)
  {
    assert t == t[..j + 1] + t[j + 1..];
    MapSeqConcat(t[..j + 1], t[j + 1..], f);
    MapSeqStep(t, j, f);
  }

  /** The images do not depend on the order of the elements. */
  lemma {:induction false} MapSeqPermutation<A, B>(s: seq<A>, t: seq<A>, f: A -> B)
    requires multiset(s) == multiset(t)
    ensures multiset(MapSeq(s, f)) == multiset(MapSeq(t, f))
    decreases |s|
  {
    if s == [] {
      assert |t| == |multiset(t)| == 0;
      assert t == [];
    } else {
      var n := |s| - 1;
      assert s[n] in multiset(t);
      var j :| 0 <= j < |t| && t[j] == s[n];
      MultisetRemove(s, n);
      MultisetRemove(t, j);
      assert s[..n] + s[n + 1..] == s[..n];
      MapSeqPermutation(s[..n], t[..j] + t[j + 1..], f);
      MapSeqRemove(t, j, f);
      MapSeqRemove(s, n, f);
    }
  }

  /** The images of `t` are those of `t` without its element at `j`, plus
      that element's image. */
  lemma MapSeqRemove<A, B>(t: seq<A>, j: nat, f: A -> B)
    requires j < |t|
    ensures multiset(MapSeq(t, f)) == multiset(MapSeq(t[..j] + t[j + 1..], f)) + multiset{f(t[j])}
  {
    MapSeqConcat(t[..j], t[j + 1..], f);
    MapSeqAround(t, j, f);
    var mf, mb := MapSeq(t[..j], f), MapSeq(t[j + 1..], f);
    assert multiset(mf + [f(t[j])] + mb) == multiset(mf) + multiset{f(t[j])} + multiset(mb);
  }

  /** The first of a non-increasing list of numbers is its largest. */
  lemma {:induction false} DescendingHeadIsMax(a: seq<int>, k: nat)
    requires forall i :: 0 < i < |a| ==> a[i - 1] >= a[i]
    requires k < |a|
    ensures a[0] >= a[k]
    decreases k
  {
    if k > 0 {
      DescendingHeadIsMax(a, k - 1);
    }
  }

  /** Two non-increasing lists of the same numbers start alike. */
  lemma DescendingSameHead(a: seq<int>, b: seq<int>)
    requires multiset(a) == multiset(b) && a != []
    requires forall i :: 0 < i < |a| ==> a[i - 1] >= a[i]
    requires forall i :: 0 < i < |b| ==> b[i - 1] >= b[i]
    ensures |b| == |a| && a[0] == b[0]
  {
    assert |a| == |multiset(a)| == |multiset(b)| == |b|;
    assert b[0] in multiset(a);
    var k :| 0 <= k < |a| && a[k] == b[0];
    DescendingHeadIsMax(a, k);
    assert a[0] in multiset(b);
    var m :| 0 <= m < |b| && b[m] == a[0];
    DescendingHeadIsMax(b, m);
  }

  lemma DescendingTail(a: seq<int>)
    requires a != []
    requires forall i :: 0 < i < |a| ==> a[i - 1] >= a[i]
    ensures forall i :: 0 < i < |a[1..]| ==> a[1..][i - 1] >= a[1..][i]
  {
    forall i | 0 < i < |a[1..]|
      ensures a[1..][i - 1] >= a[1..][i]
    {
      assert a[1..][i - 1] == a[i] && a[1..][i] == a[i + 1];
    }
  }

  lemma MultisetTails<T>(a: seq<T>, b: seq<T>)
    requires multiset(a) == multiset(b) && a != [] && b != [] && a[0] == b[0]
    ensures multiset(a[1..]) == multiset(b[1..])
  {
    assert a == [a[0]] + a[1..] && b == [b[0]] + b[1..];
    assert multiset(a[1..]) == multiset(a) - multiset{a[0]};
    assert multiset(b[1..]) == multiset(b) - multiset{b[0]};
  }

  /** Two non-increasing lists of the same numbers are the same list. */
  lemma {:induction false} DescendingUnique(a: seq<int>, b: seq<int>)
    requires multiset(a) == multiset(b)
    requires forall i :: 0 < i < |a| ==> a[i - 1] >= a[i]
    requires forall i :: 0 < i < |b| ==> b[i - 1] >= b[i]
    ensures a == b
    decreases |a|
  {
    if a == [] {
      assert |b| == |multiset(b)| == 0;
    } else {
      DescendingSameHead(a, b);
      MultisetTails(a, b);
      DescendingTail(a);
      DescendingTail(b);
      DescendingUnique(a[1..], b[1..]);
      assert a == [a[0]] + a[1..] && b == [b[0]] + b[1..];
    }
  }

  /** Two orderings of the same elements by non-increasing key list the
      same keys in the same order: they differ at most in how they order
      elements with equal keys. */
  lemma SortedKeysUnique<T>(a: seq<T>, b: seq<T>, key: T -> int)
    requires multiset(a) == multiset(b)
    requires NonIncreasing(a, key) && NonIncreasing(b, key)
    ensures MapSeq(a, key) == MapSeq(b, key)
  {
    MapSeqPermutation(a, b, key);
    MapSeqIndex(a, key);
    MapSeqIndex(b, key);
    DescendingUnique(MapSeq(a, key), MapSeq(b, key));
  }

  /** Indexing into the second or first part of a concatenation. */
  lemma IndexAfter<T>(a: seq<T>, b: seq<T>, i: nat)
    requires i < |b|
    ensures |a| + i < |a + b| && (a + b)[|a| + i] == b[i]
  {
  }

  lemma IndexBefore<T>(a: seq<T>, b: seq<T>, i: nat)
    requires i < |a|
    ensures (a + b)[i] == a[i]
  {
  }
}
