/**
 * Sequence operations the stores are built from: `Array.prototype.filter`,
 * de-duplication through a `Set` (which keeps insertion order), sums and means,
 * and a stable insertion sort standing for the runtime's stable `Array.prototype.sort`.
 * Recursive definitions peel the LAST element so that a loop over `s[..i]` can
 * follow them one step at a time.
 */
module Seqs {

  /** The prefix one longer is the prefix and the next element: the step of every loop over `s[..i]`. */
  lemma TakeSnoc<T>(s: seq<T>, i: int)
    requires 0 <= i < |s|
    ensures s[..i + 1] == s[..i] + [s[i]]
  {
  }

  /** `s` with no element occurring twice. */
  ghost predicate NoDup<T>(s: seq<T>) {
    forall i, j :: 0 <= i < j < |s| ==> s[i] != s[j]
  }

  /** `a` is `b` with some elements deleted (order kept). */
  ghost predicate IsSubsequence<T>(a: seq<T>, b: seq<T>)
    decreases |b|
  {
    if a == [] then true
    else if b == [] then false
    else if a[|a| - 1] == b[|b| - 1] then IsSubsequence(a[..|a| - 1], b[..|b| - 1])
    else IsSubsequence(a, b[..|b| - 1])
  }

  /** The elements of `s` satisfying `p`, in their original order. */
  function Filter<T>(s: seq<T>, p: T -> bool): (r: seq<T>)
    ensures |r| <= |s|
    ensures forall x :: x in r ==> x in s && p(x)
  {
    if s == [] then []
    else Filter(s[..|s| - 1], p) + (if p(s[|s| - 1]) then [s[|s| - 1]] else [])
  }

  lemma {:induction false} FilterKeepsMatching<T>(s: seq<T>, p: T -> bool, i: int)
    requires 0 <= i < |s| && p(s[i])
    ensures s[i] in Filter(s, p)
  {
    if i < |s| - 1 {
      FilterKeepsMatching(s[..|s| - 1], p, i);
    }
  }

  lemma FilterMembership<T>(s: seq<T>, p: T -> bool)
    ensures forall x :: x in Filter(s, p) <==> x in s && p(x)
  {
    forall i | 0 <= i < |s| && p(s[i]) ensures s[i] in Filter(s, p) {
      FilterKeepsMatching(s, p, i);
    }
  }

  /** `Filter` keeps exactly the matching elements, with their multiplicities. */
  lemma {:induction false} FilterMultiset<T>(s: seq<T>, p: T -> bool, x: T)
    ensures multiset(Filter(s, p))[x] == if p(x) then multiset(s)[x] else 0
  {
    if s != [] {
      var n := |s| - 1;
      FilterMultiset(s[..n], p, x);
      assert s == s[..n] + [s[n]];
    }
  }

  lemma {:induction false} FilterIsSubsequence<T>(s: seq<T>, p: T -> bool)
    ensures IsSubsequence(Filter(s, p), s)
  {
    if s != [] {
      var n := |s| - 1;
      FilterIsSubsequence(s[..n], p);
      assert s == s[..n] + [s[n]];
      if p(s[n]) {
        var f := Filter(s, p);
        assert f[..|f| - 1] == Filter(s[..n], p);
      } else {
        assert Filter(s, p) == Filter(s[..n], p);
        SubsequenceExtend(Filter(s, p), s[..n], s[n]);
      }
    }
  }

  /** A subsequence of `b` stays one when `b` grows at the end. */
  lemma {:induction false} SubsequenceExtend<T>(a: seq<T>, b: seq<T>, y: T)
    requires IsSubsequence(a, b)
    ensures IsSubsequence(a, b + [y])
    decreases |b|, 1
  {
    assert (b + [y])[..|b|] == b;
    if a != [] && a[|a| - 1] == y {
      SubsequenceDropLast(a, b);
    }
  }

  lemma {:induction false} SubsequenceDropLast<T>(a: seq<T>, b: seq<T>)
    requires a != [] && IsSubsequence(a, b)
    ensures IsSubsequence(a[..|a| - 1], b)
    decreases |b|, 0
  {
    var a', b' := a[..|a| - 1], b[..|b| - 1];
    assert b == b' + [b[|b| - 1]];
    if a[|a| - 1] == b[|b| - 1] {
      SubsequenceExtend(a', b', b[|b| - 1]);
    } else {
      SubsequenceDropLast(a, b');
      SubsequenceExtend(a', b', b[|b| - 1]);
    }
  }

  lemma {:induction false} FilterAll<T>(s: seq<T>, p: T -> bool)
    requires forall i :: 0 <= i < |s| ==> p(s[i])
    ensures Filter(s, p) == s
  {
    if s != [] {
      var n := |s| - 1;
      var init := s[..n];
      assert init + [s[n]] == s;
      assert p(s[n]);
      assert forall i :: 0 <= i < n ==> p(init[i]) by {
        forall i | 0 <= i < n ensures p(init[i]) {
          assert init[i] == s[i];
        }
      }
      FilterAll(init, p);
    }
  }

  lemma {:induction false} FilterNone<T>(s: seq<T>, p: T -> bool)
    requires forall i :: 0 <= i < |s| ==> !p(s[i])
    ensures Filter(s, p) == []
  {
    if s != [] {
      FilterNone(s[..|s| - 1], p);
    }
  }

  /** Two predicates that agree on the elements of `s` filter it alike. */
  lemma {:induction false} FilterCongruent<T>(s: seq<T>, p: T -> bool, q: T -> bool)
    requires forall i :: 0 <= i < |s| ==> p(s[i]) == q(s[i])
    ensures Filter(s, p) == Filter(s, q)
  {
    if s != [] {
      FilterCongruent(s[..|s| - 1], p, q);
    }
  }

  /** One more element is kept exactly when it matches. */
  lemma FilterSnoc<T>(s: seq<T>, x: T, p: T -> bool)
    ensures Filter(s + [x], p) == Filter(s, p) + (if p(x) then [x] else [])
  {
    assert (s + [x])[..|s|] == s;
  }

  /** Filtering by `p` and then by `q` is filtering once by both. */
  lemma {:induction false} FilterFilter<T>(s: seq<T>, p: T -> bool, q: T -> bool, both: T -> bool)
    requires forall x :: both(x) == (p(x) && q(x))
    ensures Filter(Filter(s, p), q) == Filter(s, both)
  {
    if s != [] {
      var n := |s| - 1;
      FilterFilter(s[..n], p, q, both);
      assert Filter(s, both) == Filter(s[..n], both) + (if both(s[n]) then [s[n]] else []);
      if p(s[n]) {
        assert Filter(s, p) == Filter(s[..n], p) + [s[n]];
        FilterSnoc(Filter(s[..n], p), s[n], q);
      } else {
        assert Filter(s, p) == Filter(s[..n], p);
      }
    }
  }

  /** Index of the first occurrence of `x` in `s`. */
  function FirstIndex<T(==)>(s: seq<T>, x: T): (k: nat)
    requires x in s
    ensures k < |s| && s[k] == x
    ensures forall j :: 0 <= j < k ==> s[j] != x
  {
    if s[0] == x then 0 else 1 + FirstIndex(s[1..], x)
  }

  /**
   * The distinct elements of `s` in first-encounter order: what
   * `Array.from(new Set(s))` and the keys of a `Map` filled from `s` hold.
   */
  function Distinct<T(==)>(s: seq<T>): (r: seq<T>)
    ensures forall i :: 0 <= i < |r| ==> r[i] in s
    ensures forall i :: 0 <= i < |s| ==> s[i] in r
  {
    if s == [] then []
    else
      var p := Distinct(s[..|s| - 1]);
      if s[|s| - 1] in p then p else p + [s[|s| - 1]]
  }

  lemma FirstIndexOfPrefix<T>(s: seq<T>, n: nat, x: T)
    requires n <= |s| && x in s[..n]
    ensures x in s && FirstIndex(s, x) == FirstIndex(s[..n], x)
  {
    var k := FirstIndex(s[..n], x);
    assert s[k] == x;
    var m := FirstIndex(s, x);
    assert m <= k;
    assert s[..n][m] == x;
  }

  /** No duplicates, and listed in the order of their first occurrence in `s`. */
  lemma {:induction false} DistinctInEncounterOrder<T>(s: seq<T>)
    ensures NoDup(Distinct(s))
    ensures forall i, j :: 0 <= i < j < |Distinct(s)| ==>
      FirstIndex(s, Distinct(s)[i]) < FirstIndex(s, Distinct(s)[j])
  {
    if s != [] {
      var n := |s| - 1;
      var p := Distinct(s[..n]);
      DistinctInEncounterOrder(s[..n]);
      forall y | y in p ensures FirstIndex(s, y) == FirstIndex(s[..n], y) && FirstIndex(s, y) < n {
        FirstIndexOfPrefix(s, n, y);
      }
      if s[n] !in p {
        assert s[n] !in s[..n];
        forall j | 0 <= j < n ensures s[j] != s[n] {
          assert s[j] == s[..n][j];
        }
      }
    }
  }

  lemma DuplicateInMultiset<T>(r: seq<T>, i: int, j: int)
    requires 0 <= i < j < |r| && r[i] == r[j]
    ensures multiset(r)[r[i]] >= 2
  {
    assert r == r[..i] + [r[i]] + r[i + 1..j] + [r[j]] + r[j + 1..];
  }

  lemma {:induction false} NoDupCountsOnce<T>(d: seq<T>, x: T)
    requires NoDup(d)
    ensures multiset(d)[x] <= 1
  {
    if d != [] {
      var n := |d| - 1;
      assert NoDup(d[..n]);
      NoDupCountsOnce(d[..n], x);
      assert d == d[..n] + [d[n]];
      assert d[n] !in d[..n];
    }
  }

  /** A permutation of a list without repeats has none either. */
  lemma PermutationKeepsNoDup<T>(a: seq<T>, b: seq<T>)
    requires NoDup(a) && multiset(a) == multiset(b)
    ensures NoDup(b)
  {
    forall i, j | 0 <= i < j < |b| ensures b[i] != b[j] {
      if b[i] == b[j] {
        DuplicateInMultiset(b, i, j);
        NoDupCountsOnce(a, b[i]);
        assert false;
      }
    }
  }

  function Sum(xs: seq<int>): int {
    if xs == [] then 0 else Sum(xs[..|xs| - 1]) + xs[|xs| - 1]
  }

  lemma SumSnoc(xs: seq<int>, x: int)
    ensures Sum(xs + [x]) == Sum(xs) + x
  {
    assert (xs + [x])[..|xs|] == xs;
  }

  /** Arithmetic mean, with the empty list averaging to 0 as every caller does. */
  function Mean(xs: seq<int>): (m: real)
    ensures |xs| > 0 ==> m * |xs| as real == Sum(xs) as real
  {
    if xs == [] then 0.0 else Sum(xs) as real / |xs| as real
  }

  lemma {:induction false} SumBounds(xs: seq<int>, lo: int, hi: int)
    requires forall i :: 0 <= i < |xs| ==> lo <= xs[i] <= hi
    ensures |xs| * lo <= Sum(xs) <= |xs| * hi
  {
    if xs != [] {
      SumBounds(xs[..|xs| - 1], lo, hi);
    }
  }

  /** A mean lies between the smallest and largest value averaged. */
  lemma MeanBounds(xs: seq<int>, lo: int, hi: int)
    requires |xs| > 0
    requires forall i :: 0 <= i < |xs| ==> lo <= xs[i] <= hi
    ensures lo as real <= Mean(xs) <= hi as real
  {
    SumBounds(xs, lo, hi);
    var n, m := |xs| as real, Mean(xs);
    assert m * n == Sum(xs) as real;
    assert n * lo as real <= m * n <= n * hi as real;
  }

  // ---- stable insertion sort, parameterised by a total preorder -----------

  ghost predicate TotalPreorder<T(!new)>(le: (T, T) -> bool) {
    && (forall a, b :: le(a, b) || le(b, a))
    && (forall a, b, c :: le(a, b) && le(b, c) ==> le(a, c))
  }

  ghost predicate SortedBy<T>(s: seq<T>, le: (T, T) -> bool) {
    forall i, j :: 0 <= i < j < |s| ==> le(s[i], s[j])
  }

  /** In a sorted sequence, an element of a prefix is below every element past it. */
  lemma SortedPrefixBelow<T>(s: seq<T>, le: (T, T) -> bool, k: nat, x: T, y: T)
    requires SortedBy(s, le) && k <= |s|
    requires x in s[..k] && y in s && y !in s[..k]
    ensures le(x, y)
  {
    var i :| 0 <= i < k && s[..k][i] == x;
    forall m | 0 <= m < k
      ensures s[m] != y
    {
      assert s[..k][m] == s[m];
    }
    var j :| 0 <= j < |s| && s[j] == y;
    assert s[i] == x;
  }

  /** Places `x` after every element of `s` that is not strictly above it. */
  function Insert<T>(s: seq<T>, x: T, le: (T, T) -> bool): (r: seq<T>)
    ensures |r| == |s| + 1
  {
    if s == [] || le(s[|s| - 1], x) then s + [x]
    else Insert(s[..|s| - 1], x, le) + [s[|s| - 1]]
  }

  /** The stable sort: elements that compare equal keep their relative order. */
  function InsertionSort<T>(s: seq<T>, le: (T, T) -> bool): (r: seq<T>)
    ensures |r| == |s|
  {
    if s == [] then [] else Insert(InsertionSort(s[..|s| - 1], le), s[|s| - 1], le)
  }

  lemma {:induction false} InsertMultiset<T>(s: seq<T>, x: T, le: (T, T) -> bool)
    ensures multiset(Insert(s, x, le)) == multiset(s) + multiset{x}
  {
    if s != [] && !le(s[|s| - 1], x) {
      InsertMultiset(s[..|s| - 1], x, le);
      assert s == s[..|s| - 1] + [s[|s| - 1]];
    }
  }

  /** Insertion sorting permutes, whatever the comparison. */
  lemma {:induction false} InsertionSortPermutes<T>(s: seq<T>, le: (T, T) -> bool)
    ensures multiset(InsertionSort(s, le)) == multiset(s)
  {
    if s != [] {
      var n := |s| - 1;
      InsertionSortPermutes(s[..n], le);
      InsertMultiset(InsertionSort(s[..n], le), s[n], le);
      assert s == s[..n] + [s[n]];
    }
  }

  /** Comparisons that agree on the elements inserted give the same result. */
  lemma {:induction false} InsertCongruent<T>(s: seq<T>, x: T, le1: (T, T) -> bool, le2: (T, T) -> bool)
    requires forall i :: 0 <= i < |s| ==> le1(s[i], x) == le2(s[i], x)
    ensures Insert(s, x, le1) == Insert(s, x, le2)
  {
    if s != [] {
      InsertCongruent(s[..|s| - 1], x, le1, le2);
    }
  }

  /** Comparisons that agree on the elements of `s` sort it alike. */
  lemma {:induction false} InsertionSortCongruent<T>(s: seq<T>, le1: (T, T) -> bool, le2: (T, T) -> bool)
    requires forall a, b :: a in s && b in s ==> le1(a, b) == le2(a, b)
    ensures InsertionSort(s, le1) == InsertionSort(s, le2)
  {
    if s != [] {
      var n := |s| - 1;
      var sorted := InsertionSort(s[..n], le1);
      InsertionSortCongruent(s[..n], le1, le2);
      InsertionSortPermutes(s[..n], le1);
      forall i | 0 <= i < |sorted| ensures le1(sorted[i], s[n]) == le2(sorted[i], s[n]) {
        assert sorted[i] in multiset(s[..n]);
      }
      InsertCongruent(sorted, s[n], le1, le2);
    }
  }

  lemma {:induction false} InsertSorted<T(!new)>(s: seq<T>, x: T, le: (T, T) -> bool)
    requires TotalPreorder(le) && SortedBy(s, le)
    ensures SortedBy(Insert(s, x, le), le)
  {
    if s != [] && !le(s[|s| - 1], x) {
      var n := |s| - 1;
      InsertSorted(s[..n], x, le);
      InsertMultiset(s[..n], x, le);
      var t := Insert(s[..n], x, le);
      assert le(x, s[n]);
      forall i | 0 <= i < |t| ensures le(t[i], s[n]) {
        assert t[i] in multiset(s[..n]) + multiset{x} by {
          assert t[i] in multiset(t);
        }
        if t[i] != x {
          assert t[i] in s[..n];
        }
      }
    }
  }

  /**
   * Inserting `y` does not reorder the elements of a class `same` whose
   * members all compare as equal: `y` goes after every one of them.
   */
  lemma {:induction false} InsertKeepsClassOrder<T>(s: seq<T>, y: T, le: (T, T) -> bool, same: T -> bool)
    requires forall a, b :: same(a) && same(b) ==> le(a, b)
    ensures Filter(Insert(s, y, le), same) == Filter(s, same) + (if same(y) then [y] else [])
  {
    if s == [] || le(s[|s| - 1], y) {
      FilterSnoc(s, y, same);
    } else {
      var n := |s| - 1;
      var t := Insert(s[..n], y, le);
      assert Insert(s, y, le) == t + [s[n]];
      assert s == s[..n] + [s[n]];
      InsertKeepsClassOrder(s[..n], y, le, same);
      FilterSnoc(t, s[n], same);
      FilterSnoc(s[..n], s[n], same);
      if same(y) {
        assert !same(s[n]);
      }
    }
  }

  /**
   * The sort is stable: the members of a class `same` whose elements all
   * compare as equal come out in the order they went in.
   */
  lemma {:induction false} InsertionSortStable<T>(s: seq<T>, le: (T, T) -> bool, same: T -> bool)
    requires forall a, b :: same(a) && same(b) ==> le(a, b)
    ensures Filter(InsertionSort(s, le), same) == Filter(s, same)
  {
    if s != [] {
      var n := |s| - 1;
      InsertionSortStable(s[..n], le, same);
      InsertKeepsClassOrder(InsertionSort(s[..n], le), s[n], le, same);
      FilterSnoc(s[..n], s[n], same);
      assert s == s[..n] + [s[n]];
    }
  }

  /** The sort's result is ordered and is a permutation of its input. */
  lemma {:induction false} InsertionSortCorrect<T(!new)>(s: seq<T>, le: (T, T) -> bool)
    requires TotalPreorder(le)
    ensures SortedBy(InsertionSort(s, le), le)
    ensures multiset(InsertionSort(s, le)) == multiset(s)
  {
    if s != [] {
      var n := |s| - 1;
      InsertionSortCorrect(s[..n], le);
      InsertSorted(InsertionSort(s[..n], le), s[n], le);
      InsertMultiset(InsertionSort(s[..n], le), s[n], le);
      assert s == s[..n] + [s[n]];
    }
  }
}
