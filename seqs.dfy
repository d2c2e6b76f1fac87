/** Sequence operations with Python list semantics. */
module Seqs {
  import opened Wrappers

  /** Index of the first occurrence of `k` in `ks`, the search of a Python `for ... if ... return` loop. */
  function FirstIndex<K(==)>(ks: seq<K>, k: K): (r: Option<nat>)
    ensures r.Some? ==> r.value < |ks| && ks[r.value] == k
    ensures r.Some? ==> forall j :: 0 <= j < r.value ==> ks[j] != k
    ensures r.None? <==> k !in ks
  {
    if |ks| == 0 then None
    else if ks[0] == k then Some(0)
    else
      match FirstIndex(ks[1..], k)
      case None => None
      case Some(i) => Some(i + 1)
  }

  /** The first occurrence is the only one when the keys are distinct. */
  predicate Distinct<K(==)>(ks: seq<K>) {
    forall i, j :: 0 <= i < j < |ks| ==> ks[i] != ks[j]
  }

  /** A sequence without repeats has as many elements as it has distinct ones. */
  lemma {:induction false} DistinctCard<T>(s: seq<T>)
    requires Distinct(s)
    ensures |set x | x in s| == |s|
  {
    if s != [] {
      var init := s[..|s| - 1];
      DistinctCard(init);
      assert (set x | x in s) == (set x | x in init) + {s[|s| - 1]};
      assert s[|s| - 1] !in init;
    }
  }

  lemma FirstIndexOfDistinct<K>(ks: seq<K>, i: nat)
    requires Distinct(ks) && i < |ks|
    ensures FirstIndex(ks, ks[i]) == Some(i)
  {
  }

  /** The index at which Python's `list.insert(position, x)` places `x` in a list of length `len`:
      a negative position counts from the end, and both ends clamp. */
  function InsertIndex(len: nat, position: int): (k: nat)
    ensures k <= len
    ensures 0 <= position <= len ==> k == position
    ensures position > len ==> k == len
    ensures position < 0 ==> k == if len + position < 0 then 0 else len + position
  {
    if position < 0 then (if len + position < 0 then 0 else len + position)
    else if position > len then len
    else position
  }

  /** `s` with `x` inserted before index `k`. */
  function InsertAt<T>(s: seq<T>, k: nat, x: T): (r: seq<T>)
    requires k <= |s|
    ensures |r| == |s| + 1 && r[k] == x
    ensures forall j {:trigger r[j]} :: 0 <= j < k ==> r[j] == s[j]
    ensures forall j {:trigger r[j]} :: k < j <= |s| ==> r[j] == s[j - 1]
  {
    s[..k] + [x] + s[k..]
  }

  /** `s` with the element at index `k` deleted, as `list.remove` of that element does. */
  function RemoveAt<T>(s: seq<T>, k: nat): (r: seq<T>)
    requires k < |s|
    ensures |r| == |s| - 1
    ensures forall j {:trigger r[j]} :: 0 <= j < k ==> r[j] == s[j]
    ensures forall j {:trigger r[j]} :: k <= j < |r| ==> r[j] == s[j + 1]
  {
    s[..k] + s[k + 1..]
  }

  /** `r` is `s` with some elements left out and the others in their order. */
  predicate IsSubsequence<T(==)>(r: seq<T>, s: seq<T>)
    decreases |s|
  {
    if s == [] then r == []
    else (r != [] && r[|r| - 1] == s[|s| - 1] && IsSubsequence(r[..|r| - 1], s[..|s| - 1]))
         || IsSubsequence(r, s[..|s| - 1])
  }

  /** `[x for x in s if keep(x)]`: the kept elements, each as often as in `s`, in their order. */
  function Filter<T(==,!new)>(s: seq<T>, keep: T -> bool): (r: seq<T>)
    ensures |r| <= |s|
    ensures IsSubsequence(r, s)
    ensures forall x :: multiset(r)[x] == if keep(x) then multiset(s)[x] else 0
  {
    if s == [] then []
    else
      var init, last := s[..|s| - 1], s[|s| - 1];
      var r := Filter(init, keep) + (if keep(last) then [last] else []);
      FilterStep(s, Filter(init, keep), keep);
      r
  }

  /** One more element for a filter of the first `|s| - 1`: kept when `keep` says so. */
  lemma FilterStep<T(!new)>(s: seq<T>, f: seq<T>, keep: T -> bool)
    requires s != []
    requires IsSubsequence(f, s[..|s| - 1])
    requires forall x :: multiset(f)[x] == if keep(x) then multiset(s[..|s| - 1])[x] else 0
    ensures var r := f + (if keep(s[|s| - 1]) then [s[|s| - 1]] else []);
            && IsSubsequence(r, s)
            && forall x :: multiset(r)[x] == if keep(x) then multiset(s)[x] else 0
  {
    var init, last := s[..|s| - 1], s[|s| - 1];
    var r := f + (if keep(last) then [last] else []);
    assert s == init + [last];
    assert multiset(s) == multiset(init) + multiset{last};
    if keep(last) {
      assert r[..|r| - 1] == f && r[|r| - 1] == last;
      assert multiset(r) == multiset(f) + multiset{last};
    } else {
      assert r == f;
    }
  }

  /** The filter keeps exactly the elements `keep` accepts. */
  lemma FilterMembers<T(!new)>(s: seq<T>, keep: T -> bool, x: T)
    ensures x in Filter(s, keep) <==> x in s && keep(x)
  {
    assert x in Filter(s, keep) <==> multiset(Filter(s, keep))[x] > 0;
    assert x in s <==> multiset(s)[x] > 0;
  }

  /** Keeping a subsequence's order: the reversal of two different elements is not one. */
  lemma SwapIsNotSubsequence<T>(a: T, b: T)
    requires a != b
    ensures !IsSubsequence([b, a], [a, b])
  {
    assert [a, b][..1] == [a] && [b, a][..1] == [b] && [a][..0] == [];
    assert !IsSubsequence([b], []) && !IsSubsequence([b, a], []);
    assert !IsSubsequence([b, a], [a]);
  }
}
