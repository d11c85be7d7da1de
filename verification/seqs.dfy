/**
 * The array methods the client relies on, on immutable sequences:
 * `find`/`findIndex` (FindFirst) and `filter` (Filter), with the lemmas
 * that say which elements a filter keeps and in which order.
 */
module Seqs {
  import opened Types

  /**
   * `Array.prototype.findIndex`: the first position whose element satisfies
   * `p`, or None (the source's -1). `find` returns the element at that position.
   */
  function FindFirst<T>(s: seq<T>, p: T -> bool): (r: Option<nat>)
    ensures r.Some? ==> r.value < |s| && p(s[r.value])
    ensures r.Some? ==> forall j :: 0 <= j < r.value ==> !p(s[j])
    ensures r.None? <==> forall j :: 0 <= j < |s| ==> !p(s[j])
  {
    if s == [] then None
    else if p(s[0]) then Some(0)
    else match FindFirst(s[1..], p)
      case None => None
      case Some(i) => Some(i + 1)
  }

  /** `Array.prototype.filter`, peeled from the last element. */
  function Filter<T>(s: seq<T>, keep: T -> bool): (r: seq<T>)
    ensures |r| <= |s|
    ensures forall x :: x in r ==> x in s && keep(x)
  {
    if s == [] then []
    else
      var init := Filter(s[..|s| - 1], keep);
      if keep(s[|s| - 1]) then init + [s[|s| - 1]] else init
  }

  /** The positions of `s` whose elements `Filter` keeps, in increasing order. */
  function KeptIndices<T>(s: seq<T>, keep: T -> bool): seq<nat>
  {
    if s == [] then []
    else
      var init := KeptIndices(s[..|s| - 1], keep);
      if keep(s[|s| - 1]) then init + [|s| - 1] else init
  }

  ghost predicate StrictlyIncreasing(idx: seq<nat>)
  {
    forall a, b :: 0 <= a < b < |idx| ==> idx[a] < idx[b]
  }

  /**
   * `Filter(s, keep)` is the order-preserving subsequence of `s` made of
   * exactly the elements that satisfy `keep`: its k-th element is the
   * element of `s` at the k-th kept position, and a position is kept iff
   * its element satisfies `keep`.
   */
  lemma {:induction false} FilterSelects<T>(s: seq<T>, keep: T -> bool)
    ensures |KeptIndices(s, keep)| == |Filter(s, keep)|
    ensures StrictlyIncreasing(KeptIndices(s, keep))
    ensures forall k :: 0 <= k < |KeptIndices(s, keep)| ==>
              KeptIndices(s, keep)[k] < |s| && Filter(s, keep)[k] == s[KeptIndices(s, keep)[k]]
    ensures forall i: nat :: i < |s| ==> (keep(s[i]) <==> i in KeptIndices(s, keep))
  {
    if s != [] {
      var n := |s| - 1;
      var init := s[..n];
      FilterSelects(init, keep);
      var idx0, r0 := KeptIndices(init, keep), Filter(init, keep);
      var idx, r := KeptIndices(s, keep), Filter(s, keep);
      assert forall i :: 0 <= i < n ==> init[i] == s[i];
      assert forall k :: 0 <= k < |idx0| ==> idx0[k] < n;
      if keep(s[n]) {
        assert idx == idx0 + [n] && r == r0 + [s[n]];
      } else {
        assert idx == idx0 && r == r0;
      }
      forall i: nat | i < |s|
        ensures keep(s[i]) <==> i in idx
      {
        if i < n {
          assert i in idx0 <==> i in idx;
        }
      }
    }
  }

  /** A filter that keeps every element returns its input. */
  lemma {:induction false} FilterKeepsAll<T>(s: seq<T>, keep: T -> bool)
    requires forall i :: 0 <= i < |s| ==> keep(s[i])
    ensures Filter(s, keep) == s
  {
    if s != [] {
      FilterKeepsAll(s[..|s| - 1], keep);
      assert s[..|s| - 1] + [s[|s| - 1]] == s;
    }
  }

  /** Filtering a sequence with `x` in front keeps or drops `x`, then filters the rest. */
  lemma {:induction false} FilterCons<T>(x: T, s: seq<T>, keep: T -> bool)
    ensures Filter([x] + s, keep) == (if keep(x) then [x] else []) + Filter(s, keep)
  {
    if s != [] {
      var n := |s| - 1;
      FilterCons(x, s[..n], keep);
      assert ([x] + s)[..|[x] + s| - 1] == [x] + s[..n];
      assert ([x] + s)[|[x] + s| - 1] == s[n];
    }
  }

  /** Sequences with the same filter still have the same filter with one element put in front. */
  lemma FilterConsCongruent<T>(x: T, s1: seq<T>, s2: seq<T>, keep: T -> bool)
    requires Filter(s1, keep) == Filter(s2, keep)
    ensures Filter([x] + s1, keep) == Filter([x] + s2, keep)
  {
    FilterCons(x, s1, keep);
    FilterCons(x, s2, keep);
  }

  /** Swapping two neighbours that are not both kept leaves the filter unchanged. */
  lemma FilterSwap<T>(a: T, b: T, s: seq<T>, keep: T -> bool)
    requires !keep(a) || !keep(b)
    ensures Filter([a] + ([b] + s), keep) == Filter([b] + ([a] + s), keep)
  {
    FilterCons(a, [b] + s, keep);
    FilterCons(b, s, keep);
    FilterCons(b, [a] + s, keep);
    FilterCons(a, s, keep);
  }
}
