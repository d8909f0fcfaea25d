/**
 * Sequence vocabulary used by the exercises: order-preserving filtering
 * (the behaviour of the array `filter` method the source calls), the
 * subsequence relation that states "keeps the input order", and reversal,
 * which states the last-in-first-out law of the stack.
 */
module Seqs {

  /** `a` can be obtained from `b` by deleting elements, without reordering. */
  ghost predicate IsSubsequence<T>(a: seq<T>, b: seq<T>)
    decreases |b|
  {
    a == [] ||
    (b != [] &&
     ((a[0] == b[0] && IsSubsequence(a[1..], b[1..])) || IsSubsequence(a, b[1..])))
  }

  /**
   * The elements of `s` that satisfy `keep`, in their original order.
   * Together, the three postconditions determine `r` uniquely: only kept
   * elements, every kept element with its multiplicity, and in input order.
   */
  function Filter<T>(s: seq<T>, keep: T -> bool): (r: seq<T>)
    ensures forall i :: 0 <= i < |r| ==> keep(r[i])
    ensures multiset(r) <= multiset(s)
    ensures forall x | x in s :: multiset(r)[x] == if keep(x) then multiset(s)[x] else 0
    ensures IsSubsequence(r, s)
    ensures |r| <= |s|
  {
    if s == [] then []
    else
      assert s == [s[0]] + s[1..];
      var rest := Filter(s[1..], keep);
      if keep(s[0]) then [s[0]] + rest else rest
  }

  /** Filtering an already filtered sequence with the same test changes nothing. */
  lemma {:induction false} FilterIdempotent<T>(s: seq<T>, keep: T -> bool)
    ensures Filter(Filter(s, keep), keep) == Filter(s, keep)
    decreases |s|
  {
    if s != [] {
      FilterIdempotent(s[1..], keep);
      var rest := Filter(s[1..], keep);
      if keep(s[0]) {
        assert ([s[0]] + rest)[1..] == rest;
      }
    }
  }

  /** When every element passes the test, the result is the input itself. */
  lemma {:induction false} FilterAllKept<T>(s: seq<T>, keep: T -> bool)
    requires forall i :: 0 <= i < |s| ==> keep(s[i])
    ensures Filter(s, keep) == s
    decreases |s|
  {
    if s != [] {
      FilterAllKept(s[1..], keep);
      assert s == [s[0]] + s[1..];
    }
  }

  /** `s` read from its last element to its first. */
  function Reversed<T>(s: seq<T>): (r: seq<T>)
    ensures |r| == |s|
  {
    if s == [] then [] else [s[|s| - 1]] + Reversed(s[..|s| - 1])
  }

  /** Element `k` of the reversal is element `|s| - 1 - k` of the original. */
  lemma {:induction false} ReversedIndex<T>(s: seq<T>, k: nat)
    requires k < |s|
    ensures Reversed(s)[k] == s[|s| - 1 - k]
    decreases |s|
  {
    if k > 0 {
      ReversedIndex(s[..|s| - 1], k - 1);
    }
  }
}
