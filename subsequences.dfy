/** Order-preserving sub-lists, defined independently of any filter. */
module Subsequences {

  /** `idx` picks, in strictly increasing order, positions of `b` that spell out `a`. */
  ghost predicate Embeds<T>(idx: seq<int>, a: seq<T>, b: seq<T>)
  {
    && |idx| == |a|
    && (forall k :: 0 <= k < |idx| ==> 0 <= idx[k] < |b| && a[k] == b[idx[k]])
    && (forall k, l :: 0 <= k < l < |idx| ==> idx[k] < idx[l])
  }

  /** `a` is obtained from `b` by deleting elements, keeping the rest in order. */
  ghost predicate IsSubsequence<T>(a: seq<T>, b: seq<T>)
  {
    exists idx :: Embeds(idx, a, b)
  }

  lemma EmptyIsSubsequence<T>(b: seq<T>)
    ensures IsSubsequence([], b)
  {
    assert Embeds([], [], b);
  }

  /** Appending the same tail to both sides keeps the sub-list relation. */
  lemma SubsequenceAppend<T>(a: seq<T>, b: seq<T>, t: seq<T>)
    requires IsSubsequence(a, b)
    ensures IsSubsequence(a + t, b + t)
  {
    var idx :| Embeds(idx, a, b);
    var tail := seq(|t|, i => |b| + i);
    var idx' := idx + tail;
    forall k | 0 <= k < |idx'|
      ensures 0 <= idx'[k] < |b + t| && (a + t)[k] == (b + t)[idx'[k]]
    {
      if k >= |idx| {
        assert idx'[k] == |b| + (k - |idx|);
      }
    }
    assert Embeds(idx', a + t, b + t);
  }

  /** A sub-list is never longer and holds only elements of the full list. */
  lemma SubsequenceElements<T>(a: seq<T>, b: seq<T>)
    requires IsSubsequence(a, b)
    ensures |a| <= |b|
    ensures forall x :: x in a ==> x in b
  {
    var idx :| Embeds(idx, a, b);
    forall x | x in a ensures x in b {
      var k :| 0 <= k < |a| && a[k] == x;
      assert b[idx[k]] == x;
    }
    if |a| > |b| {
      // |b| + 1 strictly increasing positions below |b| cannot exist
      StrictlyIncreasingBound(idx[..|b| + 1], |b|);
    }
  }

  lemma {:induction false} StrictlyIncreasingBound(idx: seq<int>, n: nat)
    requires forall k :: 0 <= k < |idx| ==> 0 <= idx[k] < n
    requires forall k, l :: 0 <= k < l < |idx| ==> idx[k] < idx[l]
    ensures |idx| <= n
  {
    if |idx| > 0 {
      var p := idx[..|idx| - 1];
      StrictlyIncreasingBound(p, idx[|idx| - 1]);
    }
  }
}
