/**
 * Order-preserving selection from a sequence: the value-level meaning of
 * `v.erase(std::remove_if(...), v.end())`, which keeps the elements the
 * predicate rejects, in their original order.
 */
module Sequences {

  /** The elements of `s` that satisfy `keep`, in the order of `s`. */
  function Filter<T>(s: seq<T>, keep: T -> bool): (r: seq<T>)
    ensures |r| <= |s|
    ensures forall k :: 0 <= k < |r| ==> keep(r[k])
  {
    if |s| == 0 then []
    else Filter(s[..|s| - 1], keep) + (if keep(s[|s| - 1]) then [s[|s| - 1]] else [])
  }

  /** The positions of `s` that `Filter(s, keep)` keeps. */
  ghost function FilterIndices<T>(s: seq<T>, keep: T -> bool): seq<int>
  {
    if |s| == 0 then []
    else FilterIndices(s[..|s| - 1], keep) + (if keep(s[|s| - 1]) then [|s| - 1] else [])
  }

  /** `r` is the sequence of elements of `s` at the strictly increasing positions `idx`. */
  ghost predicate Selects<T>(r: seq<T>, s: seq<T>, idx: seq<int>)
  {
    && |idx| == |r|
    && (forall k :: 0 <= k < |idx| ==> 0 <= idx[k] < |s| && r[k] == s[idx[k]])
    && (forall k, l :: 0 <= k < l < |idx| ==> idx[k] < idx[l])
  }

  /** `r` is an order-preserving subsequence of `s`. */
  ghost predicate IsSubsequence<T>(r: seq<T>, s: seq<T>)
  {
    exists idx :: Selects(r, s, idx)
  }

  lemma {:induction false} FilterSnoc<T>(s: seq<T>, x: T, keep: T -> bool)
    ensures Filter(s + [x], keep) == Filter(s, keep) + (if keep(x) then [x] else [])
  {
    assert (s + [x])[..|s|] == s;
  }

  /** Filtering one more element of a prefix appends it exactly when it is kept. */
  lemma FilterPrefixStep<T>(s: seq<T>, k: int, keep: T -> bool)
    requires 0 <= k < |s|
    ensures Filter(s[..k + 1], keep) == Filter(s[..k], keep) + (if keep(s[k]) then [s[k]] else [])
  {
    assert s[..k + 1] == s[..k] + [s[k]];
    FilterSnoc(s[..k], s[k], keep);
  }

  /**
   * Filter keeps exactly the positions whose element satisfies `keep`, and
   * keeps them in order.
   */
  lemma {:induction false} FilterSelectsKept<T>(s: seq<T>, keep: T -> bool)
    ensures Selects(Filter(s, keep), s, FilterIndices(s, keep))
    ensures forall i :: 0 <= i < |s| ==> (keep(s[i]) <==> i in FilterIndices(s, keep))
  {
    if |s| > 0 {
      var init := s[..|s| - 1];
      FilterSelectsKept(init, keep);
      var idx0 := FilterIndices(init, keep);
      assert forall k :: 0 <= k < |idx0| ==> idx0[k] < |init|;
      forall i | 0 <= i < |s|
        ensures keep(s[i]) <==> i in FilterIndices(s, keep)
      {
        if i < |s| - 1 {
          assert s[i] == init[i];
        }
      }
    }
  }

  lemma FilterIsSubsequence<T>(s: seq<T>, keep: T -> bool)
    ensures IsSubsequence(Filter(s, keep), s)
  {
    FilterSelectsKept(s, keep);
  }

  lemma {:induction false} FilterMembership<T>(s: seq<T>, keep: T -> bool, x: T)
    ensures x in Filter(s, keep) <==> x in s && keep(x)
  {
    if |s| > 0 {
      FilterMembership(s[..|s| - 1], keep, x);
      assert s == s[..|s| - 1] + [s[|s| - 1]];
    }
  }

  /** Every sequence is a subsequence of itself (the identity selection). */
  lemma SelectsSelf<T>(s: seq<T>)
    ensures IsSubsequence(s, s)
  {
    var idx := seq(|s|, k => k);
    assert Selects(s, s, idx);
  }
}
