/**
 * Python's `sum`, `min`, `max` and list slicing, over integer sequences,
 * each defined by peeling off the last element so that a loop appending
 * to a list follows the definition step by step.
 */
module SeqMath {

  function Max(a: int, b: int): int {
    if a >= b then a else b
  }

  /** `sum(s)`. */
  function Sum(s: seq<int>): int {
    if s == [] then 0 else Sum(s[..|s| - 1]) + s[|s| - 1]
  }

  /** `min(s)` of a non-empty list: an element no larger than any other. */
  function MinOf(s: seq<int>): (m: int)
    requires |s| > 0
    ensures m in s
    ensures forall i :: 0 <= i < |s| ==> m <= s[i]
  {
    if |s| == 1 then s[0]
    else
      var p := s[..|s| - 1];
      var m := MinOf(p);
      assert forall i :: 0 <= i < |p| ==> s[i] == p[i];
      if s[|s| - 1] < m then s[|s| - 1] else m
  }

  /** `max(s)` of a non-empty list: an element no smaller than any other. */
  function MaxOf(s: seq<int>): (m: int)
    requires |s| > 0
    ensures m in s
    ensures forall i :: 0 <= i < |s| ==> s[i] <= m
  {
    if |s| == 1 then s[0]
    else
      var p := s[..|s| - 1];
      var m := MaxOf(p);
      assert forall i :: 0 <= i < |p| ==> s[i] == p[i];
      if s[|s| - 1] > m then s[|s| - 1] else m
  }

  /** `s[:n]`: the first `n` elements, or all of them when there are fewer. */
  function Take<T>(s: seq<T>, n: nat): (r: seq<T>)
    ensures |r| == if |s| < n then |s| else n
    ensures r <= s
  {
    if |s| <= n then s else s[..n]
  }

  /** A lower bound of every element, times the length, bounds the sum from below. */
  lemma {:induction false} SumAtLeast(s: seq<int>, lo: int)
    requires forall i :: 0 <= i < |s| ==> lo <= s[i]
    ensures |s| * lo <= Sum(s)
  {
    if s != [] {
      var p := s[..|s| - 1];
      assert forall i :: 0 <= i < |p| ==> p[i] == s[i];
      SumAtLeast(p, lo);
      assert |s| * lo == |p| * lo + lo;
    }
  }

  /** An upper bound of every element, times the length, bounds the sum from above. */
  lemma {:induction false} SumAtMost(s: seq<int>, hi: int)
    requires forall i :: 0 <= i < |s| ==> s[i] <= hi
    ensures Sum(s) <= |s| * hi
  {
    if s != [] {
      var p := s[..|s| - 1];
      assert forall i :: 0 <= i < |p| ==> p[i] == s[i];
      SumAtMost(p, hi);
      assert |s| * hi == |p| * hi + hi;
    }
  }

  /** Dividing `n * lo <= sum <= n * hi` by a positive `n`. */
  lemma MeanBounds(sum: int, n: int, lo: int, hi: int)
    requires n > 0 && n * lo <= sum <= n * hi
    ensures lo as real <= sum as real / n as real <= hi as real
  {
    assert (n * lo) as real == n as real * lo as real;
    assert (n * hi) as real == n as real * hi as real;
  }

  /** The mean of a non-empty list lies between its minimum and its maximum. */
  lemma MeanBetweenMinAndMax(s: seq<int>)
    requires |s| > 0
    ensures MinOf(s) as real <= Sum(s) as real / |s| as real <= MaxOf(s) as real
  {
    SumAtLeast(s, MinOf(s));
    SumAtMost(s, MaxOf(s));
    MeanBounds(Sum(s), |s|, MinOf(s), MaxOf(s));
  }
}
