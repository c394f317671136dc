/**
 * Swift's `Array.filter`, with the facts every search screen relies on: the
 * result keeps exactly the matching elements, in their original order.
 */
module Search {

  /** The elements of `xs` that satisfy `keep`, in order. */
  function Filter<T>(xs: seq<T>, keep: T -> bool): (r: seq<T>)
    ensures |r| <= |xs|
    ensures forall i :: 0 <= i < |r| ==> keep(r[i])
    decreases |xs|
  {
    if |xs| == 0 then []
    else (if keep(xs[0]) then [xs[0]] else []) + Filter(xs[1..], keep)
  }

  /** `a` can be obtained from `b` by deleting elements. */
  predicate IsSubsequence<T(==)>(a: seq<T>, b: seq<T>)
    decreases |b|
  {
    |a| == 0 || (|b| > 0 && ((a[0] == b[0] && IsSubsequence(a[1..], b[1..])) || IsSubsequence(a, b[1..])))
  }

  /** How many elements of `xs` satisfy `keep`. */
  function CountKept<T>(xs: seq<T>, keep: T -> bool): nat
    decreases |xs|
  {
    if |xs| == 0 then 0 else (if keep(xs[0]) then 1 else 0) + CountKept(xs[1..], keep)
  }

  /** The filter is an order-preserving subsequence holding one element per kept position. */
  lemma {:induction false} FilterIsOrderedSelection<T>(xs: seq<T>, keep: T -> bool)
    ensures IsSubsequence(Filter(xs, keep), xs)
    ensures |Filter(xs, keep)| == CountKept(xs, keep)
    decreases |xs|
  {
    if |xs| > 0 {
      FilterIsOrderedSelection(xs[1..], keep);
      var r := Filter(xs, keep);
      if keep(xs[0]) {
        assert r[0] == xs[0] && r[1..] == Filter(xs[1..], keep);
      } else {
        assert r == Filter(xs[1..], keep);
      }
    }
  }

  /** A subsequence made only of kept elements is no longer than the number of kept positions. */
  lemma {:induction false} KeptSubsequenceBound<T>(r: seq<T>, xs: seq<T>, keep: T -> bool)
    requires IsSubsequence(r, xs)
    requires forall i :: 0 <= i < |r| ==> keep(r[i])
    ensures |r| <= CountKept(xs, keep)
    decreases |xs|
  {
    if |r| > 0 {
      if r[0] == xs[0] && IsSubsequence(r[1..], xs[1..]) {
        KeptSubsequenceBound(r[1..], xs[1..], keep);
      } else {
        KeptSubsequenceBound(r, xs[1..], keep);
      }
    }
  }

  /**
   * Those facts pin the filter down: any subsequence of kept elements with
   * one element per kept position is the filter's result.
   */
  lemma {:induction false} FilterUnique<T>(r: seq<T>, xs: seq<T>, keep: T -> bool)
    requires IsSubsequence(r, xs)
    requires forall i :: 0 <= i < |r| ==> keep(r[i])
    requires |r| == CountKept(xs, keep)
    ensures r == Filter(xs, keep)
    decreases |xs|
  {
    if |xs| == 0 {
    } else if |r| == 0 {
      FilterIsOrderedSelection(xs, keep);
    } else if keep(xs[0]) {
      if !(r[0] == xs[0] && IsSubsequence(r[1..], xs[1..])) {
        KeptSubsequenceBound(r, xs[1..], keep);
        assert false;
      }
      FilterUnique(r[1..], xs[1..], keep);
    } else {
      assert r[0] != xs[0];
      FilterUnique(r, xs[1..], keep);
    }
  }

  /** An element is in the result exactly when it is in the input and kept. */
  lemma {:induction false} FilterMembership<T>(xs: seq<T>, keep: T -> bool, x: T)
    ensures x in Filter(xs, keep) <==> x in xs && keep(x)
    decreases |xs|
  {
    if |xs| > 0 {
      FilterMembership(xs[1..], keep, x);
      assert xs == [xs[0]] + xs[1..];
    }
  }

  /** When every element is kept, filtering changes nothing. */
  lemma {:induction false} FilterKeepsAll<T>(xs: seq<T>, keep: T -> bool)
    requires forall i :: 0 <= i < |xs| ==> keep(xs[i])
    ensures Filter(xs, keep) == xs
    decreases |xs|
  {
    if |xs| > 0 {
      FilterKeepsAll(xs[1..], keep);
    }
  }

  /** Filtering twice with the same test is filtering once. */
  lemma FilterIdempotent<T>(xs: seq<T>, keep: T -> bool)
    ensures Filter(Filter(xs, keep), keep) == Filter(xs, keep)
  {
    FilterKeepsAll(Filter(xs, keep), keep);
  }

  /** Tests that agree on every element give the same result. */
  lemma {:induction false} FilterCongruent<T>(xs: seq<T>, f: T -> bool, g: T -> bool)
    requires forall i :: 0 <= i < |xs| ==> f(xs[i]) == g(xs[i])
    ensures Filter(xs, f) == Filter(xs, g)
    decreases |xs|
  {
    if |xs| > 0 {
      FilterCongruent(xs[1..], f, g);
    }
  }
}
