/** Generic facts about sequences of reals and about filtering sequences,
    used by the price analysis. Every recursive definition here peels the
    LAST element, so that it follows a left-to-right loop one step at a time. */
module Seqs {

  /** Sum of a sequence of reals (0 for the empty sequence). */
  function Sum(xs: seq<real>): real
  {
    if xs == [] then 0.0 else Sum(xs[..|xs| - 1]) + xs[|xs| - 1]
  }

  function Min(a: real, b: real): real
  {
    if b < a then b else a
  }

  function Max(a: real, b: real): real
  {
    if b > a then b else a
  }

  /** Least element; 0 (the zero value) for the empty sequence. */
  function MinOf(xs: seq<real>): real
  {
    if xs == [] then 0.0
    else if |xs| == 1 then xs[0]
    else Min(MinOf(xs[..|xs| - 1]), xs[|xs| - 1])
  }

  /** Greatest element; 0 (the zero value) for the empty sequence. */
  function MaxOf(xs: seq<real>): real
  {
    if xs == [] then 0.0
    else if |xs| == 1 then xs[0]
    else Max(MaxOf(xs[..|xs| - 1]), xs[|xs| - 1])
  }

  /** The elements of `s` that `keep` accepts, in their original order. */
  function Filter<T>(s: seq<T>, keep: T -> bool): seq<T>
  {
    if s == [] then []
    else Filter(s[..|s| - 1], keep) + (if keep(s[|s| - 1]) then [s[|s| - 1]] else [])
  }

  /** The elements of `s` in the opposite order. */
  function Reversed<T>(s: seq<T>): (r: seq<T>)
    ensures |r| == |s|
    ensures forall i :: 0 <= i < |s| ==> r[i] == s[|s| - 1 - i]
  {
    if s == [] then [] else [s[|s| - 1]] + Reversed(s[..|s| - 1])
  }

  /** `a` can be obtained from `b` by deleting elements (order is kept). */
  predicate SubseqOf<T(==)>(a: seq<T>, b: seq<T>)
  {
    if a == [] then true
    else if b == [] then false
    else (a[|a| - 1] == b[|b| - 1] && SubseqOf(a[..|a| - 1], b[..|b| - 1]))
         || SubseqOf(a, b[..|b| - 1])
  }

  /** How the sum, the least and the greatest element of a prefix change
      when the prefix grows by one element. */
  lemma PrefixStep(xs: seq<real>, i: int)
    requires 0 <= i < |xs|
    ensures Sum(xs[..i + 1]) == Sum(xs[..i]) + xs[i]
    ensures MinOf(xs[..i + 1]) == if i == 0 then xs[0] else Min(MinOf(xs[..i]), xs[i])
    ensures MaxOf(xs[..i + 1]) == if i == 0 then xs[0] else Max(MaxOf(xs[..i]), xs[i])
  {
    assert xs[..i + 1][..i] == xs[..i];
  }

  lemma {:induction false} MinOfIsLowerBound(xs: seq<real>)
    ensures forall i :: 0 <= i < |xs| ==> MinOf(xs) <= xs[i]
  {
    if |xs| > 1 {
      MinOfIsLowerBound(xs[..|xs| - 1]);
      assert forall i :: 0 <= i < |xs| - 1 ==> xs[..|xs| - 1][i] == xs[i];
    }
  }

  lemma {:induction false} MinOfIsElement(xs: seq<real>)
    requires xs != []
    ensures MinOf(xs) in xs
  {
    if |xs| > 1 {
      MinOfIsElement(xs[..|xs| - 1]);
      assert MinOf(xs[..|xs| - 1]) in xs[..|xs| - 1];
    }
  }

  lemma {:induction false} MaxOfIsUpperBound(xs: seq<real>)
    ensures forall i :: 0 <= i < |xs| ==> xs[i] <= MaxOf(xs)
  {
    if |xs| > 1 {
      MaxOfIsUpperBound(xs[..|xs| - 1]);
      assert forall i :: 0 <= i < |xs| - 1 ==> xs[..|xs| - 1][i] == xs[i];
    }
  }

  lemma {:induction false} MaxOfIsElement(xs: seq<real>)
    requires xs != []
    ensures MaxOf(xs) in xs
  {
    if |xs| > 1 {
      MaxOfIsElement(xs[..|xs| - 1]);
      assert MaxOf(xs[..|xs| - 1]) in xs[..|xs| - 1];
    }
  }

  /** A lower bound of every element bounds the sum from below, |xs| times over. */
  lemma {:induction false} SumAtLeast(xs: seq<real>, lo: real)
    requires forall i :: 0 <= i < |xs| ==> lo <= xs[i]
    ensures |xs| as real * lo <= Sum(xs)
  {
    if xs != [] {
      var n := |xs| - 1;
      assert forall i :: 0 <= i < n ==> xs[..n][i] == xs[i];
      SumAtLeast(xs[..n], lo);
      assert |xs| as real * lo == n as real * lo + lo;
    }
  }

  /** An upper bound of every element bounds the sum from above, |xs| times over. */
  lemma {:induction false} SumAtMost(xs: seq<real>, hi: real)
    requires forall i :: 0 <= i < |xs| ==> xs[i] <= hi
    ensures Sum(xs) <= |xs| as real * hi
  {
    if xs != [] {
      var n := |xs| - 1;
      assert forall i :: 0 <= i < n ==> xs[..n][i] == xs[i];
      SumAtMost(xs[..n], hi);
      assert |xs| as real * hi == n as real * hi + hi;
    }
  }

  /** The arithmetic mean lies between the least and the greatest element. */
  lemma MeanBetweenMinAndMax(xs: seq<real>)
    requires xs != []
    ensures MinOf(xs) <= Sum(xs) / |xs| as real <= MaxOf(xs)
  {
    MinOfIsLowerBound(xs);
    MaxOfIsUpperBound(xs);
    SumAtLeast(xs, MinOf(xs));
    SumAtMost(xs, MaxOf(xs));
    var n := |xs| as real;
    DivideBounds(Sum(xs), n, MinOf(xs), MaxOf(xs));
  }

  lemma DivideBounds(total: real, n: real, lo: real, hi: real)
    requires n > 0.0 && n * lo <= total <= n * hi
    ensures lo <= total / n <= hi
  {
    assert total / n * n == total;
  }

  lemma FilterSnoc<T>(s: seq<T>, x: T, keep: T -> bool)
    ensures Filter(s + [x], keep) == Filter(s, keep) + (if keep(x) then [x] else [])
  {
    assert (s + [x])[..|s|] == s;
  }

  /** Filtering keeps exactly the accepted occurrences, each as often as in `s`. */
  lemma {:induction false} FilterMultiset<T>(s: seq<T>, keep: T -> bool)
    ensures forall y :: multiset(Filter(s, keep))[y] == if keep(y) then multiset(s)[y] else 0
  {
    if s != [] {
      var n := |s| - 1;
      FilterMultiset(s[..n], keep);
      assert s == s[..n] + [s[n]];
      assert multiset(s) == multiset(s[..n]) + multiset{s[n]};
    }
  }

  lemma FilterMembership<T>(s: seq<T>, keep: T -> bool)
    ensures forall y :: y in Filter(s, keep) <==> y in s && keep(y)
  {
    FilterMultiset(s, keep);
    forall y
      ensures y in Filter(s, keep) <==> y in s && keep(y)
    {
      assert y in Filter(s, keep) <==> multiset(Filter(s, keep))[y] > 0;
      assert y in s <==> multiset(s)[y] > 0;
    }
  }

  lemma {:induction false} FilterIsSubseq<T>(s: seq<T>, keep: T -> bool)
    ensures SubseqOf(Filter(s, keep), s)
  {
    if s != [] {
      var n := |s| - 1;
      FilterIsSubseq(s[..n], keep);
      if keep(s[n]) {
        assert Filter(s, keep)[..|Filter(s, keep)| - 1] == Filter(s[..n], keep);
      } else {
        assert Filter(s, keep) == Filter(s[..n], keep);
        SubseqDropLast(Filter(s, keep), s);
      }
    }
  }

  lemma SubseqDropLast<T>(a: seq<T>, b: seq<T>)
    requires b != [] && SubseqOf(a, b[..|b| - 1])
    ensures SubseqOf(a, b)
  {
  }

  /** Appending to `b` alone, or to both, keeps `a` a subsequence. */
  lemma SubseqSnoc<T>(a: seq<T>, b: seq<T>, x: T)
    requires SubseqOf(a, b)
    ensures SubseqOf(a, b + [x])
    ensures SubseqOf(a + [x], b + [x])
  {
    assert (b + [x])[..|b|] == b;
    assert (a + [x])[..|a|] == a;
  }
}
