/**
 Sums and arithmetic means over exact reals: the `.sum()` and `.mean()`
 reductions that `get_metrics` applies within and across customers.
 */
module Averages {
  import opened Results

  /** Sum of a sequence, accumulated from the front (the last element is added last). */
  function Sum(xs: seq<real>): real
  {
    if |xs| == 0 then 0.0 else Sum(xs[..|xs| - 1]) + xs[|xs| - 1]
  }

  /** Every value lies in the closed unit interval. */
  ghost predicate InUnit(xs: seq<real>)
  {
    forall i :: 0 <= i < |xs| ==> 0.0 <= xs[i] <= 1.0
  }

  /** Every value is non-negative. */
  ghost predicate NonNegative(xs: seq<real>)
  {
    forall i :: 0 <= i < |xs| ==> 0.0 <= xs[i]
  }

  /** Arithmetic mean of a non-empty sequence. */
  function Mean(xs: seq<real>): (m: real)
    requires |xs| > 0
    ensures m * |xs| as real == Sum(xs)
    ensures NonNegative(xs) ==> 0.0 <= m
    ensures InUnit(xs) ==> 0.0 <= m <= 1.0
  {
    SumNonNegative(xs);
    SumUnitBounds(xs);
    RatioBounds(Sum(xs), |xs|);
    Sum(xs) / |xs| as real
  }

  /** A ratio over a positive count: non-negative for a non-negative numerator, at most 1 when the numerator is at most the count. */
  lemma RatioBounds(a: real, n: nat)
    requires n > 0
    ensures (a / n as real) * n as real == a
    ensures 0.0 <= a ==> 0.0 <= a / n as real
    ensures a <= n as real ==> a / n as real <= 1.0
    ensures a == 0.0 ==> a / n as real == 0.0
    ensures a == n as real ==> a / n as real == 1.0
  {
  }

  /**
   pandas' `Series.mean()`: the arithmetic mean, or NaN (`None`) when the
   series is empty.
   */
  function MeanOrNaN(xs: seq<real>): (m: Option<real>)
    ensures m.Some? <==> |xs| > 0
    ensures m.Some? ==> m.value * |xs| as real == Sum(xs)
    ensures m.Some? && NonNegative(xs) ==> 0.0 <= m.value
    ensures m.Some? && InUnit(xs) ==> 0.0 <= m.value <= 1.0
  {
    if |xs| == 0 then None else Some(Mean(xs))
  }

  lemma {:induction false} SumNonNegative(xs: seq<real>)
    ensures NonNegative(xs) ==> 0.0 <= Sum(xs)
  {
    if |xs| > 0 {
      SumNonNegative(xs[..|xs| - 1]);
    }
  }

  /** A sum of values in [0, 1] lies between 0 and the number of values. */
  lemma {:induction false} SumUnitBounds(xs: seq<real>)
    ensures InUnit(xs) ==> 0.0 <= Sum(xs) <= |xs| as real
  {
    if |xs| > 0 {
      SumUnitBounds(xs[..|xs| - 1]);
    }
  }

  /** Summation is monotone in each term. */
  lemma {:induction false} SumMonotone(xs: seq<real>, ys: seq<real>)
    requires |xs| == |ys|
    requires forall i :: 0 <= i < |xs| ==> xs[i] <= ys[i]
    ensures Sum(xs) <= Sum(ys)
  {
    if |xs| > 0 {
      SumMonotone(xs[..|xs| - 1], ys[..|ys| - 1]);
    }
  }

  /** A sequence of zeros sums to zero. */
  lemma {:induction false} SumZeros(xs: seq<real>)
    requires forall i :: 0 <= i < |xs| ==> xs[i] == 0.0
    ensures Sum(xs) == 0.0
  {
    if |xs| > 0 {
      SumZeros(xs[..|xs| - 1]);
    }
  }

  /** A sequence of ones sums to its length. */
  lemma {:induction false} SumOnes(xs: seq<real>)
    requires forall i :: 0 <= i < |xs| ==> xs[i] == 1.0
    ensures Sum(xs) == |xs| as real
  {
    if |xs| > 0 {
      SumOnes(xs[..|xs| - 1]);
    }
  }

  /** A mean of zeros is zero. */
  lemma MeanZeros(xs: seq<real>)
    requires |xs| > 0
    requires forall i :: 0 <= i < |xs| ==> xs[i] == 0.0
    ensures Mean(xs) == 0.0
  {
    SumZeros(xs);
    RatioBounds(Sum(xs), |xs|);
  }

  /** The sum of a concatenation is the sum of the sums. */
  lemma {:induction false} SumConcat(xs: seq<real>, ys: seq<real>)
    ensures Sum(xs + ys) == Sum(xs) + Sum(ys)
  {
    if |ys| > 0 {
      var init := ys[..|ys| - 1];
      var last := ys[|ys| - 1];
      assert (xs + ys)[..|xs + ys| - 1] == xs + init;
      assert (xs + ys)[|xs + ys| - 1] == last;
      assert Sum(xs + ys) == Sum(xs + init) + last;
      SumConcat(xs, init);
      assert Sum(ys) == Sum(init) + last;
    } else {
      assert xs + ys == xs;
    }
  }

  /** A sum does not depend on the order of its terms. */
  lemma {:induction false} SumPermutation(xs: seq<real>, ys: seq<real>)
    requires multiset(xs) == multiset(ys)
    ensures Sum(xs) == Sum(ys)
    decreases |xs|
  {
    assert |xs| == |multiset(xs)| == |multiset(ys)| == |ys|;
    if |xs| > 0 {
      var init := xs[..|xs| - 1];
      var x := xs[|xs| - 1];
      assert xs == init + [x];
      assert multiset(xs) == multiset(init) + multiset{x};
      assert x in multiset(ys);
      var k :| 0 <= k < |ys| && ys[k] == x;
      var rest := SumWithout(ys, k);
      assert multiset(rest) == multiset(init) by {
        assert multiset(rest) + multiset{x} == multiset(init) + multiset{x};
        assert multiset(rest) == multiset(rest) + multiset{x} - multiset{x};
      }
      SumPermutation(init, rest);
    }
  }

  /** Taking the term at position k out of a sequence: the rest sums to the sum less that term. */
  lemma SumWithout(ys: seq<real>, k: nat) returns (rest: seq<real>)
    requires k < |ys|
    ensures rest == ys[..k] + ys[k + 1..]
    ensures multiset(rest) + multiset{ys[k]} == multiset(ys)
    ensures Sum(ys) == Sum(rest) + ys[k]
  {
    var x := ys[k];
    rest := ys[..k] + ys[k + 1..];
    assert ys == ys[..k] + ([x] + ys[k + 1..]);
    SumConcat(ys[..k], [x] + ys[k + 1..]);
    SumConcat([x], ys[k + 1..]);
    SumConcat(ys[..k], ys[k + 1..]);
    assert Sum([x]) == x by {
      assert [x][..0] == [];
    }
  }

  /** Reordering a series leaves its mean, and whether it is NaN, unchanged. */
  lemma MeanOrNaNPermutation(xs: seq<real>, ys: seq<real>)
    requires multiset(xs) == multiset(ys)
    ensures MeanOrNaN(xs) == MeanOrNaN(ys)
  {
    assert |xs| == |multiset(xs)| == |multiset(ys)| == |ys|;
    SumPermutation(xs, ys);
  }

  /** Averaging preserves a termwise order. */
  lemma MeanMonotone(xs: seq<real>, ys: seq<real>)
    requires |xs| == |ys| > 0
    requires forall i :: 0 <= i < |xs| ==> xs[i] <= ys[i]
    ensures Mean(xs) <= Mean(ys)
  {
    SumMonotone(xs, ys);
  }
}
