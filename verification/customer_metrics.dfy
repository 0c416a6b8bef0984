/**
 The per-customer values of `get_metrics`, computed from one customer's
 labels: Precision@k, Recall@k and the repository's own "MAP@k".
 */
module CustomerMetrics {
  import opened Averages
  import opened Labelling

  /** Number of hits (label 1) among the labels. */
  function Hits(labels: seq<Label>): (h: nat)
    ensures h <= |labels|
  {
    if |labels| == 0 then 0
    else Hits(labels[..|labels| - 1]) + (if labels[|labels| - 1] == 1.0 then 1 else 0)
  }

  /** Summing 0/1 labels counts the hits. */
  lemma {:induction false} SumCountsHits(labels: seq<Label>)
    ensures Sum(labels) == Hits(labels) as real
  {
    if |labels| > 0 {
      SumCountsHits(labels[..|labels| - 1]);
    }
  }

  /** No hits means every label is 0, and a hit everywhere means every label is 1. */
  lemma {:induction false} HitsExtremes(labels: seq<Label>)
    ensures Hits(labels) == 0 <==> forall i :: 0 <= i < |labels| ==> labels[i] == 0.0
    ensures Hits(labels) == |labels| <==> forall i :: 0 <= i < |labels| ==> labels[i] == 1.0
  {
    if |labels| > 0 {
      var init := labels[..|labels| - 1];
      HitsExtremes(init);
      assert forall i :: 0 <= i < |init| ==> init[i] == labels[i];
    }
  }

  /** Precision@k of one customer: the mean of their labels (`groupby(cid)["interested"].mean()`). */
  function Precision(labels: seq<Label>): (p: real)
    requires |labels| > 0
    ensures 0.0 <= p <= 1.0
    ensures p == 0.0 <==> Hits(labels) == 0
    ensures p == 1.0 <==> Hits(labels) == |labels|
    ensures p * |labels| as real == Hits(labels) as real
  {
    SumCountsHits(labels);
    Mean(labels)
  }

  /**
   Recall@k of one customer as the source computes it: the sum of the labels
   over the fixed constant 10, whatever k and however many positives the
   customer has.
   */
  function Recall(labels: seq<Label>): (r: real)
    ensures r * 10.0 == Hits(labels) as real
    ensures 0.0 <= r <= |labels| as real / 10.0
    ensures r == 0.0 <==> Hits(labels) == 0
  {
    SumCountsHits(labels);
    Sum(labels) / 10.0
  }

  /** Hits among the first i + 1 labels over i + 1: the expanding sum over the expanding count. */
  function RunningPrecision(labels: seq<Label>, i: nat): (p: real)
    requires i < |labels|
    ensures 0.0 <= p <= 1.0
  {
    RatioBounds(Hits(labels[..i + 1]) as real, i + 1);
    Hits(labels[..i + 1]) as real / (i + 1) as real
  }

  /**
   Extending a prefix by one label adds that label's hit, so the running
   ratio at position i is the running precision there.
   */
  lemma HitsStep(labels: seq<Label>, i: nat)
    requires i < |labels|
    ensures Hits(labels[..i + 1]) == Hits(labels[..i]) + (if labels[i] == 1.0 then 1 else 0)
    ensures (Hits(labels[..i]) + (if labels[i] == 1.0 then 1 else 0)) as real / (i + 1) as real
      == RunningPrecision(labels, i)
  {
    assert labels[..i + 1][..i] == labels[..i];
  }

  /** The value `intra_map@k` at one position: the running precision there times the label there. */
  function Term(labels: seq<Label>, i: nat): (t: real)
    requires i < |labels|
    ensures 0.0 <= t <= labels[i]
    ensures labels[i] == 0.0 ==> t == 0.0
  {
    labels[i] * RunningPrecision(labels, i)
  }

  /** The per-position values of one customer, in ranking order. */
  function Terms(labels: seq<Label>): (t: seq<real>)
    ensures |t| == |labels|
    ensures forall i :: 0 <= i < |labels| ==> 0.0 <= t[i] <= labels[i]
    ensures forall i :: 0 <= i < |labels| ==> labels[i] == 0.0 ==> t[i] == 0.0
  {
    seq(|labels|, i requires 0 <= i < |labels| => Term(labels, i))
  }

  /**
   The expanding-window computation the source performs: one pass that keeps
   the running hit count and the running row count, and emits label times
   their ratio at each position.
   */
  method ExpandingTerms(labels: seq<Label>) returns (terms: seq<real>)
    ensures |terms| == |labels|
    ensures forall i :: 0 <= i < |labels| ==> terms[i] == labels[i] * RunningPrecision(labels, i)
    ensures terms == Terms(labels)
  {
    terms := [];
    var rollingSum: nat := 0;
    var rollingCount: nat := 0;
    var i := 0;
    while i < |labels|
      invariant 0 <= i <= |labels|
      invariant rollingCount == i
      invariant rollingSum == Hits(labels[..i])
      invariant |terms| == i
      invariant forall j :: 0 <= j < i ==> terms[j] == Term(labels, j)
    {
      rollingSum := rollingSum + (if labels[i] == 1.0 then 1 else 0);
      rollingCount := rollingCount + 1;
      HitsStep(labels, i);
      var term := labels[i] * (rollingSum as real / rollingCount as real);
      assert term == Term(labels, i);
      terms := terms + [term];
      i := i + 1;
    }
    assert forall j :: 0 <= j < |labels| ==> terms[j] == Terms(labels)[j];
  }

  /** "MAP@k" of one customer, their rows already in ranking order: the mean of the terms over all n positions. */
  function MapAtK(labels: seq<Label>): (m: real)
    requires |labels| > 0
    ensures Hits(labels) == 0 ==> m == 0.0
    ensures Hits(labels) == |labels| ==> m == 1.0
    ensures 0.0 <= m <= Precision(labels)
  {
    var t := Terms(labels);
    MeanMonotone(t, labels);
    SumNonNegative(t);
    if Hits(labels) == 0 then
      NoHitsMap(labels);
      Mean(t)
    else if Hits(labels) == |labels| then
      AllHitsMap(labels);
      Mean(t)
    else
      Mean(t)
  }

  /** Without hits every term is 0, so their mean is 0. */
  lemma NoHitsMap(labels: seq<Label>)
    requires |labels| > 0
    requires Hits(labels) == 0
    ensures Mean(Terms(labels)) == 0.0
  {
    HitsExtremes(labels);
    MeanZeros(Terms(labels));
  }

  /** With a hit at every position every term is 1, so their mean is 1. */
  lemma AllHitsMap(labels: seq<Label>)
    requires |labels| > 0
    requires Hits(labels) == |labels|
    ensures Mean(Terms(labels)) == 1.0
  {
    HitsExtremes(labels);
    AllHitsTermsSum(labels);
    RatioBounds(|labels| as real, |labels|);
  }

  /** With a hit at every position the terms sum to their number. */
  lemma AllHitsTermsSum(labels: seq<Label>)
    requires forall i :: 0 <= i < |labels| ==> labels[i] == 1.0
    ensures Sum(Terms(labels)) == |labels| as real
  {
    AllHitsTermsAreOne(labels);
    SumOnes(Terms(labels));
  }

  /** When every label is a hit, every running precision, and so every term, is 1. */
  lemma AllHitsTermsAreOne(labels: seq<Label>)
    requires forall i :: 0 <= i < |labels| ==> labels[i] == 1.0
    ensures forall i :: 0 <= i < |labels| ==> Terms(labels)[i] == 1.0
  {
    forall i | 0 <= i < |labels|
      ensures Terms(labels)[i] == 1.0
    {
      AllHitsPrefix(labels, i);
      RatioBounds((i + 1) as real, i + 1);
    }
  }

  /** When every label is a hit, every prefix is all hits. */
  lemma AllHitsPrefix(labels: seq<Label>, i: nat)
    requires i < |labels|
    requires forall k :: 0 <= k < |labels| ==> labels[k] == 1.0
    ensures Hits(labels[..i + 1]) == i + 1
  {
    var prefix := labels[..i + 1];
    assert forall k :: 0 <= k < |prefix| ==> prefix[k] == labels[k];
    HitsExtremes(prefix);
  }

  /** A single recommended item that is a hit has MAP 1. */
  lemma SingleHitMap()
    ensures MapAtK([1.0]) == 1.0
  {
    assert Hits([1.0]) == 1 by {
      assert [1.0][..0] == [];
    }
  }

  /**
   Two ranked items, the first a hit and the second not: precision 1/2,
   recall 1/10, and MAP (1/1 · 1 + 1/2 · 0) / 2 = 1/2.
   */
  lemma HitThenMissExample()
    ensures Precision([1.0, 0.0]) == 0.5
    ensures Recall([1.0, 0.0]) == 0.1
    ensures MapAtK([1.0, 0.0]) == 0.5
  {
    var labels: seq<Label> := [1.0, 0.0];
    assert labels[..1] == [1.0];
    assert labels[..1][..0] == [];
    assert labels[..2] == labels;
    assert Hits(labels[..1]) == 1;
    assert Hits(labels) == 1;
    var t := Terms(labels);
    assert t[0] == 1.0;
    assert t[1] == 0.0;
    assert t[..1] == [1.0];
    assert t[..1][..0] == [];
    assert Sum(t) == 1.0;
  }
}
