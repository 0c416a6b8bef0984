/**
 `get_metrics` without diversity: label the recommendations, compute catalog
 coverage, then the cross-customer means of Precision@k, Recall@k and MAP@k.
 */
module Metrics {
  import opened Results
  import opened Averages
  import opened Labelling
  import opened Coverage
  import opened Ranking
  import opened Grouping
  import opened CustomerMetrics

  /** The numbers of the summary row; a mean over no customers is NaN (`None`). */
  datatype Summary = Summary(
    coverage: real,
    meanPrecision: Option<real>,
    meanRecall: Option<real>,
    meanMap: Option<real>)

  datatype Metric = PrecisionAtK | RecallAtK | MapAtKMetric

  /** The `interested` column of some labelled rows. */
  function LabelsOf(rows: seq<LabelledRow>): (ls: seq<Label>)
    ensures |ls| == |rows|
    ensures forall i :: 0 <= i < |rows| ==> ls[i] == rows[i].interested
  {
    seq(|rows|, i requires 0 <= i < |rows| => rows[i].interested)
  }

  /**
   One customer's value of a metric from their rows: MAP first orders the rows
   by the ranking column, highest first.
   */
  function CustomerValue(metric: Metric, group: seq<LabelledRow>): (v: real)
    requires |group| > 0
    ensures metric != RecallAtK ==> 0.0 <= v <= 1.0
    ensures metric == RecallAtK ==> 0.0 <= v <= |group| as real / 10.0
    ensures metric == MapAtKMetric ==> v <= Precision(LabelsOf(group))
  {
    match metric
    case PrecisionAtK => Precision(LabelsOf(group))
    case RecallAtK => Recall(LabelsOf(group))
    case MapAtKMetric =>
      var ranked := SortByScoreDesc(group);
      RankingKeepsHits(group, ranked);
      MapAtK(LabelsOf(ranked))
  }

  /** The per-customer series (`prec_xcid`, `rec_xcid`, `map_xcid`), one value per customer. */
  function PerCustomer(rows: seq<LabelledRow>, metric: Metric): (vs: seq<real>)
    ensures |vs| == |Customers(rows)|
    ensures metric != RecallAtK ==> InUnit(vs)
    ensures NonNegative(vs)
  {
    var cs := Customers(rows);
    seq(|cs|, j requires 0 <= j < |cs| => CustomerValue(metric, RowsOf(rows, cs[j])))
  }

  /** The reported mean of a metric over the customers present in the rows. */
  function MeanOverCustomers(rows: seq<LabelledRow>, metric: Metric): (m: Option<real>)
    ensures m.Some? <==> |rows| > 0
    ensures m.Some? && metric != RecallAtK ==> 0.0 <= m.value <= 1.0
    ensures m.Some? ==> 0.0 <= m.value
  {
    NonEmptyHasCustomers(rows);
    MeanOrNaN(PerCustomer(rows, metric))
  }

  /**
   The metrics of one evaluation run, as far as tools.py:72-117 computes
   them. The coverage division comes first and raises on an empty catalog, so
   nothing else is reported then. The diversity block after line 117 can
   still raise on inputs this function accepts (see `Diversity`).
   */
  function GetMetrics(recs: seq<Rec>, truth: seq<TruthRow>, catalog: seq<ArticleId>)
    : (r: Result<Summary, MetricsError>)
    ensures r.Err? <==> |catalog| == 0
    ensures r.Ok? ==> (r.value.meanPrecision.Some? <==> |recs| > 0)
    ensures r.Ok? ==> (r.value.meanRecall.Some? <==> |recs| > 0)
    ensures r.Ok? ==> (r.value.meanMap.Some? <==> |recs| > 0)
    ensures r.Ok? && |recs| > 0 ==>
      && 0.0 <= r.value.meanMap.value <= r.value.meanPrecision.value <= 1.0
      && 0.0 <= r.value.meanRecall.value
    ensures r.Ok? && RecommendedIds(recs) <= CatalogIds(catalog) ==> 0.0 <= r.value.coverage <= 100.0
  {
    match CatalogCoverage(recs, catalog)
    case Err(e) => Err(e)
    case Ok(coverage) =>
      var rows := LabelRows(recs, truth);
      CoverageIsPercentage(recs, catalog);
      MapMeanBelowPrecisionMean(rows);
      Ok(Summary(
        coverage,
        MeanOverCustomers(rows, PrecisionAtK),
        MeanOverCustomers(rows, RecallAtK),
        MeanOverCustomers(rows, MapAtKMetric)))
  }

  /** Reordering a customer's rows by score leaves their number of hits, and so their precision, unchanged. */
  lemma RankingKeepsHits(group: seq<LabelledRow>, ranked: seq<LabelledRow>)
    requires |group| > 0
    requires ranked == SortByScoreDesc(group)
    ensures |ranked| == |group|
    ensures Precision(LabelsOf(ranked)) == Precision(LabelsOf(group))
  {
    SortKeepsHits(group);
    var a, b := LabelsOf(ranked), LabelsOf(group);
    SumCountsHits(a);
    SumCountsHits(b);
    assert Sum(a) == Sum(b);
    assert Precision(a) == Mean(a) == Sum(a) / |a| as real;
    assert Precision(b) == Mean(b) == Sum(b) / |b| as real;
  }

  /** Hits of a concatenation add up. */
  lemma {:induction false} HitsConcat(a: seq<LabelledRow>, b: seq<LabelledRow>)
    ensures Hits(LabelsOf(a + b)) == Hits(LabelsOf(a)) + Hits(LabelsOf(b))
    decreases |b|
  {
    if |b| > 0 {
      var b' := b[..|b| - 1];
      assert (a + b)[..|a + b| - 1] == a + b';
      assert LabelsOf(a + b)[..|a + b| - 1] == LabelsOf(a + b');
      assert LabelsOf(b)[..|b| - 1] == LabelsOf(b');
      HitsConcat(a, b');
    } else {
      assert a + b == a;
    }
  }

  /** Inserting a row adds its own label to the hits. */
  lemma {:induction false} InsertKeepsHits(x: LabelledRow, rows: seq<LabelledRow>)
    requires SortedDesc(rows)
    ensures Hits(LabelsOf(Insert(x, rows))) == Hits(LabelsOf([x])) + Hits(LabelsOf(rows))
  {
    if |rows| == 0 {
      assert Insert(x, rows) == [x];
    } else if x.score >= rows[0].score {
      HitsConcat([x], rows);
    } else {
      assert rows == [rows[0]] + rows[1..];
      InsertKeepsHits(x, rows[1..]);
      HitsConcat([rows[0]], Insert(x, rows[1..]));
      HitsConcat([rows[0]], rows[1..]);
    }
  }

  /** Sorting by score keeps the number of hits. */
  lemma {:induction false} SortKeepsHits(rows: seq<LabelledRow>)
    ensures Hits(LabelsOf(SortByScoreDesc(rows))) == Hits(LabelsOf(rows))
  {
    if |rows| > 0 {
      assert rows == [rows[0]] + rows[1..];
      SortKeepsHits(rows[1..]);
      InsertKeepsHits(rows[0], SortByScoreDesc(rows[1..]));
      HitsConcat([rows[0]], rows[1..]);
    }
  }

  /** Mean MAP never exceeds mean precision, because that holds customer by customer. */
  lemma MapMeanBelowPrecisionMean(rows: seq<LabelledRow>)
    ensures |rows| > 0 ==>
      MeanOverCustomers(rows, MapAtKMetric).value <= MeanOverCustomers(rows, PrecisionAtK).value
  {
    if |rows| > 0 {
      NonEmptyHasCustomers(rows);
      var maps, precisions := PerCustomer(rows, MapAtKMetric), PerCustomer(rows, PrecisionAtK);
      var cs := Customers(rows);
      forall j | 0 <= j < |cs|
        ensures maps[j] <= precisions[j]
      {
        assert maps[j] == CustomerValue(MapAtKMetric, RowsOf(rows, cs[j]));
        assert precisions[j] == CustomerValue(PrecisionAtK, RowsOf(rows, cs[j]));
      }
      MeanMonotone(maps, precisions);
    }
  }

  /** The customers that appear in the recommendations. */
  function RecommendedCustomers(recs: seq<Rec>): set<CustomerId>
  {
    set r | r in recs :: r.cid
  }

  /** Labelling keeps exactly the customers of the recommendations. */
  lemma LabelledCustomers(recs: seq<Rec>, truth: seq<TruthRow>)
    ensures CustomerSet(LabelRows(recs, truth)) == RecommendedCustomers(recs)
  {
    var js := LeftJoin(recs, truth);
    var rows := LabelRows(recs, truth);
    LeftJoinRowsAreRecs(recs, truth);
    forall c | c in CustomerSet(rows)
      ensures c in RecommendedCustomers(recs)
    {
      var x :| x in rows && x.cid == c;
      var k :| 0 <= k < |rows| && rows[k] == x;
      assert js[k] in js;
    }
    forall c | c in RecommendedCustomers(recs)
      ensures c in CustomerSet(rows)
    {
      var r :| r in recs && r.cid == c;
      var j :| j in js && j.rec == r;
      var k :| 0 <= k < |js| && js[k] == j;
      assert rows[k] in rows;
    }
  }

  /**
   Each reported mean averages exactly one value per customer that appears
   in the recommendations.
   */
  lemma MeansOverRecommendedCustomers(recs: seq<Rec>, truth: seq<TruthRow>, metric: Metric)
    ensures |PerCustomer(LabelRows(recs, truth), metric)| == |RecommendedCustomers(recs)|
    ensures forall c :: c in Customers(LabelRows(recs, truth)) <==> c in RecommendedCustomers(recs)
    ensures forall j :: 0 <= j < |Customers(LabelRows(recs, truth))| ==>
      PerCustomer(LabelRows(recs, truth), metric)[j]
        == CustomerValue(metric, RowsOf(LabelRows(recs, truth), Customers(LabelRows(recs, truth))[j]))
  {
    GroupCount(LabelRows(recs, truth));
    LabelledCustomers(recs, truth);
  }

  /** A customer none of whose rows is a hit scores 0 on every metric. */
  lemma NoHitsCustomerValue(metric: Metric, group: seq<LabelledRow>)
    requires |group| > 0
    requires forall x :: x in group ==> x.interested == 0.0
    ensures CustomerValue(metric, group) == 0.0
  {
    var labels := LabelsOf(group);
    assert forall i :: 0 <= i < |labels| ==> labels[i] == 0.0 by {
      forall i | 0 <= i < |labels| ensures labels[i] == 0.0 {
        assert group[i] in group;
      }
    }
    HitsExtremes(labels);
    SortKeepsHits(group);
  }

  /** When no labelled row is a hit, every customer scores 0. */
  lemma NoHitsPerCustomer(rows: seq<LabelledRow>, metric: Metric)
    requires forall x :: x in rows ==> x.interested == 0.0
    ensures forall j :: 0 <= j < |PerCustomer(rows, metric)| ==> PerCustomer(rows, metric)[j] == 0.0
  {
    var vs := PerCustomer(rows, metric);
    var cs := Customers(rows);
    forall j | 0 <= j < |vs|
      ensures vs[j] == 0.0
    {
      var g := RowsOf(rows, cs[j]);
      assert cs[j] in CustomerSet(rows);
      NoHitsCustomerValue(metric, g);
    }
  }

  /** When no labelled row is a hit, the mean of every metric over the customers is 0. */
  lemma NoHitsMeans(rows: seq<LabelledRow>, metric: Metric)
    requires |rows| > 0
    requires forall x :: x in rows ==> x.interested == 0.0
    ensures MeanOverCustomers(rows, metric) == Some(0.0)
  {
    var vs := PerCustomer(rows, metric);
    NoHitsPerCustomer(rows, metric);
    NonEmptyHasCustomers(rows);
    MeanZeros(vs);
  }

  /**
   When no recommended (customer, article) pair is a positive one, every
   reported mean is 0.
   */
  lemma NoPositivesNoScores(recs: seq<Rec>, truth: seq<TruthRow>, catalog: seq<ArticleId>)
    requires |catalog| > 0 && |recs| > 0
    requires forall r :: r in recs ==> (r.cid, r.aid) !in Positives(truth)
    ensures GetMetrics(recs, truth, catalog).Ok?
    ensures GetMetrics(recs, truth, catalog).value.meanPrecision == Some(0.0)
    ensures GetMetrics(recs, truth, catalog).value.meanRecall == Some(0.0)
    ensures GetMetrics(recs, truth, catalog).value.meanMap == Some(0.0)
  {
    var rows := LabelRows(recs, truth);
    NoPositivesZeroLabels(recs, truth);
    NoHitsMeans(rows, PrecisionAtK);
    NoHitsMeans(rows, RecallAtK);
    NoHitsMeans(rows, MapAtKMetric);
  }

  /** Without positive pairs among the recommendations, every labelled row is a miss. */
  lemma NoPositivesZeroLabels(recs: seq<Rec>, truth: seq<TruthRow>)
    requires forall r :: r in recs ==> (r.cid, r.aid) !in Positives(truth)
    ensures forall x :: x in LabelRows(recs, truth) ==> x.interested == 0.0
  {
    var js := LeftJoin(recs, truth);
    var rows := LabelRows(recs, truth);
    LeftJoinRowsAreRecs(recs, truth);
    LabelMarksPositives(recs, truth);
    forall x | x in rows
      ensures x.interested == 0.0
    {
      var k :| 0 <= k < |rows| && rows[k] == x;
      assert js[k] in js;
    }
  }

  /**
   One customer, two recommended articles, the higher-scored one consumed:
   full coverage of a two-article catalog, precision 1/2, recall 1/10 and
   MAP 1/2.
   */
  lemma WorkedExample()
    ensures GetMetrics(
      [Rec(1, "A01", 2.0), Rec(1, "A02", 1.0)],
      [TruthRow(1, "A01")],
      ["A01", "A02"])
      == Ok(Summary(100.0, Some(0.5), Some(0.1), Some(0.5)))
  {
    var recs := [Rec(1, "A01", 2.0), Rec(1, "A02", 1.0)];
    var truth := [TruthRow(1, "A01")];
    var catalog := ["A01", "A02"];
    ExampleCoverage(recs, catalog);
    ExampleLabels(recs, truth);
    var rows := [LabelledRow(1, "A01", 2.0, 1.0), LabelledRow(1, "A02", 1.0, 0.0)];
    ExampleMeans(rows);
  }

  /** The worked example's coverage: both catalog articles are recommended. */
  lemma ExampleCoverage(recs: seq<Rec>, catalog: seq<ArticleId>)
    requires recs == [Rec(1, "A01", 2.0), Rec(1, "A02", 1.0)]
    requires catalog == ["A01", "A02"]
    ensures CatalogCoverage(recs, catalog) == Ok(100.0)
  {
    assert recs[0] in recs && recs[1] in recs;
    assert RecommendedIds(recs) == {"A01", "A02"} == CatalogIds(catalog);
    FullCoverage(recs, catalog);
  }

  /** The worked example's labelling: the consumed article is the hit. */
  lemma ExampleLabels(recs: seq<Rec>, truth: seq<TruthRow>)
    requires recs == [Rec(1, "A01", 2.0), Rec(1, "A02", 1.0)]
    requires truth == [TruthRow(1, "A01")]
    ensures LabelRows(recs, truth) == [LabelledRow(1, "A01", 2.0, 1.0), LabelledRow(1, "A02", 1.0, 0.0)]
  {
    LeftJoinIsSetLabelling(recs, truth);
    assert Positives(truth) == {(1, "A01")};
  }

  /** The worked example has a single customer holding both rows. */
  lemma ExampleGroups(rows: seq<LabelledRow>)
    requires rows == [LabelledRow(1, "A01", 2.0, 1.0), LabelledRow(1, "A02", 1.0, 0.0)]
    ensures Customers(rows) == [1]
    ensures RowsOf(rows, 1) == rows
  {
    assert rows[..1] == [rows[0]];
    assert rows[..1][..0] == [];
    assert Customers(rows[..1]) == [1];
  }

  /** That customer's values; the rows are already in score order. */
  lemma ExampleCustomerValues(rows: seq<LabelledRow>)
    requires rows == [LabelledRow(1, "A01", 2.0, 1.0), LabelledRow(1, "A02", 1.0, 0.0)]
    ensures CustomerValue(PrecisionAtK, rows) == 0.5
    ensures CustomerValue(RecallAtK, rows) == 0.1
    ensures CustomerValue(MapAtKMetric, rows) == 0.5
  {
    var ranked := SortByScoreDesc(rows);
    SortedPermutationUnique(ranked, rows);
    assert LabelsOf(rows) == [1.0, 0.0];
    HitThenMissExample();
  }

  /** A mean over a single customer is that customer's value. */
  lemma ExampleMeans(rows: seq<LabelledRow>)
    requires rows == [LabelledRow(1, "A01", 2.0, 1.0), LabelledRow(1, "A02", 1.0, 0.0)]
    ensures MeanOverCustomers(rows, PrecisionAtK) == Some(0.5)
    ensures MeanOverCustomers(rows, RecallAtK) == Some(0.1)
    ensures MeanOverCustomers(rows, MapAtKMetric) == Some(0.5)
  {
    ExampleGroups(rows);
    ExampleCustomerValues(rows);
    SingleCustomerMean(rows, 1, PrecisionAtK);
    SingleCustomerMean(rows, 1, RecallAtK);
    SingleCustomerMean(rows, 1, MapAtKMetric);
  }

  /** With a single customer, each reported mean is that customer's value. */
  lemma SingleCustomerMean(rows: seq<LabelledRow>, c: CustomerId, metric: Metric)
    requires Customers(rows) == [c]
    ensures |RowsOf(rows, c)| > 0
    ensures MeanOverCustomers(rows, metric) == Some(CustomerValue(metric, RowsOf(rows, c)))
  {
    assert c in Customers(rows);
    var v := CustomerValue(metric, RowsOf(rows, c));
    var vs := PerCustomer(rows, metric);
    assert |vs| == 1 && vs[0] == v;
    assert vs[..0] == [];
    assert Sum(vs) == v;
    RatioBounds(v, 1);
    assert Mean(vs) == v;
    assert MeanOrNaN(vs) == Some(v);
    assert MeanOverCustomers(rows, metric) == MeanOrNaN(vs);
  }
}
