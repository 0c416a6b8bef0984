/**
 Catalog coverage: the share, in percent, of distinct catalog articles that
 appear anywhere in the recommendations.
 */
module Coverage {
  import opened Results
  import opened Labelling

  datatype MetricsError =
    /** `nunique()` of an empty catalog index is 0, and dividing by that zero count raises `ZeroDivisionError`. */
    | EmptyCatalog

  /** `recommendations["article_id"].nunique()` counts the members of this set. */
  function RecommendedIds(recs: seq<Rec>): set<ArticleId>
  {
    set r | r in recs :: r.aid
  }

  /** `articles_df.index.nunique()` counts the members of this set. */
  function CatalogIds(catalog: seq<ArticleId>): set<ArticleId>
  {
    set a | a in catalog
  }

  /**
   Coverage in percent, before the source's rounding to four decimals; an
   empty catalog makes the division raise.
   */
  function CatalogCoverage(recs: seq<Rec>, catalog: seq<ArticleId>): (r: Result<real, MetricsError>)
    ensures r.Err? <==> |catalog| == 0
    ensures r.Ok? ==> r.value * |CatalogIds(catalog)| as real == 100.0 * |RecommendedIds(recs)| as real
    ensures r.Ok? ==> 0.0 <= r.value
  {
    if |catalog| == 0 then
      Err(EmptyCatalog)
    else
      assert catalog[0] in CatalogIds(catalog);
      Ok(100.0 * (|RecommendedIds(recs)| as real / |CatalogIds(catalog)| as real))
  }

  /** When every recommended article is in the catalog, coverage is a percentage in [0, 100]. */
  lemma CoverageIsPercentage(recs: seq<Rec>, catalog: seq<ArticleId>)
    requires |catalog| > 0
    ensures RecommendedIds(recs) <= CatalogIds(catalog) ==> 0.0 <= CatalogCoverage(recs, catalog).value <= 100.0
  {
    if RecommendedIds(recs) <= CatalogIds(catalog) {
      SubsetCardinality(RecommendedIds(recs), CatalogIds(catalog));
      assert catalog[0] in CatalogIds(catalog);
      Percent(|RecommendedIds(recs)|, |CatalogIds(catalog)|);
    }
  }

  /**
   When every recommended article is in the catalog, coverage is exactly 100
   if and only if the recommendations reach every catalog article.
   */
  lemma FullCoverage(recs: seq<Rec>, catalog: seq<ArticleId>)
    requires |catalog| > 0
    requires RecommendedIds(recs) <= CatalogIds(catalog)
    ensures CatalogCoverage(recs, catalog).value == 100.0 <==> RecommendedIds(recs) == CatalogIds(catalog)
  {
    var a, b := RecommendedIds(recs), CatalogIds(catalog);
    assert catalog[0] in b;
    SubsetCardinality(a, b);
    Percent(|a|, |b|);
    if a != b {
      assert |a| < |b|;
    }
  }

  /** A subset is no larger, and a proper subset is strictly smaller. */
  lemma {:induction false} SubsetCardinality<T>(a: set<T>, b: set<T>)
    requires a <= b
    ensures |a| <= |b|
    ensures a < b ==> |a| < |b|
    decreases b
  {
    if a != b {
      var x :| x in b && x !in a;
      SubsetCardinality(a, b - {x});
    }
  }

  /** The ratio of a part to a positive whole, in percent. */
  lemma Percent(part: nat, whole: nat)
    requires 0 < whole
    ensures 0.0 <= 100.0 * (part as real / whole as real)
    ensures part <= whole ==> 100.0 * (part as real / whole as real) <= 100.0
    ensures 100.0 * (part as real / whole as real) == 100.0 <==> part == whole
  {
    var q := part as real / whole as real;
    assert q * whole as real == part as real;
    if part < whole {
      assert q < 1.0;
    } else if part > whole {
      assert q > 1.0;
    }
  }

  /** No recommendations at all give zero coverage of a non-empty catalog. */
  lemma NoRecommendationsNoCoverage(catalog: seq<ArticleId>)
    requires |catalog| > 0
    ensures CatalogCoverage([], catalog) == Ok(0.0)
  {
    var none: seq<Rec> := [];
    assert RecommendedIds(none) == {};
    assert catalog[0] in CatalogIds(catalog);
    Percent(0, |CatalogIds(catalog)|);
  }

  /**
   Coverage is not clamped. Two distinct articles A and B are recommended,
   and the catalog index is [A, A], so it has one distinct article and
   coverage is 200.
   */
  lemma RepeatedCatalogIdCoverage()
    ensures CatalogCoverage([Rec(1, "A", 2.0), Rec(1, "B", 1.0)], ["A", "A"]) == Ok(200.0)
  {
    var recs := [Rec(1, "A", 2.0), Rec(1, "B", 1.0)];
    var catalog: seq<ArticleId> := ["A", "A"];
    assert RecommendedIds(recs) == {"A", "B"};
    assert CatalogIds(catalog) == {"A"};
  }
}
