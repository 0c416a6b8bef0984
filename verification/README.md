# Offline ranking metrics of a recommendation engine, in Dafny

This project models the arithmetic of `get_metrics` in `tools.py`. That function
evaluates a recommender offline. It takes a table of per-customer recommended
articles, already cut to the top k, and a table of the articles each customer
actually consumed. From these it reports catalog coverage and the
cross-customer means of Precision@k, Recall@k and "MAP@k". Here the pandas
pipeline is restated as pure functions over sequences of records, using exact
`real`s in place of floats.

Modules, in pipeline order:

- `Results` (`results.dfy`): `Option` stands for a value that may be NaN. `Result` stands for a computation that may raise.
- `Averages` (`averages.dfy`): `Sum`, `Mean` and pandas' `mean()` with NaN for an empty series, plus bounds lemmas.
- `Labelling` (`labelling.dfy`): recommendation rows (`Rec`: customer, article, ranking score) and true-label rows.
  - `LeftJoin` is the left merge on (customer, article), and `FillNa` replaces a missing `interested` with 0.
  - `LabelBySet` is a reference labelling against the set of positive pairs.
- `Coverage` (`coverage.dfy`): catalog coverage in percent. It fails with `EmptyCatalog` where the source divides by a zero count and raises `ZeroDivisionError`.
- `Ranking` (`ranking.dfy`): a customer's rows ordered by score, highest first, and the uniqueness of that order when scores are distinct.
- `CustomerMetrics` (`customer_metrics.dfy`): one customer's precision, recall and MAP, computed from that customer's labels in ranking order.
  - `ExpandingTerms` is the expanding-sum / expanding-count pass.
- `Grouping` (`grouping.dfy`): `groupby(cid)`, meaning the customers present and each customer's rows.
- `Metrics` (`metrics.dfy`): per-customer series, the means over customers, and `GetMetrics`, which assembles the summary numbers.
- `Diversity` (`diversity.dfy`): only the pair table the diversity block builds (tools.py:133-138), as written and as evidently intended; see "Findings".

Decisions taken while modelling:

- **Where the docstring and the code disagree, the model follows the code.** The docstring says the true-label table holds only the customer id and the article (tools.py:58-59). The code nevertheless reads an `interested` column from the joined table (tools.py:84). The model gives every true-label row `interested = 1`, so the table is a list of positive (customer, article) pairs.
- **Worked example.** `WorkedExample` proves MAP 1/2 for one customer with two articles, the higher-scored one consumed.
- **Recall.** Recall divides by the literal constant 10 (tools.py:93). It does not depend on k or on how many positives the customer has.
- **MAP.** The repository's "MAP@k" is its own definition, not standard average precision. At each position it takes the running precision times the label, then averages over all n positions.
- **Order of customers.** pandas lists the groups ordered by key. The model lists customers by first appearance. Only means are taken over this list, and `MeanOrNaNPermutation` shows that a mean does not depend on the order of its series.
- **Order of rows within a customer.** The source sorts the whole table by (customer descending, score descending) and then groups it (tools.py:101). Grouping keeps row order, so each customer's rows come out in score-descending order. The model sorts each customer's rows by score directly.
  - `SortedPermutationUnique` shows that, when a customer's scores are distinct, every descending order of the rows is the same one. So tie-breaking by the sort cannot matter then.

## Model

| member | source | states |
|---|---|---|
| Labelling.LeftJoin | tools.py:72-77 | The left merge keeps at least one row per recommendation, so it is empty only for no recommendations, and every present label is 1. `LeftJoinRowsAreRecs`, `DuplicatePairRepeatsRow` and `LeftJoinIsSetLabelling` give its contents. |
| Labelling.Matches | tools.py:72-77 | The merge emits one joined row per matching true-label row, each with interest 1. Their number is the number of matching rows. |
| Labelling.FillNa | tools.py:84 | Filling keeps every row and its keys. A missing `interested` becomes 0 and a present one is kept. |
| Labelling.LabelRows | tools.py:72-84 | Merge then fill: at least one labelled row per recommendation, and none without recommendations. `LabelMarksPositives` gives its labels. |
| Labelling.LabelBySet | tools.py:72-77 | Reference labelling: one row per recommendation, with keys unchanged. The label is 1 exactly when the (customer, article) pair is positive. |
| Labelling.MatchCountPositive | tools.py:72-77 | A recommendation row is matched at least once if and only if its pair is among the true labels. |
| Labelling.MatchCountUnique | tools.py:72-77 | When the true-label pairs are unique, a row is matched at most once. |
| Labelling.LeftJoinIsSetLabelling | tools.py:72-77 | With unique true-label pairs, the join neither drops nor adds rows. Join plus fill then equals labelling by the set of positive pairs. |
| Labelling.DuplicatePairRepeatsRow | tools.py:72-77 | A duplicated true-label pair makes the left join repeat the matching recommendation row. |
| Labelling.LeftJoinRowsAreRecs | tools.py:72-77 | Every joined row comes from a recommendation row, and every recommendation row appears in the join. |
| Labelling.LabelMarksPositives | tools.py:72-84 | Even with duplicate true-label rows, a labelled row has label 1 if and only if its pair is positive. |
| Coverage.CatalogCoverage | tools.py:79-81 | An empty catalog raises. Otherwise coverage × distinct catalog ids = 100 × distinct recommended ids, and coverage is non-negative. |
| Coverage.CoverageIsPercentage | tools.py:79-81 | When the recommended ids are catalog ids, coverage lies in [0, 100]. |
| Coverage.FullCoverage | tools.py:79-81 | When the recommended ids are catalog ids, coverage is exactly 100 if and only if the two id sets coincide. |
| Coverage.RepeatedCatalogIdCoverage | tools.py:79-81 | Coverage is not clamped to 100: two distinct recommended articles against the catalog index [A, A] give 200. |
| Coverage.NoRecommendationsNoCoverage | tools.py:79-81 | No recommendations give coverage 0 of a non-empty catalog. |
| Ranking.SortByScoreDesc | tools.py:101 | A customer's rows reordered so that scores never increase. The result is a permutation of the input. |
| Ranking.SortedPermutationUnique | tools.py:101 | Two score-descending orders of the same rows with distinct scores are equal, so ties are the only source of order dependence. |
| CustomerMetrics.SumCountsHits | tools.py:85 | Summing the 0/1 labels counts the hits. |
| CustomerMetrics.HitsExtremes | tools.py:85 | No hits if and only if all labels are 0. All hits if and only if all labels are 1. |
| CustomerMetrics.Precision | tools.py:85 | Per-customer precision × rows = hits. It lies in [0, 1]. It is 0 if and only if there are no hits, and 1 if and only if every row is a hit. |
| CustomerMetrics.Recall | tools.py:93 | Per-customer recall × 10 = hits, whatever k is. It is 0 if and only if there are no hits, and at most rows / 10. |
| CustomerMetrics.RunningPrecision | tools.py:102-110 | The running precision at a position lies in [0, 1]. |
| CustomerMetrics.Term | tools.py:108-111 | A per-position MAP term lies between 0 and that position's label. A position labelled 0 contributes nothing. |
| CustomerMetrics.Terms | tools.py:108-111 | One term per position, each between 0 and its label, and 0 where the label is 0. |
| CustomerMetrics.HitsStep | tools.py:102-110 | Advancing the expanding window by one row adds that row's label to the running sum. The running sum over the running count is then the running precision. |
| CustomerMetrics.ExpandingTerms | tools.py:102-111 | The one-pass running-sum / running-count computation yields, at every position, label × hits-so-far / position. This is exactly the closed-form terms. |
| CustomerMetrics.MapAtK | tools.py:101-112 | Per-customer MAP lies in [0, precision], so it is at most 1. It is 0 with no hits and 1 when every row is a hit. |
| CustomerMetrics.NoHitsMap | tools.py:102-112 | Without hits, the mean of the MAP terms is 0. |
| CustomerMetrics.AllHitsMap | tools.py:102-112 | With a hit at every position, the mean of the MAP terms is 1. |
| CustomerMetrics.AllHitsTermsSum | tools.py:102-112 | With a hit at every position, the MAP terms sum to their number. |
| CustomerMetrics.SingleHitMap | tools.py:102-112 | A single recommended item that is a hit has MAP 1. |
| CustomerMetrics.HitThenMissExample | tools.py:85-112 | A hit then a miss give precision 1/2, recall 1/10 and MAP 1/2. |
| Grouping.Customers | tools.py:85 | The group keys: each customer with a row, listed once. |
| Grouping.RowsOf | tools.py:85 | A customer's group holds exactly that customer's rows, each as many times as the table holds it, so a row the join repeated is counted again. It is non-empty if and only if the customer has a row. |
| Grouping.RowsOfConcat | tools.py:85 | Grouping keeps table order: the group of a concatenation is the group of the first part followed by the group of the second. |
| Grouping.RowsOfSingleton | tools.py:85 | A single row forms the group of its own customer and of no other. Together with `RowsOfConcat`, the group is the in-order subsequence of the customer's rows. |
| Grouping.GroupCount | tools.py:85 | There is one group per distinct customer. |
| Averages.Mean | tools.py:86 | mean × count = sum. The mean of non-negative values is non-negative, and the mean of values in [0, 1] is in [0, 1]. |
| Averages.MeanOrNaN | tools.py:86 | The mean is defined (not NaN) if and only if the series is non-empty, and then it keeps the bounds of `Mean`. |
| Averages.MeanMonotone | tools.py:85-113 | Averaging preserves a termwise order. |
| Averages.SumConcat | tools.py:86 | The sum of a concatenation is the sum of the two sums. |
| Averages.SumPermutation | tools.py:86 | Two series with the same values, each as often, have the same sum, whatever their order. |
| Averages.MeanOrNaNPermutation | tools.py:86-113 | Reordering a series, such as the customer series pandas orders by key, changes neither its mean nor whether that mean is NaN. |
| Metrics.CustomerValue | tools.py:85-112 | Precision and MAP of a customer lie in [0, 1], and recall in [0, rows / 10]. MAP, computed on the score-sorted rows, never exceeds precision. |
| Metrics.RankingKeepsHits | tools.py:101 | Sorting a customer's rows by score does not change that customer's precision. |
| Metrics.SortKeepsHits | tools.py:101 | Sorting by score keeps the number of hits. |
| Metrics.PerCustomer | tools.py:85-112 | One value per customer present. All are non-negative, and precision and MAP values lie in [0, 1]. |
| Metrics.MeanOverCustomers | tools.py:86-113 | The mean is defined if and only if there are rows. Precision and MAP means lie in [0, 1], and every mean is non-negative. |
| Metrics.MeansOverRecommendedCustomers | tools.py:85-113 | Each mean averages exactly one value per customer that appears in the recommendations: the customers listed are exactly the recommended ones, each once, and the value at a customer's position is that customer's metric over their own rows. |
| Metrics.MapMeanBelowPrecisionMean | tools.py:85-113 | Mean MAP never exceeds mean precision. |
| Metrics.LabelledCustomers | tools.py:72-85 | Labelling keeps exactly the customers of the recommendations. |
| Metrics.GetMetrics | tools.py:72-117 | Up to line 117, an empty catalog raises and nothing else does. Each mean is defined if and only if there are recommendations. Then 0 ≤ MAP ≤ precision ≤ 1 and recall ≥ 0. Coverage is in [0, 100] when the recommended ids are catalog ids. |
| Metrics.NoHitsCustomerValue | tools.py:85-112 | A customer without hits scores 0 on precision, recall and MAP. |
| Metrics.NoHitsMeans | tools.py:85-113 | Without hits in any row, every mean over the customers is 0. |
| Metrics.NoPositivesNoScores | tools.py:72-113 | If no recommended pair is positive, the reported precision, recall and MAP means are all 0. |
| Metrics.SingleCustomerMean | tools.py:86-113 | With a single customer, each mean is that customer's value. |
| Metrics.WorkedExample | tools.py:72-117 | One customer with two articles, the higher-scored one consumed, and a two-article catalog: coverage 100, precision 1/2, recall 1/10, MAP 1/2. |
| Diversity.PairCountClosedForm | tools.py:134-136 | n articles have n(n - 1)/2 pairs. |
| Diversity.Combinations | tools.py:134-136 | A customer with n articles has `PairCount(n)` pairs, which is n(n - 1)/2, and has none exactly when n < 2. |
| Diversity.CombinationsCover | tools.py:134-136 | Every pair of positions i < j of a customer's list is among its combinations. |
| Diversity.CombinationsSound | tools.py:134-136 | Every combination is the pair of articles at two positions i < j. |
| Diversity.CustomerCells | tools.py:137 | After `explode`, a customer has at least one cell, and a NaN cell exactly when their list has fewer than two entries, that is, fewer than two joined rows. |
| Diversity.Explode | tools.py:137 | The exploded column is empty exactly when there are no customers. |
| Diversity.ExplodeNaN | tools.py:133-137 | The exploded column holds a NaN exactly when some customer has fewer than two joined rows. |
| Diversity.Unzip | tools.py:138 | The unpacking raises exactly on an empty column or a NaN cell, and otherwise splits every cell into its two articles. |
| Diversity.PairsAsWritten | tools.py:133-138 | As written, building the pair table raises exactly when there are no customers or some customer has fewer than two joined rows. |
| Diversity.SingleRecommendationRaises | tools.py:133-138 | A customer with one article next to a customer with two makes the whole call raise. |
| Diversity.Pairs | tools.py:133-136 | The corrected pair table: it is non-empty whenever the written code would succeed. `PairsComplete` and `PairsAgreeWithAsWritten` carry its other properties. |
| Diversity.PairsComplete | tools.py:133-136 | The intended pair table holds exactly the combinations of the customers' lists. |
| Diversity.ExplodeMatchesPairs | tools.py:133-138 | When every customer has at least two articles, the exploded cells are exactly the intended pairs, in order. |
| Diversity.PairsAgreeWithAsWritten | tools.py:133-138 | The written code succeeds exactly when there is a customer and none has fewer than two joined rows, and then it builds the intended table. |
| Diversity.SingleRecommendationPairs | tools.py:133-138 | On the input that raises as written, the intended table holds the other customer's one pair. |

## Left out

- Diversity scores (tools.py:119-132, 139-147): only the pair table of lines 133-138 is modelled. The scores call sklearn's cosine similarity on float feature vectors, which is a foreign call with float numerics. Separately, the similarity matrix's rows follow the order of the articles table. Its labels follow the order in which articles first appear in the joined table, sorted by customer and score (tools.py:101). So rows and labels can mismatch.
- Standard deviations (tools.py:87, 95, 114, 144): pandas' sample standard deviation needs a square root and is NaN for a single customer.
- Rounding of coverage to four decimals (tools.py:81): the model keeps the exact ratio.
- NaN semantics beyond "a missing label is 0" and "a mean over no customers is NaN". Missing customer or article ids, and non-numeric scores, are not modelled.
- Tie order: when a customer has equal scores, the order pandas' sort leaves them in is not modelled. The model's insertion sort is stable. `SortedPermutationUnique` covers the distinct-score case.
- Assembly of the summary DataFrame (tools.py:65-71, 80, 88-89, 96-97, 115-116, 148). The model returns the numbers in a `Summary` record. `name` and `k` only label the output, so they are not parameters of the model. `customer_id` and `sort_column` choose columns: the join and grouping key (tools.py:76, 85, 93, 101-105, 112, 133) and the sort key (tools.py:101). They are modelled as the `cid` and `score` fields of a row.
- `show_article` (tools.py:15-25): image loading and resizing is file I/O.
- `read_config_data` (tools.py:28-41): reading and parsing a YAML file is file I/O.
- Metrics.GetMetrics: models lines 72-117 only, so it returns a summary where the full function raises later, in the diversity block. With no recommendations, sklearn's `cosine_similarity` gets zero samples and raises `ValueError` (tools.py:122-124). With a customer that has a single joined row, building the pair table raises `TypeError` (tools.py:134-138; see "Findings"). The similarity matrix has one row per catalog row whose id is recommended, and one label per distinct recommended id. When these two numbers differ, building the labelled frame raises `ValueError` (tools.py:122-129). With a unique catalog index, coverage above 100 needs a recommended id missing from the catalog, so it always meets this raise. With a repeated index it need not: for recommended ids A and B and the catalog index [A, A], both numbers are 2 and the full function reports coverage 200, as `Coverage.RepeatedCatalogIdCoverage` shows.
- Metrics.GetMetrics: does not restate recall's upper bound (customer rows / 10) at the summary level. That bound is stated per customer by `CustomerMetrics.Recall` and `Metrics.CustomerValue`.

## Findings

| source | as written | input that shows it | evidently intended | confidence | as-written member | corrected member |
|---|---|---|---|---|---|---|
| tools.py:133-138 | The article lists of line 133 hold one entry per joined row. A customer with fewer than two joined rows gets an empty list of pairs. `explode` turns that list into a NaN cell, and `zip(*recs["combs"])` then raises `TypeError` because a float is not iterable. With no customers at all, the two-target unpacking raises `ValueError`. | two customers whose article lists are `["A01"]` and `["A02", "A03"]`; likewise a run with k = 1, unless every customer's one article is doubled by a repeated true-label pair | such a customer contributes no pairs, and the other customers' pairs are kept | medium, not executed | Diversity.SingleRecommendationRaises | Diversity.PairsAgreeWithAsWritten |

`Diversity.Pairs` is the corrected table. No other part of the model reads it, because the diversity scores built from it are left out.
