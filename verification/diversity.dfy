/**
 The pair table the diversity metric starts from: every customer's list of
 articles, one entry per joined row (a pair repeated in the true labels
 repeats its article), the pairs `itertools.combinations(list, 2)` forms of
 it, the `explode` of those lists into one row per pair, and the `zip`
 that splits the pairs into two article columns. Similarity scores and the
 diversity averages themselves are not modelled.
 */
module Diversity {
  import opened Results
  import opened Labelling

  type Pair = (ArticleId, ArticleId)

  /**
   One cell of the exploded `combs` column: an article pair, or NaN where the
   customer's list of pairs was empty.
   */
  datatype Cell = PairCell(pair: Pair) | NaN

  /** Why the unpacking of the exploded column raises. */
  datatype PairsError =
    | NotIterable     // a NaN cell is a float: `zip(*...)` raises TypeError
    | NothingToUnpack // no cells at all: two targets, no values, ValueError

  /** Number of 2-element combinations of n items. */
  function PairCount(n: nat): nat
  {
    if n == 0 then 0 else n - 1 + PairCount(n - 1)
  }

  /** The count of pairs is n(n - 1)/2. */
  lemma {:induction false} PairCountClosedForm(n: nat)
    ensures 2 * PairCount(n) == n * (n - 1)
  {
    if n > 0 {
      PairCountClosedForm(n - 1);
      assert n * (n - 1) == 2 * (n - 1) + (n - 1) * (n - 2);
    }
  }

  /** `itertools.combinations(xs, 2)`: the pairs of positions i < j, in lexicographic order. */
  function Combinations(xs: seq<ArticleId>): (ps: seq<Pair>)
    ensures |ps| == PairCount(|xs|)
    ensures |ps| == 0 <==> |xs| < 2
  {
    if |xs| == 0 then []
    else seq(|xs| - 1, j requires 0 <= j < |xs| - 1 => (xs[0], xs[j + 1])) + Combinations(xs[1..])
  }

  /** Every pair of positions i < j appears among the combinations. */
  lemma {:induction false} CombinationsCover(xs: seq<ArticleId>, i: nat, j: nat)
    requires i < j < |xs|
    ensures (xs[i], xs[j]) in Combinations(xs)
  {
    var head := seq(|xs| - 1, k requires 0 <= k < |xs| - 1 => (xs[0], xs[k + 1]));
    assert Combinations(xs) == head + Combinations(xs[1..]);
    if i == 0 {
      assert head[j - 1] == (xs[i], xs[j]);
    } else {
      CombinationsCover(xs[1..], i - 1, j - 1);
    }
  }

  /** Every combination is a pair of positions i < j. */
  lemma {:induction false} CombinationsSound(xs: seq<ArticleId>, p: Pair)
    requires p in Combinations(xs)
    ensures exists i, j :: 0 <= i < j < |xs| && p == (xs[i], xs[j])
  {
    var head := seq(|xs| - 1, k requires 0 <= k < |xs| - 1 => (xs[0], xs[k + 1]));
    assert Combinations(xs) == head + Combinations(xs[1..]);
    if p in head {
      var k :| 0 <= k < |head| && head[k] == p;
      assert p == (xs[0], xs[k + 1]);
    } else {
      CombinationsSound(xs[1..], p);
      var i, j :| 0 <= i < j < |xs[1..]| && p == (xs[1..][i], xs[1..][j]);
      assert p == (xs[i + 1], xs[j + 1]);
    }
  }

  /** One customer's cells after `explode`: a cell per pair, or a single NaN for no pairs. */
  function CustomerCells(articles: seq<ArticleId>): (cells: seq<Cell>)
    ensures |cells| > 0
    ensures NaN in cells <==> |articles| < 2
  {
    var ps := Combinations(articles);
    if |ps| == 0 then [NaN]
    else seq(|ps|, i requires 0 <= i < |ps| => PairCell(ps[i]))
  }

  /** `explode("combs")` over the customers' article lists, customer after customer. */
  function Explode(lists: seq<seq<ArticleId>>): (cells: seq<Cell>)
    ensures |cells| == 0 <==> |lists| == 0
  {
    if |lists| == 0 then [] else CustomerCells(lists[0]) + Explode(lists[1..])
  }

  /** Some customer's article list, one entry per joined row, has fewer than two entries. */
  ghost predicate HasShortList(lists: seq<seq<ArticleId>>)
  {
    exists i :: 0 <= i < |lists| && |lists[i]| < 2
  }

  /** The exploded column holds a NaN cell exactly when some customer has fewer than two joined rows. */
  lemma {:induction false} ExplodeNaN(lists: seq<seq<ArticleId>>)
    ensures NaN in Explode(lists) <==> HasShortList(lists)
  {
    if |lists| > 0 {
      ExplodeNaN(lists[1..]);
      if HasShortList(lists[1..]) {
        var i :| 0 <= i < |lists[1..]| && |lists[1..][i]| < 2;
        assert |lists[i + 1]| < 2;
      }
      if HasShortList(lists) && |lists[0]| >= 2 {
        var i :| 0 <= i < |lists| && |lists[i]| < 2;
        assert lists[1..][i - 1] == lists[i];
      }
    }
  }

  /**
   `recs["aid_01"], recs["aid_02"] = zip(*recs["combs"])`: every cell must be
   an iterable pair, and there must be at least one to give two columns.
   */
  function Unzip(cells: seq<Cell>): (r: Result<seq<Pair>, PairsError>)
    ensures r.Err? <==> |cells| == 0 || NaN in cells
    ensures r.Ok? ==> |r.value| == |cells|
    ensures r.Ok? ==> forall i :: 0 <= i < |cells| ==> cells[i] == PairCell(r.value[i])
  {
    if |cells| == 0 then Err(NothingToUnpack)
    else if NaN in cells then Err(NotIterable)
    else
      var ps := seq(|cells|, i requires 0 <= i < |cells| => cells[i].pair);
      assert forall i :: 0 <= i < |cells| ==> cells[i] == PairCell(ps[i]);
      Ok(ps)
  }

  /**
   The pair table as tools.py:133-138 builds it. It raises exactly when there
   are no customers or some customer has fewer than two joined rows.
   */
  function PairsAsWritten(lists: seq<seq<ArticleId>>): (r: Result<seq<Pair>, PairsError>)
    ensures r.Err? <==> |lists| == 0 || HasShortList(lists)
  {
    ExplodeNaN(lists);
    Unzip(Explode(lists))
  }

  /** A customer with a single joined row makes the whole call raise. */
  lemma SingleRecommendationRaises()
    ensures PairsAsWritten([["A01"], ["A02", "A03"]]) == Err(NotIterable)
  {
    var lists := [["A01"], ["A02", "A03"]];
    assert Combinations(lists[0]) == [];
    assert NaN in CustomerCells(lists[0]);
    assert NaN in Explode(lists);
  }

  /**
   The intended pair table: each customer's combinations, customer after
   customer; a customer with fewer than two joined rows has none.
   */
  function Pairs(lists: seq<seq<ArticleId>>): (ps: seq<Pair>)
    ensures |lists| > 0 && !HasShortList(lists) ==> |ps| > 0
  {
    if |lists| == 0 then []
    else
      assert |lists| > 0 && !HasShortList(lists) ==> |lists[0]| >= 2;
      Combinations(lists[0]) + Pairs(lists[1..])
  }

  /**
   A pair is in the intended table exactly when it is a pair of two positions
   i < j of one customer's list.
   */
  lemma {:induction false} PairsComplete(lists: seq<seq<ArticleId>>, p: Pair)
    ensures p in Pairs(lists) <==> exists c :: 0 <= c < |lists| && p in Combinations(lists[c])
  {
    if |lists| > 0 {
      PairsComplete(lists[1..], p);
      if p in Pairs(lists[1..]) {
        var c :| 0 <= c < |lists[1..]| && p in Combinations(lists[1..][c]);
        assert p in Combinations(lists[c + 1]);
      }
      if c :| 0 <= c < |lists| && p in Combinations(lists[c]) {
        if c > 0 {
          assert lists[1..][c - 1] == lists[c];
        }
      }
    }
  }

  /** The cells of customers that all have at least two articles are exactly their pairs. */
  lemma {:induction false} ExplodeMatchesPairs(lists: seq<seq<ArticleId>>)
    requires !HasShortList(lists)
    ensures |Explode(lists)| == |Pairs(lists)|
    ensures forall i :: 0 <= i < |Pairs(lists)| ==> Explode(lists)[i] == PairCell(Pairs(lists)[i])
  {
    if |lists| > 0 {
      assert |lists[0]| >= 2;
      assert !HasShortList(lists[1..]);
      ExplodeMatchesPairs(lists[1..]);
    }
  }

  /**
   Where the written code does not raise, it builds the intended table; and
   whenever there is at least one customer and each has two or more joined rows,
   it does not raise.
   */
  lemma PairsAgreeWithAsWritten(lists: seq<seq<ArticleId>>)
    ensures PairsAsWritten(lists).Ok? <==> |lists| > 0 && !HasShortList(lists)
    ensures PairsAsWritten(lists).Ok? ==> PairsAsWritten(lists).value == Pairs(lists)
  {
    if |lists| > 0 && !HasShortList(lists) {
      ExplodeMatchesPairs(lists);
    }
  }

  /** On the input that raises as written, the intended table keeps the one customer that has a pair. */
  lemma SingleRecommendationPairs()
    ensures Pairs([["A01"], ["A02", "A03"]]) == [("A02", "A03")]
  {
    var lists := [["A01"], ["A02", "A03"]];
    assert Combinations(lists[0]) == [];
    assert Combinations(lists[1]) == [("A02", "A03")] by {
      assert Combinations(lists[1][1..]) == [];
    }
    assert lists[1..][1..] == [];
  }
}
