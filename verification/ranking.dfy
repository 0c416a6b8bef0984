/**
 Ordering of a customer's rows by the ranking column, highest first, as the
 MAP computation does before its expanding sums.
 */
module Ranking {
  import opened Labelling

  /** Scores never increase along the sequence. */
  ghost predicate SortedDesc(rows: seq<LabelledRow>)
  {
    forall i, j :: 0 <= i < j < |rows| ==> rows[i].score >= rows[j].score
  }

  /** No two rows share a score. */
  ghost predicate DistinctScores(rows: seq<LabelledRow>)
  {
    forall i, j :: 0 <= i < j < |rows| ==> rows[i].score != rows[j].score
  }

  /** Inserts a row into a descending sequence, after every row whose score is higher. */
  function Insert(x: LabelledRow, rows: seq<LabelledRow>): (r: seq<LabelledRow>)
    requires SortedDesc(rows)
    ensures SortedDesc(r)
    ensures multiset(r) == multiset(rows) + multiset{x}
    ensures |r| == |rows| + 1
    ensures r[0] == x || (|rows| > 0 && r[0] == rows[0])
  {
    if |rows| == 0 then [x]
    else if x.score >= rows[0].score then
      [x] + rows
    else
      var tail := Insert(x, rows[1..]);
      assert rows == [rows[0]] + rows[1..];
      ConsSorted(rows[0], tail);
      [rows[0]] + tail
  }

  /** A row placed before a descending sequence headed by a row no higher keeps it descending. */
  lemma ConsSorted(h: LabelledRow, tail: seq<LabelledRow>)
    requires SortedDesc(tail)
    requires |tail| > 0 ==> h.score >= tail[0].score
    ensures SortedDesc([h] + tail)
  {
    var r := [h] + tail;
    forall i, j | 0 <= i < j < |r|
      ensures r[i].score >= r[j].score
    {
      if i == 0 {
        assert r[j] == tail[j - 1];
        assert tail[0].score >= tail[j - 1].score;
      } else {
        assert r[i] == tail[i - 1] && r[j] == tail[j - 1];
      }
    }
  }

  /** `sort_values(..., ascending=False)` on the ranking column within one customer. */
  function SortByScoreDesc(rows: seq<LabelledRow>): (r: seq<LabelledRow>)
    ensures SortedDesc(r)
    ensures multiset(r) == multiset(rows)
    ensures |r| == |rows|
  {
    if |rows| == 0 then []
    else
      assert rows == [rows[0]] + rows[1..];
      Insert(rows[0], SortByScoreDesc(rows[1..]))
  }

  /**
   Two descending orderings of the same rows with distinct scores coincide, so
   when scores are distinct the order (and everything computed from it) does
   not depend on how a sort breaks ties.
   */
  lemma {:induction false} SortedPermutationUnique(a: seq<LabelledRow>, b: seq<LabelledRow>)
    requires multiset(a) == multiset(b)
    requires SortedDesc(a) && SortedDesc(b)
    requires DistinctScores(a)
    ensures a == b
    decreases |a|
  {
    assert |a| == |multiset(a)| == |multiset(b)| == |b|;
    if |a| > 0 {
      HeadsAgree(a, b);
      DropHead(a);
      DropHead(b);
      SortedPermutationUnique(a[1..], b[1..]);
    }
  }

  /** Dropping the first row keeps order and distinctness and removes one copy of that row. */
  lemma DropHead(a: seq<LabelledRow>)
    requires |a| > 0
    ensures SortedDesc(a) ==> SortedDesc(a[1..])
    ensures DistinctScores(a) ==> DistinctScores(a[1..])
    ensures multiset(a[1..]) == multiset(a) - multiset{a[0]}
  {
    assert a == [a[0]] + a[1..];
  }

  /** The first rows of two descending orderings of the same distinct-score rows agree. */
  lemma HeadsAgree(a: seq<LabelledRow>, b: seq<LabelledRow>)
    requires |a| > 0 && multiset(a) == multiset(b)
    requires SortedDesc(a) && SortedDesc(b)
    requires DistinctScores(a)
    ensures a[0] == b[0]
  {
    assert a[0] in multiset(b);
    assert b[0] in multiset(a);
    var j :| 0 <= j < |b| && b[j] == a[0];
    var k :| 0 <= k < |a| && a[k] == b[0];
    assert b[0].score >= b[j].score;
    assert a[0].score >= a[k].score;
  }
}
