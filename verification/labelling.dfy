/**
 The records `get_metrics` works on and the labelling step: a left join of the
 recommendations against the true-label table on (customer, article),
 followed by filling the missing labels with 0.
 */
module Labelling {
  import opened Results

  type CustomerId = int
  type ArticleId = string

  /** A relevance label: pandas holds `interested` as a float that is 0 or 1. */
  type Label = x: real | x == 0.0 || x == 1.0

  /** One recommendation row: customer, article and the value of the ranking column. */
  datatype Rec = Rec(cid: CustomerId, aid: ArticleId, score: real)

  /** One row of the true-label table: a positive (customer, article) interaction, interest 1. */
  datatype TruthRow = TruthRow(cid: CustomerId, aid: ArticleId)

  /** A row of the left join before filling: `interested` is NaN (`None`) when nothing matched. */
  datatype JoinedRow = JoinedRow(rec: Rec, interested: Option<Label>)

  /** A recommendation row with its relevance label. */
  datatype LabelledRow = LabelledRow(cid: CustomerId, aid: ArticleId, score: real, interested: Label)

  predicate SamePair(r: Rec, t: TruthRow)
  {
    r.cid == t.cid && r.aid == t.aid
  }

  /** The set of positive (customer, article) pairs the true-label table holds. */
  function Positives(truth: seq<TruthRow>): set<(CustomerId, ArticleId)>
  {
    set t | t in truth :: (t.cid, t.aid)
  }

  /** The true-label table lists each (customer, article) pair at most once. */
  ghost predicate UniquePairs(truth: seq<TruthRow>)
  {
    forall i, j :: 0 <= i < j < |truth| ==> truth[i] != truth[j]
  }

  /** Number of true-label rows that match a recommendation row on both keys. */
  function MatchCount(r: Rec, truth: seq<TruthRow>): nat
  {
    if |truth| == 0 then 0
    else MatchCount(r, truth[..|truth| - 1]) + (if SamePair(r, truth[|truth| - 1]) then 1 else 0)
  }

  /** The joined rows produced for one left row: one per matching right row, each with interest 1. */
  function Matches(r: Rec, truth: seq<TruthRow>): (js: seq<JoinedRow>)
    ensures |js| == MatchCount(r, truth)
    ensures forall j :: 0 <= j < |js| ==> js[j] == JoinedRow(r, Some(1.0))
  {
    if |truth| == 0 then []
    else (Matches(r, truth[..|truth| - 1])
      + (if SamePair(r, truth[|truth| - 1]) then [JoinedRow(r, Some(1.0))] else []))
  }

  /**
   `pd.merge(how="left", on=[cid, article_id])`: every left row in order,
   repeated once per matching right row, or kept once with a NaN label when
   no right row matches.
   */
  function LeftJoin(recs: seq<Rec>, truth: seq<TruthRow>): (js: seq<JoinedRow>)
    ensures |js| >= |recs|
    ensures |js| == 0 <==> |recs| == 0
    ensures forall i :: 0 <= i < |js| ==> js[i].interested.Some? ==> js[i].interested.value == 1.0
  {
    if |recs| == 0 then []
    else
      var m := Matches(recs[0], truth);
      (if |m| == 0 then [JoinedRow(recs[0], None)] else m) + LeftJoin(recs[1..], truth)
  }

  /** `fillna(value=0)` on the `interested` column. */
  function FillNa(js: seq<JoinedRow>): (rows: seq<LabelledRow>)
    ensures |rows| == |js|
    ensures forall i :: 0 <= i < |js| ==>
      rows[i].cid == js[i].rec.cid && rows[i].aid == js[i].rec.aid && rows[i].score == js[i].rec.score
    ensures forall i :: 0 <= i < |js| ==>
      rows[i].interested == (if js[i].interested.Some? then js[i].interested.value else 0.0)
  {
    if |js| == 0 then []
    else
      var j := js[0];
      [LabelledRow(j.rec.cid, j.rec.aid, j.rec.score, if j.interested.Some? then j.interested.value else 0.0)]
        + FillNa(js[1..])
  }

  /** The labelling step as the source performs it: left join, then fill the missing labels with 0. */
  function LabelRows(recs: seq<Rec>, truth: seq<TruthRow>): (rows: seq<LabelledRow>)
    ensures |rows| >= |recs|
    ensures |rows| == 0 <==> |recs| == 0
  {
    FillNa(LeftJoin(recs, truth))
  }

  /**
   Reference labelling against a set of positive pairs: one row per
   recommendation, label 1 exactly when its pair is positive.
   */
  function LabelBySet(recs: seq<Rec>, positives: set<(CustomerId, ArticleId)>): (rows: seq<LabelledRow>)
    ensures |rows| == |recs|
    ensures forall i :: 0 <= i < |recs| ==>
      rows[i].cid == recs[i].cid && rows[i].aid == recs[i].aid && rows[i].score == recs[i].score
    ensures forall i :: 0 <= i < |recs| ==>
      (rows[i].interested == 1.0 <==> (recs[i].cid, recs[i].aid) in positives)
  {
    seq(|recs|, i requires 0 <= i < |recs| =>
      LabelledRow(recs[i].cid, recs[i].aid, recs[i].score,
                  if (recs[i].cid, recs[i].aid) in positives then 1.0 else 0.0))
  }

  /** A pair is matched at least once exactly when it is among the positives. */
  lemma {:induction false} MatchCountPositive(r: Rec, truth: seq<TruthRow>)
    ensures MatchCount(r, truth) > 0 <==> (r.cid, r.aid) in Positives(truth)
  {
    if |truth| > 0 {
      var init := truth[..|truth| - 1];
      MatchCountPositive(r, init);
      assert truth == init + [truth[|truth| - 1]];
      assert Positives(truth) == Positives(init) + {(truth[|truth| - 1].cid, truth[|truth| - 1].aid)};
    }
  }

  /** With unique pairs in the true-label table, a row is matched at most once. */
  lemma {:induction false} MatchCountUnique(r: Rec, truth: seq<TruthRow>)
    requires UniquePairs(truth)
    ensures MatchCount(r, truth) <= 1
  {
    if |truth| > 0 {
      var init := truth[..|truth| - 1];
      var last := truth[|truth| - 1];
      assert UniquePairs(init);
      MatchCountUnique(r, init);
      if SamePair(r, last) && MatchCount(r, init) > 0 {
        MatchCountPositive(r, init);
        assert false;
      }
    }
  }

  /**
   The left join with fill neither drops nor adds rows when the true-label
   pairs are unique, and then it labels exactly as the set of positive pairs does.
   */
  lemma {:induction false} LeftJoinIsSetLabelling(recs: seq<Rec>, truth: seq<TruthRow>)
    requires UniquePairs(truth)
    ensures |LeftJoin(recs, truth)| == |recs|
    ensures LabelRows(recs, truth) == LabelBySet(recs, Positives(truth))
  {
    if |recs| > 0 {
      LeftJoinIsSetLabelling(recs[1..], truth);
      MatchCountUnique(recs[0], truth);
      MatchCountPositive(recs[0], truth);
      var m := Matches(recs[0], truth);
      var head := if |m| == 0 then [JoinedRow(recs[0], None)] else m;
      assert |head| == 1;
      assert LeftJoin(recs, truth) == head + LeftJoin(recs[1..], truth);
      var lhs := LabelRows(recs, truth);
      var rhs := LabelBySet(recs, Positives(truth));
      assert FillNa(head + LeftJoin(recs[1..], truth))[1..] == FillNa(LeftJoin(recs[1..], truth));
      forall i | 0 <= i < |recs|
        ensures lhs[i] == rhs[i]
      {
        if i > 0 {
          assert lhs[i] == LabelRows(recs[1..], truth)[i - 1];
          assert rhs[i] == LabelBySet(recs[1..], Positives(truth))[i - 1];
        }
      }
    }
  }

  /** Filling distributes over concatenation. */
  lemma FillNaConcat(a: seq<JoinedRow>, b: seq<JoinedRow>)
    ensures FillNa(a + b) == FillNa(a) + FillNa(b)
  {
    var l, r := FillNa(a + b), FillNa(a) + FillNa(b);
    assert |l| == |r|;
    forall i | 0 <= i < |l|
      ensures l[i] == r[i]
    {
      if i >= |a| {
        assert (a + b)[i] == b[i - |a|];
      }
    }
  }

  /** Every joined row comes from a recommendation row, and every recommendation row is there. */
  lemma {:induction false} LeftJoinRowsAreRecs(recs: seq<Rec>, truth: seq<TruthRow>)
    ensures forall j :: j in LeftJoin(recs, truth) ==> j.rec in recs
    ensures forall r :: r in recs ==> exists j :: j in LeftJoin(recs, truth) && j.rec == r
  {
    if |recs| > 0 {
      LeftJoinRowsAreRecs(recs[1..], truth);
      var m := Matches(recs[0], truth);
      var head := if |m| == 0 then [JoinedRow(recs[0], None)] else m;
      assert head[0] in LeftJoin(recs, truth);
      assert recs == [recs[0]] + recs[1..];
      forall r | r in recs
        ensures exists j :: j in LeftJoin(recs, truth) && j.rec == r
      {
        if r != recs[0] {
          var j :| j in LeftJoin(recs[1..], truth) && j.rec == r;
          assert j in LeftJoin(recs, truth);
        }
      }
    }
  }

  /**
   Whatever duplicates the true-label table holds, a labelled row is a hit
   exactly when its (customer, article) pair is a positive one.
   */
  lemma {:induction false} LabelMarksPositives(recs: seq<Rec>, truth: seq<TruthRow>)
    ensures forall x :: x in LabelRows(recs, truth) ==>
      (x.interested == 1.0 <==> (x.cid, x.aid) in Positives(truth))
  {
    if |recs| > 0 {
      LabelMarksPositives(recs[1..], truth);
      MatchCountPositive(recs[0], truth);
      var m := Matches(recs[0], truth);
      var head := if |m| == 0 then [JoinedRow(recs[0], None)] else m;
      FillNaConcat(head, LeftJoin(recs[1..], truth));
      assert LeftJoin(recs, truth) == head + LeftJoin(recs[1..], truth);
      forall x | x in FillNa(head)
        ensures x.interested == 1.0 <==> (x.cid, x.aid) in Positives(truth)
      {
        var k :| 0 <= k < |head| && FillNa(head)[k] == x;
      }
    }
  }

  /** A duplicated true-label pair makes the left join repeat the matching recommendation row. */
  lemma DuplicatePairRepeatsRow(r: Rec)
    ensures |LeftJoin([r], [TruthRow(r.cid, r.aid), TruthRow(r.cid, r.aid)])| == 2
  {
    var truth := [TruthRow(r.cid, r.aid), TruthRow(r.cid, r.aid)];
    assert truth[..1] == [TruthRow(r.cid, r.aid)];
    assert truth[..1][..0] == [];
    assert MatchCount(r, truth[..1]) == 1;
    assert MatchCount(r, truth) == 2;
    assert [r][1..] == [];
  }
}
