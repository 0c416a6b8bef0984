/**
 `groupby(cid)`: the customers present in the labelled rows and each
 customer's rows in their table order.
 */
module Grouping {
  import opened Labelling

  /** The customers that have at least one row. */
  function CustomerSet(rows: seq<LabelledRow>): set<CustomerId>
  {
    set r | r in rows :: r.cid
  }

  ghost predicate NoDuplicates(cs: seq<CustomerId>)
  {
    forall i, j :: 0 <= i < j < |cs| ==> cs[i] != cs[j]
  }

  /**
   The group keys, each customer once. pandas orders them by key; the model
   lists them by first appearance, which no mean over them can tell apart.
   */
  function Customers(rows: seq<LabelledRow>): (cs: seq<CustomerId>)
    ensures NoDuplicates(cs)
    ensures forall c :: c in cs <==> c in CustomerSet(rows)
  {
    if |rows| == 0 then []
    else
      var init := rows[..|rows| - 1];
      var last := rows[|rows| - 1];
      assert rows == init + [last];
      assert CustomerSet(rows) == CustomerSet(init) + {last.cid};
      var cs := Customers(init);
      if last.cid in cs then cs else cs + [last.cid]
  }

  /** The rows of one customer, in table order. */
  function RowsOf(rows: seq<LabelledRow>, c: CustomerId): (g: seq<LabelledRow>)
    ensures forall x :: x in g <==> x in rows && x.cid == c
    ensures forall x :: multiset(g)[x] == if x.cid == c then multiset(rows)[x] else 0
    ensures |g| > 0 <==> c in CustomerSet(rows)
    ensures |g| <= |rows|
  {
    GroupContents(rows, c);
    Group(rows, c)
  }

  /** The filtering behind `RowsOf`: keep the rows of customer c, front to back. */
  function Group(rows: seq<LabelledRow>, c: CustomerId): seq<LabelledRow>
  {
    if |rows| == 0 then []
    else
      var g := Group(rows[..|rows| - 1], c);
      if rows[|rows| - 1].cid == c then g + [rows[|rows| - 1]] else g
  }

  /** A group holds exactly the customer's rows, each as often as the table does. */
  lemma {:induction false} GroupContents(rows: seq<LabelledRow>, c: CustomerId)
    ensures forall x :: x in Group(rows, c) <==> x in rows && x.cid == c
    ensures forall x :: multiset(Group(rows, c))[x] == if x.cid == c then multiset(rows)[x] else 0
    ensures |Group(rows, c)| > 0 <==> c in CustomerSet(rows)
    ensures |Group(rows, c)| <= |rows|
  {
    if |rows| > 0 {
      var init := rows[..|rows| - 1];
      assert rows == init + [rows[|rows| - 1]];
      GroupContents(init, c);
    }
  }

  /** Appending a row extends its customer's group by that row and leaves every other group alone. */
  lemma GroupSnoc(init: seq<LabelledRow>, last: LabelledRow, c: CustomerId)
    ensures Group(init + [last], c) == Group(init, c) + if last.cid == c then [last] else []
  {
    var rows := init + [last];
    assert rows[..|rows| - 1] == init;
  }

  /**
   Grouping keeps table order: the group of a concatenation is the group of
   the first part followed by the group of the second.
   */
  lemma RowsOfConcat(a: seq<LabelledRow>, b: seq<LabelledRow>, c: CustomerId)
    ensures RowsOf(a + b, c) == RowsOf(a, c) + RowsOf(b, c)
  {
    GroupConcat(a, b, c);
  }

  /** `Group` distributes over concatenation; `RowsOfConcat` lifts this to `RowsOf`. */
  lemma {:induction false} GroupConcat(a: seq<LabelledRow>, b: seq<LabelledRow>, c: CustomerId)
    ensures Group(a + b, c) == Group(a, c) + Group(b, c)
    decreases |b|
  {
    if |b| == 0 {
      assert a + b == a;
    } else {
      var init := b[..|b| - 1];
      var last := b[|b| - 1];
      assert b == init + [last];
      assert a + b == (a + init) + [last];
      GroupSnoc(a + init, last, c);
      GroupSnoc(init, last, c);
      GroupConcat(a, init, c);
    }
  }

  /** A single row forms a group of itself exactly when it belongs to the customer. */
  lemma RowsOfSingleton(x: LabelledRow, c: CustomerId)
    ensures RowsOf([x], c) == if x.cid == c then [x] else []
  {
    GroupSnoc([], x, c);
    assert [] + [x] == [x];
  }

  /** A table has at least one group exactly when it has at least one row. */
  lemma NonEmptyHasCustomers(rows: seq<LabelledRow>)
    ensures |Customers(rows)| > 0 <==> |rows| > 0
  {
    if |rows| > 0 {
      assert rows[0].cid in CustomerSet(rows);
    }
  }

  /** A sequence without repetitions has as many elements as its set of members. */
  lemma {:induction false} DistinctCardinality(cs: seq<CustomerId>)
    requires NoDuplicates(cs)
    ensures |set c | c in cs| == |cs|
  {
    if |cs| > 0 {
      var init := cs[..|cs| - 1];
      assert NoDuplicates(init);
      DistinctCardinality(init);
      assert cs == init + [cs[|cs| - 1]];
      assert (set c | c in cs) == (set c | c in init) + {cs[|cs| - 1]};
      assert cs[|cs| - 1] !in init;
    }
  }

  /** There is one group per distinct customer. */
  lemma GroupCount(rows: seq<LabelledRow>)
    ensures |Customers(rows)| == |CustomerSet(rows)|
  {
    var cs := Customers(rows);
    DistinctCardinality(cs);
    assert (set c | c in cs) == CustomerSet(rows);
  }
}
