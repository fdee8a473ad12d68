/** Assembling the search results into a table ranked by error and picking
    the configuration with the smallest error. */
module Ranking {
  import opened Wrappers
  import opened Grid

  /** One row of the results table: a configuration and its error. */
  datatype Row = Row(config: Config, error: real)

  /** The ranked table and the optimum stored after a complete search. */
  datatype Selection = Selection(optimum: Config, ranked: seq<Row>)

  /** The results table in grid order: one row per configuration, its error
      in the metric column. */
  function ResultRows(allParams: seq<Config>, errors: seq<real>): (rows: seq<Row>)
    requires |errors| == |allParams|
  {
    seq(|errors|, i requires 0 <= i < |errors| => Row(allParams[i], errors[i]))
  }

  /** True if the rows are in ascending order of error. */
  predicate SortedByError(rows: seq<Row>) {
    forall i, j :: 0 <= i < j < |rows| ==> rows[i].error <= rows[j].error
  }

  /** A row no larger than every row of an ascending table can head it. */
  lemma SortedCons(x: Row, rows: seq<Row>)
    requires SortedByError(rows)
    requires forall y :: y in rows ==> x.error <= y.error
    ensures SortedByError([x] + rows)
  {
    var r := [x] + rows;
    forall i, j | 0 <= i < j < |r| ensures r[i].error <= r[j].error {
      if i > 0 {
        assert r[i] == rows[i - 1] && r[j] == rows[j - 1];
      } else {
        assert r[j] in rows;
      }
    }
  }

  /** Rows made of the tail of an ascending table and one row larger than
      its head are all no smaller than the head. */
  lemma InsertAfterHead(row: Row, rows: seq<Row>, rest: seq<Row>)
    requires SortedByError(rows) && rows != [] && row.error > rows[0].error
    requires multiset(rest) == multiset(rows[1..]) + multiset{row}
    ensures forall y :: y in rest ==> rows[0].error <= y.error
  {
    forall y | y in rest ensures rows[0].error <= y.error {
      assert y in multiset(rest);
      if y != row {
        assert y in multiset(rows[1..]);
        var i :| 0 <= i < |rows[1..]| && rows[1..][i] == y;
        assert rows[i + 1] == y;
      }
    }
  }

  /** Places `row` into the ascending `rows`. */
  function Insert(row: Row, rows: seq<Row>): (r: seq<Row>)
    requires SortedByError(rows)
    ensures SortedByError(r)
    ensures multiset(r) == multiset(rows) + multiset{row}
  {
    if rows == [] then [row]
    else if row.error <= rows[0].error then [row] + rows
    else
      var rest := Insert(row, rows[1..]);
      assert rows == [rows[0]] + rows[1..];
      InsertAfterHead(row, rows, rest);
      SortedCons(rows[0], rest);
      [rows[0]] + rest
  }

  /** The rows reordered by ascending error. Ties may come out in any
      order: only "ascending" and "same rows" are promised. */
  function SortByError(rows: seq<Row>): (r: seq<Row>)
    ensures SortedByError(r)
    ensures multiset(r) == multiset(rows)
  {
    if rows == [] then []
    else
      assert rows == [rows[0]] + rows[1..];
      Insert(rows[0], SortByError(rows[1..]))
  }

  /** The smallest error. */
  function Min(xs: seq<real>): (m: real)
    requires |xs| > 0
    ensures m in xs
    ensures forall i :: 0 <= i < |xs| ==> m <= xs[i]
  {
    if |xs| == 1 then xs[0]
    else
      var rest := Min(xs[1..]);
      if xs[0] <= rest then xs[0] else rest
  }

  /** The first position at which `x` occurs. */
  function IndexOf(xs: seq<real>, x: real): (k: nat)
    requires x in xs
    ensures k < |xs| && xs[k] == x
    ensures forall j :: 0 <= j < k ==> xs[j] != x
  {
    if xs[0] == x then 0 else 1 + IndexOf(xs[1..], x)
  }

  /** The first position of the smallest error (`errors.index(min(errors))`):
      nothing is smaller, and everything before it is strictly larger. */
  function FirstMinIndex(errors: seq<real>): (k: nat)
    requires |errors| > 0
    ensures k < |errors|
    ensures forall j :: 0 <= j < |errors| ==> errors[k] <= errors[j]
    ensures forall j :: 0 <= j < k ==> errors[j] > errors[k]
  {
    IndexOf(errors, Min(errors))
  }

  /** The two properties of `FirstMinIndex` single out one position. */
  lemma FirstMinIndexUnique(errors: seq<real>, k: nat)
    requires k < |errors|
    requires forall j :: 0 <= j < |errors| ==> errors[k] <= errors[j]
    requires forall j :: 0 <= j < k ==> errors[j] > errors[k]
    ensures k == FirstMinIndex(errors)
  {
  }

  /** The results step after the loop. Building the table fails unless
      there is one error per configuration; otherwise the table is ranked
      by ascending error and the optimum is the configuration at the first
      position of the smallest error. */
  function Select(allParams: seq<Config>, errors: seq<real>): (r: Option<Selection>)
    requires |allParams| > 0
    ensures r.Some? <==> |errors| == |allParams|
    ensures r.Some? ==> r.value.optimum == allParams[FirstMinIndex(errors)]
    ensures r.Some? ==> SortedByError(r.value.ranked)
    ensures r.Some? ==> multiset(r.value.ranked) == multiset(ResultRows(allParams, errors))
  {
    if |errors| != |allParams| then None
    else Some(Selection(allParams[FirstMinIndex(errors)], SortByError(ResultRows(allParams, errors))))
  }

  /** The first row of the ranked table carries the optimum's error (with
      ties, possibly another configuration of equal error). */
  lemma RankedHeadHasMinimalError(allParams: seq<Config>, errors: seq<real>)
    requires |allParams| > 0 && |errors| == |allParams|
    ensures Select(allParams, errors).Some?
    ensures Select(allParams, errors).value.ranked[0].error == errors[FirstMinIndex(errors)]
  {
    var rows := ResultRows(allParams, errors);
    var ranked := Select(allParams, errors).value.ranked;
    var k := FirstMinIndex(errors);
    assert rows[k] in multiset(rows);
    assert rows[k] in multiset(ranked);
    assert |ranked| > 0;
    assert ranked[0] in multiset(ranked);
    assert ranked[0] in rows;
    var i :| 0 <= i < |rows| && rows[i] == ranked[0];
    assert ranked[0].error == errors[i];
    var p :| 0 <= p < |ranked| && ranked[p] == rows[k];
    assert ranked[0].error <= ranked[p].error;
  }
}
