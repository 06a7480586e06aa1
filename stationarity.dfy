/** The stationarity stage: a series is differenced again and again until an
    augmented Dickey-Fuller test accepts it.  The test itself is external; the
    model receives its p-value as a function `adf` of the series. */
module Stationarity {
  import opened Frames

  /** `diff().fillna(0)` on a series without missing values: the length is
      kept, the first element becomes 0 and element i is x[i] - x[i-1]. */
  function Diff(x: seq<real>): (r: seq<real>)
    ensures |r| == |x|
  {
    seq(|x|, i requires 0 <= i < |x| => if i == 0 then 0.0 else x[i] - x[i - 1])
  }

  /** The series after `k` differencing steps. */
  function DiffN(x: seq<real>, k: nat): (r: seq<real>)
    ensures |r| == |x|
  {
    if k == 0 then x else Diff(DiffN(x, k - 1))
  }

  function Sum(s: seq<real>): real
  {
    if s == [] then 0.0 else Sum(s[..|s| - 1]) + s[|s| - 1]
  }

  /** Re-integration of a differenced series from its first level. */
  function Undiff(first: real, r: seq<real>): (x: seq<real>)
    ensures |x| == |r|
  {
    seq(|r|, i requires 0 <= i < |r| => first + Sum(r[..i + 1]))
  }

  /** The first i+1 differences add up to the change from x[0] to x[i]. */
  lemma {:induction false} DiffPartialSums(x: seq<real>, i: nat)
    requires i < |x|
    ensures x[0] + Sum(Diff(x)[..i + 1]) == x[i]
  {
    var d := Diff(x);
    if i == 0 {
      assert d[..1][..0] == [];
    } else {
      DiffPartialSums(x, i - 1);
      assert d[..i + 1][..i] == d[..i];
    }
  }

  /** A first difference loses only the initial level: integrating it from
      x[0] gives the series back. */
  lemma DiffRoundTrip(x: seq<real>)
    requires |x| > 0
    ensures Undiff(x[0], Diff(x)) == x
  {
    forall i | 0 <= i < |x| ensures Undiff(x[0], Diff(x))[i] == x[i] {
      DiffPartialSums(x, i);
    }
  }

  /** `fillna(value=0)`: what the test sees of a column with gaps. */
  function ZeroFilled(c: seq<Cell>): (x: seq<real>)
    ensures |x| == |c|
    ensures forall i :: 0 <= i < |c| ==> x[i] == (if c[i].Some? then c[i].value else 0.0)
  {
    seq(|c|, i requires 0 <= i < |c| => if c[i].Some? then c[i].value else 0.0)
  }

  /** `col.diff().fillna(0)` on a column that may have gaps: a difference
      with a missing operand is missing, and is then filled with 0. */
  function DiffCol(c: seq<Cell>): (r: seq<Cell>)
    ensures |r| == |c|
    ensures forall i :: 0 <= i < |c| ==> r[i].Some?
    ensures forall i :: 0 < i < |c| && (c[i].None? || c[i - 1].None?) ==> r[i] == Some(0.0)
  {
    seq(|c|, i requires 0 <= i < |c| =>
      if i > 0 && c[i].Some? && c[i - 1].Some? then Some(c[i].value - c[i - 1].value) else Some(0.0))
  }

  /** Where both operands are present the column difference is the
      difference of the values; the first cell has no predecessor and is 0. */
  lemma DiffColValues(c: seq<Cell>)
    ensures var r := DiffCol(c);
            (|c| > 0 ==> r[0] == Some(0.0)) &&
            forall i :: 0 < i < |c| && c[i].Some? && c[i - 1].Some? ==> r[i] == Some(c[i].value - c[i - 1].value)
  {
  }

  /** On a column without gaps the two differencing forms agree. */
  lemma DiffColAgrees(x: seq<real>)
    ensures DiffCol(Lift(x)) == Lift(Diff(x))
  {
  }

  /** Testing the zero-filled column is not testing the column that gets
      differenced: with a gap, the raw difference is 0 where the difference of
      the zero-filled series is not. */
  lemma GapDiffersFromZeroFill()
    ensures var c := [Some(5.0), None, Some(7.0)];
            DiffCol(c) == Lift([0.0, 0.0, 0.0]) && Diff(ZeroFilled(c)) == [0.0, -5.0, 7.0]
  {
    var c := [Some(5.0), None, Some(7.0)];
    assert ZeroFilled(c) == [5.0, 0.0, 7.0];
  }

  /** The column after `k` differencing steps. */
  function DiffColN(c: seq<Cell>, k: nat): (r: seq<Cell>)
    ensures |r| == |c|
  {
    if k == 0 then c else DiffCol(DiffColN(c, k - 1))
  }

  /** `dropna()` on one column: its present values, in order. */
  function DropMissing(c: seq<Cell>): (x: seq<real>)
    ensures |x| <= |c|
    ensures forall v :: v in x <==> Some(v) in c
  {
    if c == [] then []
    else
      assert c == [c[0]] + c[1..];
      (if c[0].Some? then [c[0].value] else []) + DropMissing(c[1..])
  }

  /** A column without gaps loses nothing to `dropna()`. */
  lemma {:induction false} DropMissingComplete(x: seq<real>)
    ensures DropMissing(Lift(x)) == x
  {
    if x != [] {
      assert Lift(x)[1..] == Lift(x[1..]);
      DropMissingComplete(x[1..]);
      assert x == [x[0]] + x[1..];
    }
  }

  /** `dropna()` keeps order and multiplicity: it works cell by cell, a
      present cell giving its value and a missing one nothing. */
  lemma {:induction false} DropMissingAppend(a: seq<Cell>, b: seq<Cell>)
    ensures DropMissing(a + b) == DropMissing(a) + DropMissing(b)
  {
    if a == [] {
      assert a + b == b;
    } else {
      var h := if a[0].Some? then [a[0].value] else [];
      assert (a + b)[0] == a[0] && (a + b)[1..] == a[1..] + b;
      assert DropMissing(a + b) == h + DropMissing(a[1..] + b);
      assert DropMissing(a) == h + DropMissing(a[1..]);
      DropMissingAppend(a[1..], b);
    }
  }

  /** One cell: its value if present, nothing if missing. */
  lemma DropMissingOne(x: Cell)
    ensures DropMissing([x]) == if x.Some? then [x.value] else []
  {
    assert [x][1..] == [];
  }

  /** Some number of differences makes the test accept the series: without
      this the source's loop never ends. */
  ghost predicate EventuallyStationary(adf: seq<real> -> real, x: seq<real>, p: real)
  {
    exists k: nat :: adf(DiffN(x, k)) <= p
  }

  /** The same for a column, as the per-column loop tests it. */
  ghost predicate ColumnEventuallyStationary(adf: seq<real> -> real, c: seq<Cell>, p: real)
  {
    exists k: nat :: adf(ZeroFilled(DiffColN(c, k))) <= p
  }

  /** `Stationarity_diff`: holds the dependent series (column 0 with its
      missing rows dropped) and the whole table, kept by column as pandas
      keeps it; each loop differences its own copy. */
  class StationarityDiff {
    var dataEndog: seq<real>
    const index: seq<Date>
    const names: seq<string>
    var columns: seq<seq<Cell>>
    const pValueAccepted: real

    ghost predicate Valid()
      reads this
    {
      Increasing(index) && |columns| == |names| &&
      forall c :: 0 <= c < |columns| ==> |columns[c]| == |index|
    }

    /** `data_all` as a table: what `independent_var_stationarity` writes out. */
    function DataAll(): (t: Table)
      reads this
      requires Valid()
      ensures Frames.Valid(t) && t.names == names && Dates(t.rows) == index
      ensures forall c :: 0 <= c < |names| ==> Column(t, c) == columns[c]
    {
      FromColumns(index, names, columns)
    }

    constructor (data: Table, pValueAccepted: real)
      requires Frames.Valid(data)
      ensures Valid() && DataAll() == data && this.pValueAccepted == pValueAccepted
      ensures |data.names| > 0 ==> dataEndog == DropMissing(Column(data, 0))
      ensures |data.names| == 0 ==> dataEndog == []
    {
      dataEndog := if |data.names| > 0 then DropMissing(Column(data, 0)) else [];
      index := Dates(data.rows);
      names := data.names;
      columns := seq(|data.names|, c requires 0 <= c < |data.names| => Column(data, c));
      this.pValueAccepted := pValueAccepted;
      new;
      FromItsColumns(data);
    }

    /** `diff_data`: difference the dependent series while the p-value is
        strictly above the threshold; the count is what the source reports.
        The table is not touched. */
    method DiffData(adf: seq<real> -> real) returns (countDiff: nat)
      requires EventuallyStationary(adf, dataEndog, pValueAccepted)
      modifies this`dataEndog
      ensures dataEndog == DiffN(old(dataEndog), countDiff)
      ensures adf(dataEndog) <= pValueAccepted
      ensures forall j :: 0 <= j < countDiff ==> adf(DiffN(old(dataEndog), j)) > pValueAccepted
    {
      ghost var x0 := dataEndog;
      ghost var bound: nat :| adf(DiffN(x0, bound)) <= pValueAccepted;
      countDiff := 0;
      while true
        invariant countDiff <= bound
        invariant dataEndog == DiffN(x0, countDiff)
        invariant forall j :: 0 <= j < countDiff ==> adf(DiffN(x0, j)) > pValueAccepted
        decreases bound - countDiff
      {
        var pValue := adf(dataEndog);
        if pValue > pValueAccepted {
          assert DiffN(x0, countDiff + 1) == Diff(DiffN(x0, countDiff));
          dataEndog := Diff(dataEndog);
          countDiff := countDiff + 1;
        } else {
          break;
        }
      }
    }

    /** The inner loop of `independent_var_stationarity` for column i:
        difference it while its zero-filled form fails the test; no other
        column changes.  The ghost result is the number of differences. */
    method DiffColumn(adf: seq<real> -> real, i: nat) returns (ghost k: nat)
      requires Valid() && i < |columns|
      requires ColumnEventuallyStationary(adf, columns[i], pValueAccepted)
      modifies this`columns
      ensures Valid() && |columns| == |old(columns)|
      ensures columns == old(columns)[i := DiffColN(old(columns)[i], k)]
      ensures adf(ZeroFilled(columns[i])) <= pValueAccepted
      ensures forall j :: 0 <= j < k ==> adf(ZeroFilled(DiffColN(old(columns)[i], j))) > pValueAccepted
    {
      ghost var col0 := columns[i];
      ghost var bound: nat :| adf(ZeroFilled(DiffColN(col0, bound))) <= pValueAccepted;
      k := 0;
      while true
        invariant k <= bound
        invariant columns == old(columns)[i := DiffColN(col0, k)]
        invariant forall j :: 0 <= j < k ==> adf(ZeroFilled(DiffColN(col0, j))) > pValueAccepted
        decreases bound - k
      {
        var pValue := adf(ZeroFilled(columns[i]));
        if pValue > pValueAccepted {
          var statCol := DiffCol(columns[i]);
          columns := columns[i := statCol];
          k := k + 1;
        } else {
          break;
        }
      }
    }

    /** `independent_var_stationarity`: every column, the dependent one
        included, is differenced on its own until its zero-filled form passes
        the test.  The source records no order; the ghost result names each
        column's order for the contract. */
    method IndependentVarStationarity(adf: seq<real> -> real) returns (ghost orders: seq<nat>)
      requires Valid()
      requires forall c :: 0 <= c < |columns| ==> ColumnEventuallyStationary(adf, columns[c], pValueAccepted)
      modifies this`columns
      ensures Valid() && |orders| == |columns|
      ensures forall c :: 0 <= c < |orders| ==> columns[c] == DiffColN(old(columns)[c], orders[c])
      ensures forall c :: 0 <= c < |orders| ==> adf(ZeroFilled(columns[c])) <= pValueAccepted
      ensures forall c, j :: 0 <= c < |orders| && 0 <= j < orders[c] ==>
                adf(ZeroFilled(DiffColN(old(columns)[c], j))) > pValueAccepted
    {
      ghost var cols0 := columns;
      orders := [];
      var i := 0;
      while i < |names|
        invariant 0 <= i <= |names| && |orders| == i
        invariant Valid() && |columns| == |cols0|
        invariant forall c :: 0 <= c < i ==> columns[c] == DiffColN(cols0[c], orders[c])
        invariant forall c :: 0 <= c < i ==> adf(ZeroFilled(columns[c])) <= pValueAccepted
        invariant forall c, j :: 0 <= c < i && 0 <= j < orders[c] ==>
                    adf(ZeroFilled(DiffColN(cols0[c], j))) > pValueAccepted
        invariant forall c :: i <= c < |names| ==> columns[c] == cols0[c]
      {
        var k := DiffColumn(adf, i);
        orders := orders + [k];
        i := i + 1;
      }
    }
  }
}
