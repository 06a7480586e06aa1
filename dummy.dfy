/** Event indicators: a date-indexed frame to which each call adds a column
    that is 1 over an inclusive date range and 0 elsewhere. */
module Dummy {
  import opened Frames

  function Ones(n: nat): (cs: seq<Cell>)
    ensures |cs| == n && forall c :: 0 <= c < n ==> cs[c] == Some(1.0)
  {
    seq(n, _ => Some(1.0))
  }

  /** Every cell is 0 or 1. */
  predicate ZeroOne(t: Table)
  {
    forall i, c :: 0 <= i < |t.rows| && 0 <= c < |t.rows[i].cells| ==>
      t.rows[i].cells[c] == Some(0.0) || t.rows[i].cells[c] == Some(1.0)
  }

  function Zeros(n: nat): (cs: seq<Cell>)
    ensures |cs| == n && forall c :: 0 <= c < n ==> cs[c] == Some(0.0)
  {
    seq(n, _ => Some(0.0))
  }

  /** `frame[(index >= start) & (index <= end)] = 1`: the mask selects rows,
      and every column of a selected row becomes 1. */
  function OnesInRange(t: Table, start: Date, end: Date): (r: Table)
    requires Valid(t)
    ensures Valid(r) && r.names == t.names && Dates(r.rows) == Dates(t.rows)
    ensures forall i :: 0 <= i < |r.rows| ==>
              r.rows[i].cells == if start <= r.rows[i].date <= end then Ones(|t.names|) else t.rows[i].cells
  {
    Table(t.names, seq(|t.rows|, i requires 0 <= i < |t.rows| =>
      Row(t.rows[i].date, if start <= t.rows[i].date <= end then Ones(|t.names|) else t.rows[i].cells)))
  }

  /** One call of `dummy_generator_range` on a frame: the named column is 1
      exactly on the rows dated within [start, end], both ends included, and
      0 on the others; the rows in range also get 1 in every other column,
      and outside the range the other columns keep their values. */
  function WithRangeColumn(t: Table, name: string, start: Date, end: Date): (r: Table)
    requires Valid(t)
    ensures Valid(r) && Dates(r.rows) == Dates(t.rows)
    ensures r.names == if name in t.names then t.names else t.names + [name]
    ensures ColumnPos(t.names, name) < |r.names|
    ensures forall i :: 0 <= i < |r.rows| ==>
              (r.rows[i].cells[ColumnPos(t.names, name)] == Some(1.0) <==> start <= r.rows[i].date <= end)
    ensures forall i :: 0 <= i < |r.rows| && !(start <= r.rows[i].date <= end) ==>
              r.rows[i].cells[ColumnPos(t.names, name)] == Some(0.0)
    ensures forall i, c :: 0 <= i < |r.rows| && start <= r.rows[i].date <= end && 0 <= c < |r.names| ==>
              r.rows[i].cells[c] == Some(1.0)
    ensures forall i, c :: 0 <= i < |r.rows| && !(start <= r.rows[i].date <= end) &&
                           0 <= c < |t.names| && c != ColumnPos(t.names, name) ==>
              r.rows[i].cells[c] == t.rows[i].cells[c]
    ensures ZeroOne(t) ==> ZeroOne(r)
  {
    OnesInRange(AssignColumn(t, name, Zeros(|t.rows|)), start, end)
  }

  /** An empty range (start after end) leaves the new column all 0 and the
      rest of the frame as it was. */
  lemma EmptyRangeAllZero(t: Table, name: string, start: Date, end: Date)
    requires Valid(t) && start > end
    ensures var r := WithRangeColumn(t, name, start, end);
            forall i :: 0 <= i < |r.rows| ==> r.rows[i].cells[ColumnPos(t.names, name)] == Some(0.0)
  {
  }

  /** Reusing a generator is not harmless: the second range writes 1 into
      the first indicator too. */
  lemma ReuseOverwritesEarlierColumn()
    ensures var t0 := Table([], [Row(1, []), Row(2, []), Row(3, [])]);
            var t2 := WithRangeColumn(WithRangeColumn(t0, "a", 1, 1), "b", 3, 3);
            t2.names == ["a", "b"] && t2.rows[2].cells == [Some(1.0), Some(1.0)]
  {
    var t0 := Table([], [Row(1, []), Row(2, []), Row(3, [])]);
    var t1 := WithRangeColumn(t0, "a", 1, 1);
    assert ColumnPos(t1.names, "b") == 1;
  }

  /** `Dummy_generator`: a frame with one row per date of
      `date_range(start, end, freq)` (given as `dateRange`) and no column. */
  class DummyGenerator {
    const freq: string
    const index: seq<Date>
    var dataDummy: Table

    ghost predicate Valid()
      reads this
    {
      Frames.Valid(dataDummy) && Dates(dataDummy.rows) == index
    }

    constructor (start: Date, end: Date, freq: string, dateRange: seq<Date>)
      requires IsDateRange(dateRange, start, end)
      ensures Valid() && this.freq == freq && index == dateRange
      ensures dataDummy.names == [] && |dataDummy.rows| == |dateRange|
    {
      this.freq := freq;
      index := dateRange;
      dataDummy := Table([], seq(|dateRange|, i requires 0 <= i < |dateRange| => Row(dateRange[i], [])));
    }

    /** `dummy_generator_range`: adds the indicator column and hands back the
        generator's own frame. */
    method DummyGeneratorRange(variableName: string, startDummy: Date, endDummy: Date) returns (frame: Table)
      requires Valid()
      modifies this`dataDummy
      ensures Valid()
      ensures dataDummy == WithRangeColumn(old(dataDummy), variableName, startDummy, endDummy)
      ensures frame == dataDummy
    {
      dataDummy := AssignColumn(dataDummy, variableName, Zeros(|dataDummy.rows|));
      dataDummy := OnesInRange(dataDummy, startDummy, endDummy);
      frame := dataDummy;
    }
  }
}
