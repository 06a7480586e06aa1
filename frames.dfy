/** Date-indexed tables: the shape that every stage of the forecasting
    pipeline reads and writes.  A table is row-major; each row carries its
    date (a day ordinal) and one cell per named column.  A missing value
    (pandas' NaN) is a `None` cell. */
module Frames {

  /** Dates are day ordinals. */
  type Date = int

  datatype Option<+T> = None | Some(value: T)

  /** One numeric cell; `None` is a missing value. */
  type Cell = Option<real>

  datatype Row = Row(date: Date, cells: seq<Cell>)

  datatype Table = Table(names: seq<string>, rows: seq<Row>)

  predicate Increasing(ds: seq<Date>)
  {
    forall i, j :: 0 <= i < j < |ds| ==> ds[i] < ds[j]
  }

  /** What `date_range(start, end, freq)` yields, whatever the calendar:
      strictly increasing dates that all lie in [start, end]. */
  predicate IsDateRange(ds: seq<Date>, start: Date, end: Date)
  {
    Increasing(ds) && forall i :: 0 <= i < |ds| ==> start <= ds[i] <= end
  }

  function Dates(rows: seq<Row>): (ds: seq<Date>)
    ensures |ds| == |rows|
    ensures forall i :: 0 <= i < |rows| ==> ds[i] == rows[i].date
  {
    seq(|rows|, i requires 0 <= i < |rows| => rows[i].date)
  }

  predicate SortedRows(rows: seq<Row>)
  {
    forall i, j :: 0 <= i < j < |rows| ==> rows[i].date < rows[j].date
  }

  /** The index is unique and ascending, and every row has one cell per column. */
  predicate Valid(t: Table)
  {
    SortedRows(t.rows) && forall i :: 0 <= i < |t.rows| ==> |t.rows[i].cells| == |t.names|
  }

  /** No cell of the row is missing. */
  predicate Complete(r: Row)
  {
    forall c :: 0 <= c < |r.cells| ==> r.cells[c].Some?
  }

  function Blank(n: nat): (cs: seq<Cell>)
    ensures |cs| == n && forall c :: 0 <= c < n ==> cs[c] == None
  {
    seq(n, _ => None)
  }

  /** A column seen as a series of cells. */
  function Lift(x: seq<real>): (c: seq<Cell>)
    ensures |c| == |x| && forall i :: 0 <= i < |x| ==> c[i] == Some(x[i])
  {
    seq(|x|, i requires 0 <= i < |x| => Some(x[i]))
  }

  /** `t[name]` for the column at position `c`. */
  function Column(t: Table, c: nat): (col: seq<Cell>)
    requires Valid(t) && c < |t.names|
    ensures |col| == |t.rows|
    ensures forall i :: 0 <= i < |t.rows| ==> col[i] == t.rows[i].cells[c]
  {
    seq(|t.rows|, i requires 0 <= i < |t.rows| => t.rows[i].cells[c])
  }

  /** Reassembles a frame kept by column into a table. */
  function FromColumns(index: seq<Date>, names: seq<string>, columns: seq<seq<Cell>>): (t: Table)
    requires Increasing(index) && |columns| == |names|
    requires forall c :: 0 <= c < |columns| ==> |columns[c]| == |index|
    ensures Valid(t) && t.names == names && Dates(t.rows) == index
    ensures forall c :: 0 <= c < |names| ==> Column(t, c) == columns[c]
  {
    var t := Table(names, seq(|index|, i requires 0 <= i < |index| =>
                     Row(index[i], seq(|names|, c requires 0 <= c < |names| => columns[c][i]))));
    assert forall c :: 0 <= c < |names| ==> Column(t, c) == columns[c] by {
      forall c | 0 <= c < |names| ensures Column(t, c) == columns[c] { }
    }
    t
  }

  /** A table is the reassembly of its own columns. */
  lemma FromItsColumns(t: Table)
    requires Valid(t)
    ensures FromColumns(Dates(t.rows), t.names, seq(|t.names|, c requires 0 <= c < |t.names| => Column(t, c))) == t
  {
    var cols := seq(|t.names|, c requires 0 <= c < |t.names| => Column(t, c));
    var u := FromColumns(Dates(t.rows), t.names, cols);
    forall i | 0 <= i < |t.rows| ensures u.rows[i] == t.rows[i] {
      assert u.rows[i].cells == t.rows[i].cells;
    }
  }

  /** Position of the column called `name`, or the width when there is none
      (where a new column is appended). */
  function ColumnPos(names: seq<string>, name: string): (p: nat)
    ensures p <= |names|
    ensures p < |names| <==> name in names
    ensures p < |names| ==> names[p] == name
  {
    if names == [] then 0
    else if names[0] == name then 0
    else 1 + ColumnPos(names[1..], name)
  }

  /** `t[name] = col`: the column of that name is replaced, or `col` is
      appended as a new last column; no other cell changes. */
  function AssignColumn(t: Table, name: string, col: seq<Cell>): (r: Table)
    requires Valid(t) && |col| == |t.rows|
    ensures Valid(r) && Dates(r.rows) == Dates(t.rows)
    ensures r.names == if name in t.names then t.names else t.names + [name]
    ensures ColumnPos(t.names, name) < |r.names|
    ensures Column(r, ColumnPos(t.names, name)) == col
    ensures forall i, c :: 0 <= i < |r.rows| && 0 <= c < |t.names| && c != ColumnPos(t.names, name) ==>
              r.rows[i].cells[c] == t.rows[i].cells[c]
  {
    var p := ColumnPos(t.names, name);
    Table(if p < |t.names| then t.names else t.names + [name],
          seq(|t.rows|, i requires 0 <= i < |t.rows| =>
            Row(t.rows[i].date, if p < |t.names| then t.rows[i].cells[p := col[i]]
                                else t.rows[i].cells + [col[i]])))
  }

  lemma PrependSorted(x: Row, rest: seq<Row>)
    requires SortedRows(rest)
    requires forall y :: y in rest ==> x.date < y.date
    ensures SortedRows([x] + rest)
  {
    forall i, j | 0 <= i < j < |[x] + rest|
      ensures ([x] + rest)[i].date < ([x] + rest)[j].date
    {
      assert ([x] + rest)[j] == rest[j - 1];
      if i > 0 { assert ([x] + rest)[i] == rest[i - 1]; }
      else { assert rest[j - 1] in rest; }
    }
  }

  /** Boolean-mask row selection `t[mask]`: keeps, in order, the rows that
      satisfy `keep`. */
  function Filter(rows: seq<Row>, keep: Row -> bool): (r: seq<Row>)
    ensures forall x :: x in r <==> x in rows && keep(x)
    ensures |r| <= |rows|
  {
    if rows == [] then []
    else if keep(rows[0]) then [rows[0]] + Filter(rows[1..], keep)
    else Filter(rows[1..], keep)
  }

  /** Selecting rows keeps the index ascending. */
  lemma {:induction false} FilterSorted(rows: seq<Row>, keep: Row -> bool)
    requires SortedRows(rows)
    ensures SortedRows(Filter(rows, keep))
  {
    if rows != [] {
      var rest := Filter(rows[1..], keep);
      FilterSorted(rows[1..], keep);
      forall y | y in rest ensures rows[0].date < y.date {
        var j :| 0 <= j < |rows[1..]| && rows[1..][j] == y;
        assert y == rows[j + 1];
      }
      if keep(rows[0]) { PrependSorted(rows[0], rest); }
    }
  }

  /** A mask that holds on every row selects the whole table. */
  lemma {:induction false} FilterKeepsAll(rows: seq<Row>, keep: Row -> bool)
    requires forall i :: 0 <= i < |rows| ==> keep(rows[i])
    ensures Filter(rows, keep) == rows
  {
    if rows != [] {
      assert forall i :: 0 <= i < |rows[1..]| ==> keep(rows[1..][i]) by {
        forall i | 0 <= i < |rows[1..]| ensures keep(rows[1..][i]) { assert rows[1..][i] == rows[i + 1]; }
      }
      FilterKeepsAll(rows[1..], keep);
      assert keep(rows[0]);
      assert rows == [rows[0]] + rows[1..];
    }
  }

  /** `t[mask]` on a whole table. */
  function Where(t: Table, keep: Row -> bool): (r: Table)
    requires Valid(t)
    ensures Valid(r) && r.names == t.names
    ensures forall x :: x in r.rows <==> x in t.rows && keep(x)
  {
    var r := Table(t.names, Filter(t.rows, keep));
    FilterSorted(t.rows, keep);
    assert forall i :: 0 <= i < |r.rows| ==> |r.rows[i].cells| == |t.names| by {
      forall i | 0 <= i < |r.rows| ensures |r.rows[i].cells| == |t.names| {
        assert r.rows[i] in t.rows;
      }
    }
    r
  }

  /** Rows dated `lo <= date <= hi`. */
  function Between(t: Table, lo: Date, hi: Date): (r: Table)
    requires Valid(t)
    ensures Valid(r) && r.names == t.names
    ensures forall x :: x in r.rows <==> x in t.rows && lo <= x.date <= hi
  {
    Where(t, (x: Row) => lo <= x.date <= hi)
  }

  /** Rows dated `date <= hi`. */
  function UpTo(t: Table, hi: Date): (r: Table)
    requires Valid(t)
    ensures Valid(r) && r.names == t.names
    ensures forall x :: x in r.rows <==> x in t.rows && x.date <= hi
  {
    Where(t, (x: Row) => x.date <= hi)
  }

  /** Rows dated `date > lo`. */
  function After(t: Table, lo: Date): (r: Table)
    requires Valid(t)
    ensures Valid(r) && r.names == t.names
    ensures forall x :: x in r.rows <==> x in t.rows && x.date > lo
  {
    Where(t, (x: Row) => x.date > lo)
  }

  /** The dates after the filter are exactly the table's dates after `lo`. */
  lemma DatesAfter(t: Table, lo: Date)
    requires Valid(t)
    ensures forall d :: d in Dates(After(t, lo).rows) <==> d in Dates(t.rows) && d > lo
  {
    var a := After(t, lo);
    forall d ensures d in Dates(a.rows) <==> d in Dates(t.rows) && d > lo {
      if d in Dates(a.rows) {
        var k :| 0 <= k < |a.rows| && Dates(a.rows)[k] == d;
        assert a.rows[k] in a.rows;
        var j :| 0 <= j < |t.rows| && t.rows[j] == a.rows[k];
        assert Dates(t.rows)[j] == d;
      }
      if d in Dates(t.rows) && d > lo {
        var j :| 0 <= j < |t.rows| && Dates(t.rows)[j] == d;
        assert t.rows[j] in t.rows;
        var k :| 0 <= k < |a.rows| && a.rows[k] == t.rows[j];
        assert Dates(a.rows)[k] == d;
      }
    }
  }

  /** `dropna()`: rows with a missing cell are dropped. */
  function DropMissingRows(t: Table): (r: Table)
    requires Valid(t)
    ensures Valid(r) && r.names == t.names
    ensures forall x :: x in r.rows <==> x in t.rows && Complete(x)
  {
    Where(t, Complete)
  }

  /** `fillna(0)` on every cell. */
  function FillZero(t: Table): (r: Table)
    requires Valid(t)
    ensures Valid(r) && r.names == t.names && Dates(r.rows) == Dates(t.rows)
    ensures forall i :: 0 <= i < |r.rows| ==> Complete(r.rows[i])
    ensures forall i, c :: 0 <= i < |r.rows| && 0 <= c < |t.names| && t.rows[i].cells[c].Some? ==>
              r.rows[i].cells[c] == t.rows[i].cells[c]
    ensures forall i, c :: 0 <= i < |r.rows| && 0 <= c < |t.names| && t.rows[i].cells[c].None? ==>
              r.rows[i].cells[c] == Some(0.0)
  {
    Table(t.names, seq(|t.rows|, i requires 0 <= i < |t.rows| =>
      Row(t.rows[i].date, seq(|t.rows[i].cells|, c requires 0 <= c < |t.rows[i].cells| =>
        if t.rows[i].cells[c].Some? then t.rows[i].cells[c] else Some(0.0)))))
  }

  function Min(a: int, b: int): int { if a <= b then a else b }

  /** Positional column selection `t.iloc[:, lo:hi]`, clamped to the table's
      width as Python slices are. */
  function Slice(t: Table, lo: nat, hi: nat): (r: Table)
    requires Valid(t)
    ensures Valid(r) && Dates(r.rows) == Dates(t.rows)
    ensures var a := Min(lo, |t.names|); var b := Min(hi, |t.names|);
            r.names == (if a <= b then t.names[a..b] else [])
    ensures forall i, c :: 0 <= i < |r.rows| && 0 <= c < |r.names| ==>
              r.rows[i].cells[c] == t.rows[i].cells[Min(lo, |t.names|) + c]
  {
    var a := Min(lo, |t.names|);
    var b := if Min(hi, |t.names|) < a then a else Min(hi, |t.names|);
    Table(t.names[a..b], seq(|t.rows|, i requires 0 <= i < |t.rows| => Row(t.rows[i].date, t.rows[i].cells[a..b])))
  }

  lemma PrependIncreasing(x: Date, rest: seq<Date>)
    requires Increasing(rest)
    requires forall d :: d in rest ==> x < d
    ensures Increasing([x] + rest)
  {
    forall i, j | 0 <= i < j < |[x] + rest|
      ensures ([x] + rest)[i] < ([x] + rest)[j]
    {
      assert ([x] + rest)[j] == rest[j - 1];
      if i > 0 { assert ([x] + rest)[i] == rest[i - 1]; }
      else { assert rest[j - 1] in rest; }
    }
  }

  lemma TailAbove(a: seq<Date>)
    requires Increasing(a) && |a| > 0
    ensures Increasing(a[1..])
    ensures forall d :: d in a[1..] ==> a[0] < d
  {
    forall d | d in a[1..] ensures a[0] < d {
      var j :| 0 <= j < |a[1..]| && a[1..][j] == d;
      assert d == a[j + 1];
    }
  }

  /** The index of an outer join: the ascending union of two ascending
      indexes, each date once. */
  function Merge(a: seq<Date>, b: seq<Date>): (r: seq<Date>)
    requires Increasing(a) && Increasing(b)
    ensures Increasing(r)
    ensures forall d :: d in r <==> d in a || d in b
    decreases |a| + |b|
  {
    if a == [] then b
    else if b == [] then a
    else
      TailAbove(a); TailAbove(b);
      if a[0] < b[0] then
        var rest := Merge(a[1..], b);
        assert a == [a[0]] + a[1..];
        PrependIncreasing(a[0], rest);
        [a[0]] + rest
      else if b[0] < a[0] then
        var rest := Merge(a, b[1..]);
        assert b == [b[0]] + b[1..];
        PrependIncreasing(b[0], rest);
        [b[0]] + rest
      else
        var rest := Merge(a[1..], b[1..]);
        assert a == [a[0]] + a[1..];
        assert b == [b[0]] + b[1..];
        PrependIncreasing(a[0], rest);
        [a[0]] + rest
  }

  /** Position of the row dated `d`, if any. */
  function Find(rows: seq<Row>, d: Date): (r: Option<nat>)
    ensures r.Some? ==> r.value < |rows| && rows[r.value].date == d
    ensures r.None? ==> forall i :: 0 <= i < |rows| ==> rows[i].date != d
  {
    if rows == [] then None
    else if rows[0].date == d then Some(0)
    else
      match Find(rows[1..], d)
      case None => None
      case Some(i) => Some(i + 1)
  }

  /** In a table with a unique index, the row found for a date is the row
      that carries it. */
  lemma FindUnique(rows: seq<Row>, i: nat)
    requires SortedRows(rows) && i < |rows|
    ensures Find(rows, rows[i].date) == Some(i)
  {
    var f := Find(rows, rows[i].date);
    assert f.Some?;
    var j := f.value;
    assert rows[j].date == rows[i].date;
    assert !(j < i) && !(i < j);
  }

  /** The cells of the row dated `d`, or a row of missing cells when `t` has
      no such date (how an outer join fills absent rows).  What it finds is
      stated by `CellsAtRow` and `CellsAtAbsent`. */
  function CellsAt(t: Table, d: Date): (cs: seq<Cell>)
    requires Valid(t)
    ensures |cs| == |t.names|
  {
    match Find(t.rows, d)
    case Some(i) => t.rows[i].cells
    case None => Blank(|t.names|)
  }

  /** Looking up a row's own date finds that row. */
  lemma CellsAtRow(t: Table, j: nat)
    requires Valid(t) && j < |t.rows|
    ensures CellsAt(t, t.rows[j].date) == t.rows[j].cells
  {
    FindUnique(t.rows, j);
  }

  /** Looking up a date the table lacks finds a missing row. */
  lemma CellsAtAbsent(t: Table, d: Date)
    requires Valid(t) && d !in Dates(t.rows)
    ensures CellsAt(t, d) == Blank(|t.names|)
  {
  }

  /** Looking a date up after the filter finds the table's row when the date
      is after `lo`, and nothing otherwise. */
  lemma CellsAtAfter(t: Table, lo: Date, d: Date)
    requires Valid(t)
    ensures CellsAt(After(t, lo), d) == if d > lo then CellsAt(t, d) else Blank(|t.names|)
  {
    var a := After(t, lo);
    DatesAfter(t, lo);
    if d > lo && d in Dates(t.rows) {
      var j :| 0 <= j < |t.rows| && Dates(t.rows)[j] == d;
      CellsAtRow(t, j);
      assert t.rows[j] in a.rows;
      var k :| 0 <= k < |a.rows| && a.rows[k] == t.rows[j];
      CellsAtRow(a, k);
    } else {
      CellsAtAbsent(a, d);
      if d > lo {
        CellsAtAbsent(t, d);
      }
    }
  }

  /** `concat([a, b], axis=1)`: an outer join on the date index.  The result
      has every date of either table, ascending; `JoinRow` states its cells. */
  function Join(a: Table, b: Table): (r: Table)
    requires Valid(a) && Valid(b)
    ensures Valid(r) && r.names == a.names + b.names
    ensures Increasing(Dates(r.rows))
    ensures forall d :: d in Dates(r.rows) <==> d in Dates(a.rows) || d in Dates(b.rows)
  {
    var ds := Merge(Dates(a.rows), Dates(b.rows));
    var r := Table(a.names + b.names, seq(|ds|, i requires 0 <= i < |ds| =>
                     Row(ds[i], CellsAt(a, ds[i]) + CellsAt(b, ds[i]))));
    assert Dates(r.rows) == ds;
    r
  }

  /** Each joined row holds the cells of `a` for its date followed by those of
      `b`, missing where a table lacks the date. */
  lemma JoinRow(a: Table, b: Table, i: nat)
    requires Valid(a) && Valid(b) && i < |Join(a, b).rows|
    ensures var r := Join(a, b);
            r.rows[i].cells == CellsAt(a, r.rows[i].date) + CellsAt(b, r.rows[i].date)
  {
  }

  /** Looking a date up in a join is looking it up in both operands. */
  lemma CellsAtJoin(a: Table, b: Table, d: Date)
    requires Valid(a) && Valid(b)
    ensures CellsAt(Join(a, b), d) == CellsAt(a, d) + CellsAt(b, d)
  {
    var r := Join(a, b);
    if i :| 0 <= i < |r.rows| && r.rows[i].date == d {
      CellsAtRow(r, i);
      JoinRow(a, b, i);
    } else {
      assert d !in Dates(r.rows) by {
        forall k | 0 <= k < |r.rows| ensures Dates(r.rows)[k] != d { }
      }
      CellsAtAbsent(r, d);
      CellsAtAbsent(a, d);
      CellsAtAbsent(b, d);
      BlankSplit(|a.names|, |b.names|);
    }
  }

  /** When every date of `a` precedes every date of `b`, the joined index is
      `a`'s dates followed by `b`'s. */
  lemma {:induction false} MergeOrdered(a: seq<Date>, b: seq<Date>)
    requires Increasing(a) && Increasing(b)
    requires forall i, j :: 0 <= i < |a| && 0 <= j < |b| ==> a[i] < b[j]
    ensures Merge(a, b) == a + b
    decreases |a|
  {
    if a != [] && b != [] {
      assert a[0] < b[0];
      TailAbove(a);
      MergeOrdered(a[1..], b);
      assert a == [a[0]] + a[1..];
    }
  }

  /** An ascending index is determined by the dates it holds. */
  lemma {:induction false} IncreasingUnique(a: seq<Date>, b: seq<Date>)
    requires Increasing(a) && Increasing(b)
    requires forall d :: d in a <==> d in b
    ensures a == b
    decreases |a|
  {
    assert b == [] || b[0] in b;
    if a != [] {
      assert a[0] in a;
      assert b != [];
      assert b[0] in b;
      assert a[0] == b[0];
      TailAbove(a);
      TailAbove(b);
      forall d ensures d in a[1..] <==> d in b[1..] {
        if d in a[1..] {
          assert d in b && d != b[0];
          var k :| 0 <= k < |b| && b[k] == d;
          assert b[1..][k - 1] == d;
        }
        if d in b[1..] {
          assert d in a && d != a[0];
          var k :| 0 <= k < |a| && a[k] == d;
          assert a[1..][k - 1] == d;
        }
      }
      IncreasingUnique(a[1..], b[1..]);
      assert a == [a[0]] + a[1..];
      assert b == [b[0]] + b[1..];
    }
  }

  /** The index of a join is any ascending index holding exactly the dates
      of both operands. */
  lemma JoinDates(a: Table, b: Table, ds: seq<Date>)
    requires Valid(a) && Valid(b) && Increasing(ds)
    requires forall d :: d in ds <==> d in Dates(a.rows) || d in Dates(b.rows)
    ensures Dates(Join(a, b).rows) == ds
  {
    IncreasingUnique(Dates(Join(a, b).rows), ds);
  }

  lemma BlankSplit(m: nat, n: nat)
    ensures Blank(m) + Blank(n) == Blank(m + n)
  {
  }
}
