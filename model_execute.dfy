/** The final model: a regression with seasonal ARIMA errors fitted on the
    training rows, and the reconciliation of its in-sample fit and its
    forecast into one dated table.  Everything statistical (the fit, its
    residuals, the in-sample predictions, the forecast summary and the R²
    score) enters the model as an input. */
module ModelExecution {
  import opened Frames

  /** The seven numbers `(p, d, q, P, D, Q, s)` of the model. */
  datatype SarimaxOrder = SarimaxOrder(p: nat, d: nat, q: nat, P: nat, D: nat, Q: nat, s: nat)

  /** One row of the forecast summary: the mean, its standard error and the
      95% interval. */
  datatype Prediction = Prediction(mean: real, meanSe: real, lower: real, upper: real)

  /** A row of the output table; a `None` date is pandas' NaT. */
  datatype OutRow = OutRow(date: Option<Date>, cells: seq<Cell>)

  datatype OutTable = OutTable(names: seq<string>, rows: seq<OutRow>)

  datatype AdjustError =
    | PredictStartOutOfSample  // in-sample prediction asked to start at or past the end of the sample
    | FittedColumnOutOfBounds  // the frame has no second column to compare
    | EmptyR2Window            // R² over no rows

  datatype Outcome = Done(r2: real, table: OutTable) | Failed(error: AdjustError)

  /** The first position with a fitted value: `D*s + 1`. */
  function WarmUp(D: nat, s: nat): nat
  {
    D * s + 1
  }

  /** A Python slice bound `i` on a sequence of length `n`: negative bounds
      count from the end, and bounds out of range are clamped. */
  function SliceBound(i: int, n: nat): (b: nat)
    ensures b <= n
    ensures i < 0 && n + i >= 0 ==> b == n + i
    ensures i < 0 && n + i < 0 ==> b == 0
    ensures 0 <= i <= n ==> b == i
    ensures i > n ==> b == n
  {
    if i < 0 then (if n + i < 0 then 0 else n + i) else if i > n then n else i
  }

  /** The rows `iloc[k - n : -1]` that R² compares.  While the warm-up leaves
      training rows, these are rows k through n-2: the fit is scored from its
      first fitted value, and the last training row is left out. */
  function R2Window(n: nat, k: nat): (w: (nat, nat))
    ensures w.0 <= w.1 <= n
    ensures k < n ==> w == (k, n - 1)
    ensures k < n ==> (w.0 < w.1 <==> k < n - 1)
  {
    var lo := SliceBound(k - n, n);
    var hi := SliceBound(-1, n);
    (lo, if hi < lo then lo else hi)
  }

  /** The name the fitted column gets. */
  function FittedName(folder: string): string
  {
    folder + "_fitted"
  }

  /** `predict(start=k)` assigned into a frame of n rows: missing on the
      first k rows, then the in-sample predictions in order. */
  function FittedColumn(n: nat, k: nat, inSample: seq<real>): (col: seq<Cell>)
    requires k <= n && |inSample| == n - k
    ensures |col| == n
    ensures forall i :: 0 <= i < k ==> col[i] == None
    ensures forall i :: k <= i < n ==> col[i] == Some(inSample[i - k])
  {
    Blank(k) + Lift(inSample)
  }

  /** Number of present cells. */
  function Present(col: seq<Cell>): nat
  {
    if col == [] then 0
    else Present(col[..|col| - 1]) + (if col[|col| - 1].Some? then 1 else 0)
  }

  /** The fit has a value exactly where a residual is kept: as many fitted
      values are present as `model_execute` keeps residuals. */
  lemma {:induction false} PresentFitted(n: nat, k: nat, inSample: seq<real>)
    requires k <= n && |inSample| == n - k
    ensures Present(FittedColumn(n, k, inSample)) == n - k
    decreases |inSample|
  {
    if inSample == [] {
      PresentBlank(k);
      assert FittedColumn(n, k, inSample) == Blank(k);
    } else {
      var m := |inSample| - 1;
      assert FittedColumn(n, k, inSample)[..n - 1] == FittedColumn(n - 1, k, inSample[..m]);
      PresentFitted(n - 1, k, inSample[..m]);
    }
  }

  lemma {:induction false} PresentBlank(k: nat)
    ensures Present(Blank(k)) == 0
  {
    if k > 0 {
      assert Blank(k)[..k - 1] == Blank(k - 1);
      PresentBlank(k - 1);
    }
  }

  /** Inside the R² window every fitted value is present: the score compares
      the in-sample predictions for positions k .. n-2, all but the last. */
  lemma R2WindowFitted(n: nat, k: nat, inSample: seq<real>)
    requires k < n && |inSample| == n - k
    ensures var w := R2Window(n, k);
            FittedColumn(n, k, inSample)[w.0..w.1] == Lift(inSample[..n - 1 - k])
  {
  }

  /** A frame of the given rows, the i-th dated `future[i]`. */
  function Dated(future: seq<Date>, names: seq<string>, cells: seq<seq<Cell>>): (t: Table)
    requires Increasing(future) && |cells| == |future|
    requires forall i :: 0 <= i < |cells| ==> |cells[i]| == |names|
    ensures Valid(t) && t.names == names && Dates(t.rows) == future
    ensures forall i :: 0 <= i < |future| ==> t.rows[i].cells == cells[i]
  {
    Table(names, seq(|future|, i requires 0 <= i < |future| => Row(future[i], cells[i])))
  }

  /** `summary_frame()["mean"].iloc[0:-1]`: every row but the last. */
  function MeanValues(pred: seq<Prediction>): (v: seq<seq<Cell>>)
    requires |pred| > 0
    ensures |v| == |pred| - 1
    ensures forall i :: 0 <= i < |v| ==> v[i] == [Some(pred[i].mean)]
  {
    seq(|pred| - 1, i requires 0 <= i < |pred| - 1 => [Some(pred[i].mean)])
  }

  /** `summary_frame()["mean_se"].iloc[1:]`: every row but the first. */
  function SeValues(pred: seq<Prediction>): (v: seq<seq<Cell>>)
    requires |pred| > 0
    ensures |v| == |pred| - 1
    ensures forall i :: 0 <= i < |v| ==> v[i] == [Some(pred[i + 1].meanSe)]
  {
    seq(|pred| - 1, i requires 0 <= i < |pred| - 1 => [Some(pred[i + 1].meanSe)])
  }

  /** `conf_int(alpha=0.05)`: every row. */
  function CiValues(pred: seq<Prediction>): (v: seq<seq<Cell>>)
    ensures |v| == |pred|
    ensures forall i :: 0 <= i < |v| ==> v[i] == [Some(pred[i].lower), Some(pred[i].upper)]
  {
    seq(|pred|, i requires 0 <= i < |pred| => [Some(pred[i].lower), Some(pred[i].upper)])
  }

  /** The column names the output table is given. */
  function OutputNames(folder: string): (names: seq<string>)
    ensures |names| == 6 && names[1] == FittedName(folder)
  {
    [folder + "_observed", FittedName(folder), folder + "_predicted", "std_error", "ci_95_lower", "ci_95_upper"]
  }

  /** The last interval row has no date to pair with; it stays in the joined
      table under NaT, with every other column missing. */
  function UndatedRow(pred: seq<Prediction>): (r: OutRow)
    requires |pred| > 0
    ensures r.date == None && |r.cells| == 6 && r.cells[..4] == Blank(4)
    ensures r.cells[4] == Some(pred[|pred| - 1].lower) && r.cells[5] == Some(pred[|pred| - 1].upper)
  {
    OutRow(None, Blank(4) + CiValues(pred)[|pred| - 1])
  }

  /** The mean frame: forecast date i with the mean of prediction row i. */
  function MeanFrame(future: seq<Date>, pred: seq<Prediction>): (t: Table)
    requires Increasing(future) && |pred| == |future| + 1
    ensures Valid(t) && |t.names| == 1 && Dates(t.rows) == future
    ensures forall i :: 0 <= i < |future| ==> t.rows[i] == Row(future[i], [Some(pred[i].mean)])
  {
    Dated(future, ["mean"], MeanValues(pred))
  }

  /** The standard-error frame: forecast date i with the error of row i+1. */
  function SeFrame(future: seq<Date>, pred: seq<Prediction>): (t: Table)
    requires Increasing(future) && |pred| == |future| + 1
    ensures Valid(t) && |t.names| == 1 && Dates(t.rows) == future
    ensures forall i :: 0 <= i < |future| ==> t.rows[i] == Row(future[i], [Some(pred[i + 1].meanSe)])
  {
    Dated(future, ["mean_se"], SeValues(pred))
  }

  /** The dated part of the interval frame: forecast date i with the bounds
      of row i. */
  function CiFrame(future: seq<Date>, pred: seq<Prediction>): (t: Table)
    requires Increasing(future) && |pred| == |future| + 1
    ensures Valid(t) && |t.names| == 2 && Dates(t.rows) == future
    ensures forall i :: 0 <= i < |future| ==>
              t.rows[i] == Row(future[i], [Some(pred[i].lower), Some(pred[i].upper)])
  {
    Dated(future, ["lower", "upper"], CiValues(pred)[..|future|])
  }

  /** `concat([data_endog, fore, std_error, conf_95], axis=1)` on the dated
      rows: the three forecast frames joined onto the frame of observed and
      fitted values. */
  function Forecasts(endog: Table, future: seq<Date>, pred: seq<Prediction>): (all: Table)
    requires Valid(endog) && Increasing(future) && |pred| == |future| + 1
    ensures Valid(all) && |all.names| == |endog.names| + 4
  {
    Join(Join(Join(endog, MeanFrame(future, pred)), SeFrame(future, pred)), CiFrame(future, pred))
  }

  /** The joined rows, then the undated interval row. */
  function Joined(endog: Table, future: seq<Date>, pred: seq<Prediction>): (rows: seq<OutRow>)
    requires Valid(endog) && |endog.names| == 2 && Increasing(future) && |pred| == |future| + 1
    ensures |rows| == |Forecasts(endog, future, pred).rows| + 1
    ensures rows[|rows| - 1] == UndatedRow(pred)
    ensures forall i :: 0 <= i < |rows| ==> |rows[i].cells| == 6
    ensures forall i :: 0 <= i < |rows| - 1 ==> rows[i].date.Some?
  {
    var all := Forecasts(endog, future, pred);
    seq(|all.rows|, i requires 0 <= i < |all.rows| => OutRow(Some(all.rows[i].date), all.rows[i].cells))
      + [UndatedRow(pred)]
  }

  /** The table written to CSV: six named columns, the first joined row
      dropped. */
  function Reconciled(folder: string, endog: Table, future: seq<Date>, pred: seq<Prediction>): (out: OutTable)
    requires Valid(endog) && |endog.names| == 2 && Increasing(future) && |pred| == |future| + 1
    ensures out.names == OutputNames(folder)
    ensures |out.rows| == |Forecasts(endog, future, pred).rows|
    ensures forall i :: 0 <= i < |out.rows| ==> |out.rows[i].cells| == 6
    ensures |out.rows| > 0 ==> out.rows[|out.rows| - 1] == UndatedRow(pred)
    ensures forall i :: 0 <= i < |out.rows| - 1 ==> out.rows[i].date.Some?
  {
    OutTable(OutputNames(folder), Joined(endog, future, pred)[1..])
  }

  /** Every training date precedes every forecast date. */
  predicate Before(endog: Table, future: seq<Date>)
  {
    forall i, j :: 0 <= i < |endog.rows| && 0 <= j < |future| ==> endog.rows[i].date < future[j]
  }

  lemma AppendIncreasing(a: seq<Date>, b: seq<Date>)
    requires Increasing(a) && Increasing(b)
    requires forall i, j :: 0 <= i < |a| && 0 <= j < |b| ==> a[i] < b[j]
    ensures Increasing(a + b)
  {
    forall x, y | 0 <= x < y < |a + b| ensures (a + b)[x] < (a + b)[y] {
      if y < |a| {
      } else if x < |a| {
        assert (a + b)[x] == a[x] && (a + b)[y] == b[y - |a|];
      } else {
        assert (a + b)[x] == b[x - |a|] && (a + b)[y] == b[y - |a|];
      }
    }
  }

  /** With the forecast dates after the training dates, the joined index is
      the training dates followed by the forecast dates. */
  lemma ForecastsDates(endog: Table, future: seq<Date>, pred: seq<Prediction>)
    requires Valid(endog) && Increasing(future) && |pred| == |future| + 1 && Before(endog, future)
    ensures Dates(Forecasts(endog, future, pred).rows) == Dates(endog.rows) + future
  {
    var j1 := Join(endog, MeanFrame(future, pred));
    var j2 := Join(j1, SeFrame(future, pred));
    var ds := Dates(endog.rows) + future;
    AppendIncreasing(Dates(endog.rows), future);
    JoinDates(endog, MeanFrame(future, pred), ds);
    JoinDates(j1, SeFrame(future, pred), ds);
    JoinDates(j2, CiFrame(future, pred), ds);
  }

  /** The cells the joined table has on date `d`. */
  lemma ForecastsCellsAt(endog: Table, future: seq<Date>, pred: seq<Prediction>, d: Date)
    requires Valid(endog) && Increasing(future) && |pred| == |future| + 1
    ensures CellsAt(Forecasts(endog, future, pred), d) ==
              CellsAt(endog, d) + CellsAt(MeanFrame(future, pred), d) +
              CellsAt(SeFrame(future, pred), d) + CellsAt(CiFrame(future, pred), d)
  {
    var j1 := Join(endog, MeanFrame(future, pred));
    var j2 := Join(j1, SeFrame(future, pred));
    CellsAtJoin(endog, MeanFrame(future, pred), d);
    CellsAtJoin(j1, SeFrame(future, pred), d);
    CellsAtJoin(j2, CiFrame(future, pred), d);
  }

  /** A row is its date and what looking that date up returns. */
  lemma RowFromLookup(all: Table, ds: seq<Date>, m: nat, cs: seq<Cell>)
    requires Valid(all) && Dates(all.rows) == ds && m < |ds| && CellsAt(all, ds[m]) == cs
    ensures m < |all.rows| && all.rows[m] == Row(ds[m], cs)
  {
    assert all.rows[m].date == ds[m];
    CellsAtRow(all, m);
  }

  lemma FourCells(mean: real, se: real, lower: real, upper: real)
    ensures Blank(2) + [Some(mean)] + [Some(se)] + [Some(lower), Some(upper)]
            == [None, None, Some(mean), Some(se), Some(lower), Some(upper)]
  {
  }

  /** A date without a forecast gets four missing cells from the forecast
      frames. */
  lemma NoForecastOn(future: seq<Date>, pred: seq<Prediction>, d: Date, cs: seq<Cell>)
    requires Increasing(future) && |pred| == |future| + 1 && d !in future
    ensures cs + CellsAt(MeanFrame(future, pred), d) + CellsAt(SeFrame(future, pred), d) +
            CellsAt(CiFrame(future, pred), d) == cs + Blank(4)
  {
    CellsAtAbsent(MeanFrame(future, pred), d);
    CellsAtAbsent(SeFrame(future, pred), d);
    CellsAtAbsent(CiFrame(future, pred), d);
    BlankSplit(1, 1);
    BlankSplit(2, 2);
  }

  lemma ForecastsTrainingCells(endog: Table, future: seq<Date>, pred: seq<Prediction>, j: nat)
    requires Valid(endog) && Increasing(future) && |pred| == |future| + 1 && Before(endog, future)
    requires j < |endog.rows|
    ensures CellsAt(Forecasts(endog, future, pred), endog.rows[j].date) == endog.rows[j].cells + Blank(4)
  {
    var d := endog.rows[j].date;
    ForecastsCellsAt(endog, future, pred, d);
    CellsAtRow(endog, j);
    assert d !in future by {
      forall k | 0 <= k < |future| ensures future[k] != d { assert d < future[k]; }
    }
    NoForecastOn(future, pred, d, endog.rows[j].cells);
  }

  lemma ForecastsFutureCells(endog: Table, future: seq<Date>, pred: seq<Prediction>, i: nat)
    requires Valid(endog) && |endog.names| == 2 && Increasing(future) && |pred| == |future| + 1
    requires Before(endog, future) && i < |future|
    ensures CellsAt(Forecasts(endog, future, pred), future[i]) ==
              [None, None, Some(pred[i].mean), Some(pred[i + 1].meanSe), Some(pred[i].lower), Some(pred[i].upper)]
  {
    var d := future[i];
    ForecastsCellsAt(endog, future, pred, d);
    CellsAtRow(MeanFrame(future, pred), i);
    CellsAtRow(SeFrame(future, pred), i);
    CellsAtRow(CiFrame(future, pred), i);
    assert d !in Dates(endog.rows);
    CellsAtAbsent(endog, d);
    FourCells(pred[i].mean, pred[i + 1].meanSe, pred[i].lower, pred[i].upper);
  }

  /** A training row keeps its own cells and has no forecast. */
  lemma ForecastsTrainingRow(endog: Table, future: seq<Date>, pred: seq<Prediction>, j: nat)
    requires Valid(endog) && Increasing(future) && |pred| == |future| + 1 && Before(endog, future)
    requires j < |endog.rows|
    ensures var all := Forecasts(endog, future, pred);
            j < |all.rows| && all.rows[j] == Row(endog.rows[j].date, endog.rows[j].cells + Blank(4))
  {
    var d := endog.rows[j].date;
    var ds := Dates(endog.rows) + future;
    var cs := endog.rows[j].cells + Blank(4);
    assert ds[j] == d;
    ForecastsTrainingCells(endog, future, pred, j);
    ForecastsDates(endog, future, pred);
    RowFromLookup(Forecasts(endog, future, pred), ds, j, cs);
  }

  /** Forecast date i gets the mean and interval of prediction row i and the
      standard error of row i+1. */
  lemma ForecastsFutureRow(endog: Table, future: seq<Date>, pred: seq<Prediction>, i: nat)
    requires Valid(endog) && |endog.names| == 2 && Increasing(future) && |pred| == |future| + 1
    requires Before(endog, future) && i < |future|
    ensures var all := Forecasts(endog, future, pred);
            |endog.rows| + i < |all.rows| &&
            all.rows[|endog.rows| + i] ==
              Row(future[i], [None, None, Some(pred[i].mean), Some(pred[i + 1].meanSe),
                              Some(pred[i].lower), Some(pred[i].upper)])
  {
    var d := future[i];
    var m := |endog.rows| + i;
    var ds := Dates(endog.rows) + future;
    var cs := [None, None, Some(pred[i].mean), Some(pred[i + 1].meanSe), Some(pred[i].lower), Some(pred[i].upper)];
    assert ds[m] == d;
    ForecastsFutureCells(endog, future, pred, i);
    ForecastsDates(endog, future, pred);
    RowFromLookup(Forecasts(endog, future, pred), ds, m, cs);
  }

  /** Written row k is joined row k+1: its date and cells. */
  lemma ReconciledRowAt(folder: string, endog: Table, future: seq<Date>, pred: seq<Prediction>, k: nat)
    requires Valid(endog) && |endog.names| == 2 && Increasing(future) && |pred| == |future| + 1
    requires k + 1 < |Forecasts(endog, future, pred).rows|
    ensures var all := Forecasts(endog, future, pred);
            Reconciled(folder, endog, future, pred).rows[k] == OutRow(Some(all.rows[k + 1].date), all.rows[k + 1].cells)
  {
  }

  /** Written row j-1 is training row j with its observed and fitted values
      and nothing else. */
  lemma ReconciledTrainingRow(folder: string, endog: Table, future: seq<Date>, pred: seq<Prediction>, j: nat)
    requires Valid(endog) && |endog.names| == 2 && Increasing(future) && |pred| == |future| + 1
    requires Before(endog, future) && 1 <= j < |endog.rows|
    ensures var out := Reconciled(folder, endog, future, pred);
            j - 1 < |out.rows| &&
            out.rows[j - 1] == OutRow(Some(endog.rows[j].date), endog.rows[j].cells + Blank(4))
  {
    ForecastsDates(endog, future, pred);
    ForecastsTrainingRow(endog, future, pred, j);
    ReconciledRowAt(folder, endog, future, pred, j - 1);
  }

  /** The written rows before the forecast: the training rows from the
      second on, each with its observed and fitted values and nothing else. */
  lemma ReconciledTrainingRows(folder: string, endog: Table, future: seq<Date>, pred: seq<Prediction>)
    requires Valid(endog) && |endog.names| == 2 && Increasing(future) && |pred| == |future| + 1
    requires |endog.rows| > 0 && Before(endog, future)
    ensures var out := Reconciled(folder, endog, future, pred);
            |out.rows| == |endog.rows| + |future| &&
            forall j :: 1 <= j < |endog.rows| ==>
              out.rows[j - 1] == OutRow(Some(endog.rows[j].date), endog.rows[j].cells + Blank(4))
  {
    ForecastsDates(endog, future, pred);
    forall j | 1 <= j < |endog.rows| {
      ReconciledTrainingRow(folder, endog, future, pred, j);
    }
  }

  /** Written row |endog|-1+i is forecast date i, with the mean and interval
      of prediction row i and the standard error of row i+1. */
  lemma ReconciledFutureRow(folder: string, endog: Table, future: seq<Date>, pred: seq<Prediction>, i: nat)
    requires Valid(endog) && |endog.names| == 2 && Increasing(future) && |pred| == |future| + 1
    requires |endog.rows| > 0 && Before(endog, future) && i < |future|
    ensures var out := Reconciled(folder, endog, future, pred);
            |endog.rows| - 1 + i < |out.rows| &&
            out.rows[|endog.rows| - 1 + i] ==
              OutRow(Some(future[i]), [None, None, Some(pred[i].mean), Some(pred[i + 1].meanSe),
                                       Some(pred[i].lower), Some(pred[i].upper)])
  {
    ForecastsDates(endog, future, pred);
    ForecastsFutureRow(endog, future, pred, i);
    ReconciledRowAt(folder, endog, future, pred, |endog.rows| - 1 + i);
  }

  /** The written rows of the forecast: forecast date i takes its mean and
      interval from prediction row i and its standard error from row i+1. */
  lemma ReconciledFutureRows(folder: string, endog: Table, future: seq<Date>, pred: seq<Prediction>)
    requires Valid(endog) && |endog.names| == 2 && Increasing(future) && |pred| == |future| + 1
    requires |endog.rows| > 0 && Before(endog, future)
    ensures var out := Reconciled(folder, endog, future, pred);
            |out.rows| == |endog.rows| + |future| &&
            forall i :: 0 <= i < |future| ==>
              out.rows[|endog.rows| - 1 + i] ==
                OutRow(Some(future[i]), [None, None, Some(pred[i].mean), Some(pred[i + 1].meanSe),
                                         Some(pred[i].lower), Some(pred[i].upper)])
  {
    ForecastsDates(endog, future, pred);
    forall i | 0 <= i < |future| {
      ReconciledFutureRow(folder, endog, future, pred, i);
    }
  }

  /** How the written table lines up when the forecast dates follow the
      training dates: the training rows from the second on, each with its
      observed and fitted values and nothing else; then one row per forecast
      date i, whose mean and interval come from prediction row i (the first
      of them made at the last training position) and whose standard error
      comes from row i+1; then the undated interval row. */
  lemma ReconciledLayout(folder: string, endog: Table, future: seq<Date>, pred: seq<Prediction>)
    requires Valid(endog) && |endog.names| == 2 && Increasing(future) && |pred| == |future| + 1
    requires |endog.rows| > 0 && Before(endog, future)
    ensures var out := Reconciled(folder, endog, future, pred);
            |out.rows| == |endog.rows| + |future| &&
            (forall j :: 1 <= j < |endog.rows| ==>
               out.rows[j - 1] == OutRow(Some(endog.rows[j].date), endog.rows[j].cells + Blank(4))) &&
            (forall i :: 0 <= i < |future| ==>
               out.rows[|endog.rows| - 1 + i] ==
                 OutRow(Some(future[i]), [None, None, Some(pred[i].mean), Some(pred[i + 1].meanSe),
                                          Some(pred[i].lower), Some(pred[i].upper)])) &&
            out.rows[|out.rows| - 1] == UndatedRow(pred)
  {
    ReconciledTrainingRows(folder, endog, future, pred);
    ReconciledFutureRows(folder, endog, future, pred);
  }

  /** The fitted line that is plotted (the CSV is already written): the
      output's fitted column, except that the entry dated `date_predict_init`
      shows that row's predicted value. */
  function PlotFitted(out: OutTable, datePredictInit: Date): (line: seq<Cell>)
    requires forall i :: 0 <= i < |out.rows| ==> |out.rows[i].cells| == 6
    ensures |line| == |out.rows|
    ensures forall i :: 0 <= i < |out.rows| && out.rows[i].date != Some(datePredictInit) ==>
              line[i] == out.rows[i].cells[1]
    ensures forall i :: 0 <= i < |out.rows| && out.rows[i].date == Some(datePredictInit) ==>
              line[i] == out.rows[i].cells[2]
  {
    seq(|out.rows|, i requires 0 <= i < |out.rows| =>
      if out.rows[i].date == Some(datePredictInit) then out.rows[i].cells[2] else out.rows[i].cells[1])
  }

  /** When `date_predict_init` is the first forecast date, the plotted fitted
      line reaches the forecast: at that date it shows the mean predicted at
      the last training position, where the written table has no fitted
      value; everywhere else it is the table's fitted column. */
  lemma PlotJoinsForecast(folder: string, endog: Table, future: seq<Date>, pred: seq<Prediction>)
    requires Valid(endog) && |endog.names| == 2 && Increasing(future) && |pred| == |future| + 1
    requires |endog.rows| > 0 && Before(endog, future) && |future| > 0
    ensures var out := Reconciled(folder, endog, future, pred);
            var line := PlotFitted(out, future[0]);
            var b := |endog.rows| - 1;
            b < |out.rows| && line[b] == Some(pred[0].mean) && out.rows[b].cells[1] == None &&
            forall i :: 0 <= i < |out.rows| && i != b ==> line[i] == out.rows[i].cells[1]
  {
    var out := Reconciled(folder, endog, future, pred);
    ReconciledLayout(folder, endog, future, pred);
    var b := |endog.rows| - 1;
    forall i | 0 <= i < |out.rows| && i != b ensures out.rows[i].date != Some(future[0]) {
      if i < b {
        assert endog.rows[i + 1].date < future[0];
      } else if i < |out.rows| - 1 {
        assert future[0] < future[i - b];
      }
    }
  }

  /** The successful outcome: the fit scored on the R² window (in percent)
      and the reconciled output table over the filled forecast frame. */
  function Scored(folder: string, endog': Table, fore': Table, k: nat, r2Score: (seq<Cell>, seq<Cell>) -> real,
                  pred: seq<Prediction>): Outcome
    requires Valid(endog') && |endog'.names| == 2 && k < |endog'.rows|
    requires Valid(fore') && |pred| == |fore'.rows| + 1
  {
    var w := R2Window(|endog'.rows|, k);
    Done(r2Score(Column(endog', 0)[w.0..w.1], Column(endog', 1)[w.0..w.1]) * 100.0,
         Reconciled(folder, endog', Dates(fore'.rows), pred))
  }

  /** What `adjust_predict_*` leaves behind and returns, given the state
      before (`endog`, `fore`), the warm-up `k` and the model's outputs. */
  ghost predicate Adjusted(folder: string, endog: Table, fore: Table, k: nat, inSample: seq<real>,
                           r2Score: (seq<Cell>, seq<Cell>) -> real, pred: seq<Prediction>,
                           out: Outcome, endog': Table, fore': Table)
    requires Valid(endog) && Valid(fore) && |pred| == |fore.rows| + 1
    requires k < |endog.rows| ==> |inSample| == |endog.rows| - k
  {
    var n := |endog.rows|;
    if k >= n then
      out == Failed(PredictStartOutOfSample) && endog' == endog && fore' == fore
    else
      endog' == AssignColumn(endog, FittedName(folder), FittedColumn(n, k, inSample)) &&
      if |endog'.names| < 2 then
        out == Failed(FittedColumnOutOfBounds) && fore' == fore
      else if R2Window(n, k).0 == R2Window(n, k).1 then
        out == Failed(EmptyR2Window) && fore' == fore
      else
        |endog'.names| == 2 && fore' == FillZero(fore) &&
        out == Scored(folder, endog', fore', k, r2Score, pred)
  }

  /** The success case of `Adjusted`, on values. */
  lemma AdjustedDone(folder: string, endog: Table, fore: Table, k: nat, inSample: seq<real>,
                     r2Score: (seq<Cell>, seq<Cell>) -> real, pred: seq<Prediction>, endog': Table)
    requires Valid(endog) && Valid(fore) && |pred| == |fore.rows| + 1
    requires k < |endog.rows| && |inSample| == |endog.rows| - k
    requires endog' == AssignColumn(endog, FittedName(folder), FittedColumn(|endog.rows|, k, inSample))
    requires |endog'.names| == 2 && R2Window(|endog.rows|, k).0 < R2Window(|endog.rows|, k).1
    ensures Adjusted(folder, endog, fore, k, inSample, r2Score, pred,
                     Scored(folder, endog', FillZero(fore), k, r2Score, pred), endog', FillZero(fore))
  {
  }

  /** The case of `Adjusted` where the warm-up covers the whole sample. */
  lemma AdjustedOutOfSample(folder: string, endog: Table, fore: Table, k: nat, inSample: seq<real>,
                            r2Score: (seq<Cell>, seq<Cell>) -> real, pred: seq<Prediction>)
    requires Valid(endog) && Valid(fore) && |pred| == |fore.rows| + 1
    requires k >= |endog.rows|
    ensures Adjusted(folder, endog, fore, k, inSample, r2Score, pred, Failed(PredictStartOutOfSample), endog, fore)
  {
  }

  /** The failure cases of `Adjusted` once the fitted column is assigned, on
      values. */
  lemma AdjustedFailed(folder: string, endog: Table, fore: Table, k: nat, inSample: seq<real>,
                       r2Score: (seq<Cell>, seq<Cell>) -> real, pred: seq<Prediction>, endog': Table, e: AdjustError)
    requires Valid(endog) && Valid(fore) && |pred| == |fore.rows| + 1
    requires k < |endog.rows| && |inSample| == |endog.rows| - k
    requires endog' == AssignColumn(endog, FittedName(folder), FittedColumn(|endog.rows|, k, inSample))
    requires e == FittedColumnOutOfBounds ==> |endog'.names| < 2
    requires e == EmptyR2Window ==> 2 <= |endog'.names| && R2Window(|endog.rows|, k).0 == R2Window(|endog.rows|, k).1
    requires e != PredictStartOutOfSample
    ensures Adjusted(folder, endog, fore, k, inSample, r2Score, pred, Failed(e), endog', fore)
  {
  }

  /** Assigning the fitted column keeps the dependent frame to its own
      column and at most the fitted one, which then sits second. */
  lemma AssignFittedShape(endog: Table, folder: string, col: seq<Cell>)
    requires Valid(endog) && |col| == |endog.rows|
    requires |endog.names| <= 1 || (|endog.names| == 2 && endog.names[1] == FittedName(folder))
    ensures var r := AssignColumn(endog, FittedName(folder), col);
            Valid(r) && (|r.names| <= 1 || (|r.names| == 2 && r.names[1] == FittedName(folder)))
  {
  }

  /** `Model_execute`: the training frame split into the dependent column and
      the regressors, and the forecast regressors without their first
      column. */
  class ModelExecute {
    const folder: string
    var dataEndog: Table
    const dataExogs: Table
    var dataExogsFore: Table
    var order: SarimaxOrder
    var dTerm: nat
    var sTerm: nat
    var resid: seq<real>
    var executed: bool

    /** The dependent frame has its own column and at most the fitted one. */
    ghost predicate Valid()
      reads this
    {
      Frames.Valid(dataEndog) && Frames.Valid(dataExogs) && Frames.Valid(dataExogsFore) &&
      (|dataEndog.names| <= 1 || (|dataEndog.names| == 2 && dataEndog.names[1] == FittedName(folder)))
    }

    constructor (data: Table, dataExogsFore: Table, folder: string)
      requires Frames.Valid(data) && Frames.Valid(dataExogsFore)
      ensures Valid() && !executed && this.folder == folder
      ensures dataEndog == Slice(data, 0, 1)
      ensures dataExogs == Slice(data, 1, |data.names|)
      ensures this.dataExogsFore == Slice(dataExogsFore, 1, |dataExogsFore.names|)
    {
      this.folder := folder;
      dataEndog := Slice(data, 0, 1);
      dataExogs := Slice(data, 1, |data.names|);
      this.dataExogsFore := Slice(dataExogsFore, 1, |dataExogsFore.names|);
      order := SarimaxOrder(0, 0, 0, 0, 0, 0, 0);
      dTerm := 0;
      sTerm := 0;
      resid := [];
      executed := false;
    }

    /** `model_execute`: records the order, and keeps the residuals (one per
        training row, from the fit) from position `D*s + 1` on. */
    method Execute(p: nat, d: nat, q: nat, P: nat, D: nat, Q: nat, s: nat, residuals: seq<real>)
      requires Valid()
      requires |residuals| == |dataEndog.rows|
      modifies this`order, this`dTerm, this`sTerm, this`resid, this`executed
      ensures Valid() && executed
      ensures order == SarimaxOrder(p, d, q, P, D, Q, s) && dTerm == D && sTerm == s
      ensures WarmUp(D, s) <= |residuals| ==> resid == residuals[WarmUp(D, s)..]
      ensures WarmUp(D, s) > |residuals| ==> resid == []
      ensures |resid| == if WarmUp(D, s) <= |residuals| then |residuals| - WarmUp(D, s) else 0
    {
      order := SarimaxOrder(p, d, q, P, D, Q, s);
      dTerm := D;
      sTerm := s;
      var k := WarmUp(D, s);
      resid := residuals[Min(k, |residuals|)..];
      executed := true;
    }

    /** The table-building part shared by `adjust_predict_m` and
        `adjust_predict_d`: adds the fitted column, scores the fit, fills
        missing forecast regressors with 0 and builds the output table. */
    method AdjustPredict(inSample: seq<real>, r2Score: (seq<Cell>, seq<Cell>) -> real, prediction: seq<Prediction>)
      returns (out: Outcome)
      requires Valid() && executed
      requires WarmUp(dTerm, sTerm) < |dataEndog.rows| ==> |inSample| == |dataEndog.rows| - WarmUp(dTerm, sTerm)
      requires |prediction| == |dataExogsFore.rows| + 1
      modifies this`dataEndog, this`dataExogsFore
      ensures Valid()
      ensures Adjusted(folder, old(dataEndog), old(dataExogsFore), WarmUp(dTerm, sTerm), inSample, r2Score,
                       prediction, out, dataEndog, dataExogsFore)
    {
      var k := WarmUp(dTerm, sTerm);
      var endog, fore := dataEndog, dataExogsFore;
      var n := |endog.rows|;
      if k >= n {
        AdjustedOutOfSample(folder, endog, fore, k, inSample, r2Score, prediction);
        return Failed(PredictStartOutOfSample);
      }
      var fitted := FittedColumn(n, k, inSample);
      AssignFittedShape(endog, folder, fitted);
      var endog' := AssignColumn(endog, FittedName(folder), fitted);
      dataEndog := endog';
      if |endog'.names| < 2 {
        AdjustedFailed(folder, endog, fore, k, inSample, r2Score, prediction, endog', FittedColumnOutOfBounds);
        return Failed(FittedColumnOutOfBounds);
      }
      var w := R2Window(n, k);
      if w.0 == w.1 {
        AdjustedFailed(folder, endog, fore, k, inSample, r2Score, prediction, endog', EmptyR2Window);
        return Failed(EmptyR2Window);
      }
      assert |endog'.names| == 2;
      var fore' := FillZero(fore);
      out := Scored(folder, endog', fore', k, r2Score, prediction);
      AdjustedDone(folder, endog, fore, k, inSample, r2Score, prediction, endog');
      dataExogsFore := fore';
    }

    /** `adjust_predict_m`: the shared part, then the plotted fitted line with
        the entry at `date_predict_init` overwritten after the table is
        written. */
    method AdjustPredictM(datePredictInit: Date, inSample: seq<real>, r2Score: (seq<Cell>, seq<Cell>) -> real,
                          prediction: seq<Prediction>)
      returns (out: Outcome, fittedLine: seq<Cell>)
      requires Valid() && executed
      requires WarmUp(dTerm, sTerm) < |dataEndog.rows| ==> |inSample| == |dataEndog.rows| - WarmUp(dTerm, sTerm)
      requires |prediction| == |dataExogsFore.rows| + 1
      modifies this`dataEndog, this`dataExogsFore
      ensures Valid()
      ensures Adjusted(folder, old(dataEndog), old(dataExogsFore), WarmUp(dTerm, sTerm), inSample, r2Score,
                       prediction, out, dataEndog, dataExogsFore)
      ensures out.Done? ==> fittedLine == PlotFitted(out.table, datePredictInit)
      ensures out.Failed? ==> fittedLine == []
    {
      out := AdjustPredict(inSample, r2Score, prediction);
      fittedLine := [];
      if out.Done? {
        fittedLine := PlotFitted(out.table, datePredictInit);
      }
    }
  }
}
