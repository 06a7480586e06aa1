/** The driver's bookkeeping for one series and period: the date windows,
    the indicator columns, the design matrix, the split into training rows
    and forecast regressors, and the choice of the adjust-and-predict step
    by frequency.  The tables read back from the intermediate files are
    inputs; reading and writing them is not modelled. */
module Driver {
  import opened Frames
  import opened Dummy
  import opened ModelExecution

  /** `data_all_fore[index <= date_train_end]`: the input to the regressor
      forecasts never reaches past the end of training, and keeps every
      earlier row. */
  function ExogInput(dataAllFore: Table, trainEnd: Date): (t: Table)
    requires Valid(dataAllFore)
    ensures Valid(t) && t.names == dataAllFore.names
    ensures forall i :: 0 <= i < |t.rows| ==> t.rows[i].date <= trainEnd
    ensures forall x :: x in dataAllFore.rows && x.date <= trainEnd ==> x in t.rows
  {
    var t := UpTo(dataAllFore, trainEnd);
    assert forall i :: 0 <= i < |t.rows| ==> t.rows[i].date <= trainEnd by {
      forall i | 0 <= i < |t.rows| ensures t.rows[i].date <= trainEnd { assert t.rows[i] in t.rows; }
    }
    t
  }

  /** The table the stationarity stage reads: for monthly data the
      seasonally adjusted table (`x13`, built outside this model); for any
      other frequency the dependent and explanatory tables side by side. */
  function SeasonalTable(freq: string, endog: Table, exogs: Table, x13: Table): (t: Table)
    requires Valid(endog) && Valid(exogs) && Valid(x13)
    ensures Valid(t)
    ensures freq == "MS" ==> t == x13
    ensures freq != "MS" ==> (t.names == endog.names + exogs.names &&
              forall d :: d in Dates(t.rows) <==> d in Dates(endog.rows) || d in Dates(exogs.rows))
  {
    if freq == "MS" then x13 else Join(endog, exogs)
  }

  /** Without seasonal adjustment, each date's values are the dependent
      values followed by the explanatory ones, missing where a table lacks
      the date. */
  lemma UnadjustedCells(freq: string, endog: Table, exogs: Table, x13: Table, d: Date)
    requires Valid(endog) && Valid(exogs) && Valid(x13) && freq != "MS"
    ensures CellsAt(SeasonalTable(freq, endog, exogs, x13), d) == CellsAt(endog, d) + CellsAt(exogs, d)
  {
    CellsAtJoin(endog, exogs, d);
  }

  /** One entry of the indicator settings. */
  datatype DummySpec = DummySpec(name: string, kind: string, start: Date, end: Date)

  /** Selecting the range entries keeps their order: selection works entry
      by entry. */
  lemma {:induction false} RangeSpecsAppend(a: seq<DummySpec>, b: seq<DummySpec>)
    ensures RangeSpecs(a + b) == RangeSpecs(a) + RangeSpecs(b)
    decreases |b|
  {
    if b == [] {
      assert a + b == a;
    } else {
      var m := |b| - 1;
      var init, x := b[..m], b[m];
      var keep := if x.kind == "range" then [x] else [];
      assert a + b == (a + init) + [x];
      assert b == init + [x];
      calc {
        RangeSpecs(a + b);
        { RangeSpecsSnoc(a + init, x); }
        RangeSpecs(a + init) + keep;
        { RangeSpecsAppend(a, init); }
        (RangeSpecs(a) + RangeSpecs(init)) + keep;
        RangeSpecs(a) + (RangeSpecs(init) + keep);
        { RangeSpecsSnoc(init, x); }
        RangeSpecs(a) + RangeSpecs(b);
      }
    }
  }

  /** Appending one entry appends it to the selection exactly when it is of
      type `range`. */
  lemma RangeSpecsSnoc(s: seq<DummySpec>, x: DummySpec)
    ensures RangeSpecs(s + [x]) == RangeSpecs(s) + (if x.kind == "range" then [x] else [])
  {
    assert (s + [x])[..|s|] == s;
  }

  /** One entry: itself if it is of type `range`, nothing otherwise. */
  lemma RangeSpecsOne(x: DummySpec)
    ensures RangeSpecs([x]) == if x.kind == "range" then [x] else []
  {
    assert [x][..0] == [];
  }

  /** The entries that produce a column: those of type `range`, in order. */
  function RangeSpecs(specs: seq<DummySpec>): (rs: seq<DummySpec>)
    ensures forall x :: x in rs <==> x in specs && x.kind == "range"
  {
    if specs == [] then []
    else
      var last := specs[|specs| - 1];
      assert specs == specs[..|specs| - 1] + [last];
      RangeSpecs(specs[..|specs| - 1]) + (if last.kind == "range" then [last] else [])
  }

  function NamesOf(specs: seq<DummySpec>): (ns: seq<string>)
    ensures |ns| == |specs| && forall k :: 0 <= k < |specs| ==> ns[k] == specs[k].name
  {
    seq(|specs|, k requires 0 <= k < |specs| => specs[k].name)
  }

  /** The settings are a dictionary keyed by name. */
  predicate DistinctNames(specs: seq<DummySpec>)
  {
    forall a, b :: 0 <= a < b < |specs| ==> specs[a].name != specs[b].name
  }

  /** The indicator over a date index: 1 on the dates in [start, end], 0 on
      the others. */
  function IndicatorColumn(dates: seq<Date>, start: Date, end: Date): (col: seq<Cell>)
    ensures |col| == |dates|
    ensures forall i :: 0 <= i < |dates| ==> (col[i] == Some(1.0) <==> start <= dates[i] <= end)
    ensures forall i :: 0 <= i < |dates| ==> (col[i] == Some(0.0) <==> !(start <= dates[i] <= end))
  {
    seq(|dates|, i requires 0 <= i < |dates| => if start <= dates[i] <= end then Some(1.0) else Some(0.0))
  }

  /** A fresh generator's frame after one range call: the one named column
      is exactly the indicator of the range. */
  lemma FreshIndicator(t: Table, name: string, start: Date, end: Date)
    requires Valid(t) && t.names == []
    ensures var r := WithRangeColumn(t, name, start, end);
            r.names == [name] && Column(r, 0) == IndicatorColumn(Dates(t.rows), start, end)
  {
    var r := WithRangeColumn(t, name, start, end);
    assert ColumnPos(t.names, name) == 0;
    var col := IndicatorColumn(Dates(t.rows), start, end);
    forall i | 0 <= i < |r.rows| ensures Column(r, 0)[i] == col[i] {
      assert r.rows[i].date == Dates(t.rows)[i];
    }
  }

  /** `frame[name] = other`: the other frame's first column, looked up by
      date. */
  function Aligned(t: Table, other: Table): (col: seq<Cell>)
    requires Valid(other) && |other.names| > 0
    ensures |col| == |t.rows|
  {
    seq(|t.rows|, i requires 0 <= i < |t.rows| => CellsAt(other, t.rows[i].date)[0])
  }

  /** Two frames on the same index align row by row. */
  lemma AlignedSameIndex(t: Table, other: Table)
    requires Valid(other) && |other.names| > 0 && Dates(t.rows) == Dates(other.rows)
    ensures Aligned(t, other) == Column(other, 0)
  {
    forall i | 0 <= i < |t.rows| ensures Aligned(t, other)[i] == Column(other, 0)[i] {
      assert t.rows[i].date == Dates(other.rows)[i];
      CellsAtRow(other, i);
    }
  }

  /** What the indicator frame holds after the entries `done` (all of type
      `range`): nothing at all before the first one, and afterwards one
      row per date of the window and one indicator column per entry. */
  ghost predicate Indicators(t: Table, done: seq<DummySpec>, dateRange: seq<Date>)
  {
    if done == [] then t == Table([], [])
    else
      Valid(t) && Dates(t.rows) == dateRange && t.names == NamesOf(done) &&
      forall k :: 0 <= k < |done| ==> Column(t, k) == IndicatorColumn(dateRange, done[k].start, done[k].end)
  }

  /** The names seen so far are names of earlier entries. */
  lemma EarlierNames(specs: seq<DummySpec>, i: nat)
    requires DistinctNames(specs) && i < |specs|
    ensures specs[i].name !in NamesOf(RangeSpecs(specs[..i]))
  {
  }

  /** `data_dummy[name] = frame`: into the empty frame the generator's frame
      comes whole, index included; into a frame that has columns already it
      is aligned on the dates. */
  function AssignFrame(t: Table, name: string, frame: Table): (r: Table)
    requires Valid(t) && Valid(frame) && |frame.names| == 1
  {
    if t == Table([], []) then Table([name], frame.rows)
    else AssignColumn(t, name, Aligned(t, frame))
  }

  /** One range entry adds its indicator after those already there. */
  lemma IndicatorsStep(t: Table, done: seq<DummySpec>, dateRange: seq<Date>, spec: DummySpec, frame: Table)
    requires Indicators(t, done, dateRange) && Increasing(dateRange)
    requires spec.name !in NamesOf(done)
    requires Valid(frame) && Dates(frame.rows) == dateRange && frame.names == [spec.name]
    requires Column(frame, 0) == IndicatorColumn(dateRange, spec.start, spec.end)
    ensures Valid(t) && Indicators(AssignFrame(t, spec.name, frame), done + [spec], dateRange)
  {
    var r := AssignFrame(t, spec.name, frame);
    var all := done + [spec];
    if t == Table([], []) {
      assert done == [];
      assert Column(r, 0) == Column(frame, 0);
    } else {
      assert done != [];
      AlignedSameIndex(t, frame);
      assert ColumnPos(t.names, spec.name) == |done|;
      forall k | 0 <= k < |all| ensures Column(r, k) == IndicatorColumn(dateRange, all[k].start, all[k].end) {
        if k < |done| {
          forall j | 0 <= j < |r.rows| ensures Column(r, k)[j] == Column(t, k)[j] { }
        }
      }
    }
  }

  /** The indicator loop: each entry of type `range` gets a fresh generator
      over [trainInit, predictEnd] (whose dates are `dateRange`), and its
      frame becomes the column of that name; other entries are skipped. */
  method BuildIndicators(specs: seq<DummySpec>, trainInit: Date, predictEnd: Date, freq: string,
                         dateRange: seq<Date>)
    returns (dataDummy: Table)
    requires IsDateRange(dateRange, trainInit, predictEnd) && DistinctNames(specs)
    ensures RangeSpecs(specs) == [] ==> dataDummy == Table([], [])
    ensures RangeSpecs(specs) != [] ==>
              Valid(dataDummy) && Dates(dataDummy.rows) == dateRange &&
              dataDummy.names == NamesOf(RangeSpecs(specs)) &&
              forall k :: 0 <= k < |RangeSpecs(specs)| ==>
                Column(dataDummy, k) == IndicatorColumn(dateRange, RangeSpecs(specs)[k].start, RangeSpecs(specs)[k].end)
  {
    dataDummy := Table([], []);
    var i := 0;
    while i < |specs|
      invariant 0 <= i <= |specs|
      invariant Indicators(dataDummy, RangeSpecs(specs[..i]), dateRange)
    {
      assert specs[..i + 1][..i] == specs[..i];
      var spec := specs[i];
      if spec.kind == "range" {
        var gen := new DummyGenerator(trainInit, predictEnd, freq, dateRange);
        FreshIndicator(gen.dataDummy, spec.name, spec.start, spec.end);
        var frame := gen.DummyGeneratorRange(spec.name, spec.start, spec.end);
        EarlierNames(specs, i);
        IndicatorsStep(dataDummy, RangeSpecs(specs[..i]), dateRange, spec, frame);
        dataDummy := AssignFrame(dataDummy, spec.name, frame);
      }
      i := i + 1;
    }
    assert specs[..i] == specs;
  }

  /** `concat([seasonal.iloc[:, 0], stationary.iloc[:, 1:], dummies],
      axis=1)`: the dependent column, the differenced explanatory columns and
      the indicators, over every date any of them has. */
  function DesignMatrix(seasonalWin: Table, statWin: Table, dummy: Table): (t: Table)
    requires Valid(seasonalWin) && Valid(statWin) && Valid(dummy)
    ensures Valid(t)
    ensures t.names == Slice(seasonalWin, 0, 1).names + Slice(statWin, 1, |statWin.names|).names + dummy.names
    ensures forall d :: d in Dates(t.rows) <==>
              d in Dates(seasonalWin.rows) || d in Dates(statWin.rows) || d in Dates(dummy.rows)
  {
    Join(Join(Slice(seasonalWin, 0, 1), Slice(statWin, 1, |statWin.names|)), dummy)
  }

  /** Each date of the design matrix holds the dependent value from the
      (seasonally adjusted) table, the differenced explanatory values, then
      the indicators. */
  lemma DesignMatrixCells(seasonalWin: Table, statWin: Table, dummy: Table, d: Date)
    requires Valid(seasonalWin) && Valid(statWin) && Valid(dummy)
    ensures CellsAt(DesignMatrix(seasonalWin, statWin, dummy), d) ==
            CellsAt(Slice(seasonalWin, 0, 1), d) + CellsAt(Slice(statWin, 1, |statWin.names|), d) + CellsAt(dummy, d)
  {
    var a := Slice(seasonalWin, 0, 1);
    var b := Slice(statWin, 1, |statWin.names|);
    CellsAtJoin(Join(a, b), dummy, d);
    CellsAtJoin(a, b, d);
  }

  /** `data_model[index <= date_train_end].dropna()`: the training rows. */
  function TrainingRows(dm: Table, trainEnd: Date): (t: Table)
    requires Valid(dm)
    ensures Valid(t) && t.names == dm.names
    ensures forall x :: x in t.rows <==> x in dm.rows && x.date <= trainEnd && Complete(x)
  {
    DropMissingRows(UpTo(dm, trainEnd))
  }

  /** `concat([stationary[index > end], dummies[index > end]], axis=1)`: the
      regressors for the forecast dates. */
  function ForecastRegressors(statWin: Table, dummy: Table, trainEnd: Date): (t: Table)
    requires Valid(statWin) && Valid(dummy)
    ensures Valid(t) && t.names == statWin.names + dummy.names
    ensures forall i :: 0 <= i < |t.rows| ==> t.rows[i].date > trainEnd
    ensures forall d :: d in Dates(t.rows) <==> d > trainEnd && (d in Dates(statWin.rows) || d in Dates(dummy.rows))
  {
    var a := After(statWin, trainEnd);
    var b := After(dummy, trainEnd);
    var t := Join(a, b);
    DatesAfter(statWin, trainEnd);
    DatesAfter(dummy, trainEnd);
    forall i | 0 <= i < |t.rows| ensures t.rows[i].date > trainEnd {
      var d := t.rows[i].date;
      assert d == Dates(t.rows)[i];
      if d in Dates(a.rows) {
        var j :| 0 <= j < |a.rows| && Dates(a.rows)[j] == d;
        assert a.rows[j] in a.rows;
      } else {
        var j :| 0 <= j < |b.rows| && Dates(b.rows)[j] == d;
        assert b.rows[j] in b.rows;
      }
    }
    t
  }

  /** Each forecast date holds that date's stationary values followed by its
      indicators; no date up to the end of training has any. */
  lemma ForecastRegressorsCells(statWin: Table, dummy: Table, trainEnd: Date, d: Date)
    requires Valid(statWin) && Valid(dummy)
    ensures CellsAt(ForecastRegressors(statWin, dummy, trainEnd), d) ==
            if d > trainEnd then CellsAt(statWin, d) + CellsAt(dummy, d)
            else Blank(|statWin.names| + |dummy.names|)
  {
    CellsAtJoin(After(statWin, trainEnd), After(dummy, trainEnd), d);
    CellsAtAfter(statWin, trainEnd, d);
    CellsAtAfter(dummy, trainEnd, d);
    BlankSplit(|statWin.names|, |dummy.names|);
  }

  /** Every training row comes before every forecast row, so the two never
      share a date. */
  lemma TrainingBeforeForecast(dm: Table, statWin: Table, dummy: Table, trainEnd: Date)
    requires Valid(dm) && Valid(statWin) && Valid(dummy)
    ensures var train := TrainingRows(dm, trainEnd);
            var fore := ForecastRegressors(statWin, dummy, trainEnd);
            forall i, j :: 0 <= i < |train.rows| && 0 <= j < |fore.rows| ==> train.rows[i].date < fore.rows[j].date
  {
    var train := TrainingRows(dm, trainEnd);
    forall i | 0 <= i < |train.rows| ensures train.rows[i].date <= trainEnd {
      assert train.rows[i] in train.rows;
    }
  }

  /** `iloc[:, 0:1]` keeps the first name, `iloc[:, 1:]` the rest. */
  lemma SliceNames(t: Table)
    requires Valid(t) && |t.names| > 0
    ensures Slice(t, 0, 1).names == [t.names[0]]
    ensures Slice(t, 1, |t.names|).names == t.names[1..]
  {
  }

  /** The design matrix's columns: the dependent one, the explanatory ones
      after the first of the stationary table, then the indicators. */
  lemma DesignMatrixNames(seasonalWin: Table, statWin: Table, dummy: Table)
    requires Valid(seasonalWin) && Valid(statWin) && Valid(dummy)
    requires |seasonalWin.names| > 0 && |statWin.names| > 0
    ensures DesignMatrix(seasonalWin, statWin, dummy).names ==
            [seasonalWin.names[0]] + (statWin.names[1..] + dummy.names)
  {
    SliceNames(seasonalWin);
    SliceNames(statWin);
  }

  /** The training regressors: the explanatory columns, then the
      indicators. */
  lemma TrainingRegressorNames(seasonalWin: Table, statWin: Table, dummy: Table, trainEnd: Date)
    requires Valid(seasonalWin) && Valid(statWin) && Valid(dummy)
    requires |seasonalWin.names| > 0 && |statWin.names| > 0
    ensures var train := TrainingRows(DesignMatrix(seasonalWin, statWin, dummy), trainEnd);
            Slice(train, 1, |train.names|).names == statWin.names[1..] + dummy.names
  {
    var dm := DesignMatrix(seasonalWin, statWin, dummy);
    DesignMatrixNames(seasonalWin, statWin, dummy);
    var train := TrainingRows(dm, trainEnd);
    SliceNames(train);
  }

  /** The forecast regressors once their first column is dropped: the same
      explanatory columns, then the indicators. */
  lemma ForecastRegressorNames(statWin: Table, dummy: Table, trainEnd: Date)
    requires Valid(statWin) && Valid(dummy) && |statWin.names| > 0
    ensures var fore := ForecastRegressors(statWin, dummy, trainEnd);
            Slice(fore, 1, |fore.names|).names == statWin.names[1..] + dummy.names
  {
    var fore := ForecastRegressors(statWin, dummy, trainEnd);
    SliceNames(fore);
    assert fore.names == [statWin.names[0]] + (statWin.names[1..] + dummy.names);
  }

  /** After the model drops the first column of each, the training
      regressors and the forecast regressors have the same columns in the
      same order. */
  lemma RegressorNamesAgree(seasonalWin: Table, statWin: Table, dummy: Table, trainEnd: Date)
    requires Valid(seasonalWin) && Valid(statWin) && Valid(dummy)
    requires |seasonalWin.names| > 0 && |statWin.names| > 0
    ensures var train := TrainingRows(DesignMatrix(seasonalWin, statWin, dummy), trainEnd);
            var fore := ForecastRegressors(statWin, dummy, trainEnd);
            Slice(train, 1, |train.names|).names == Slice(fore, 1, |fore.names|).names
  {
    TrainingRegressorNames(seasonalWin, statWin, dummy, trainEnd);
    ForecastRegressorNames(statWin, dummy, trainEnd);
  }

  /** What the model receives keeps the split: its training dates all come
      before its forecast dates. */
  lemma SplitBefore(dm: Table, statWin: Table, dummy: Table, trainEnd: Date)
    requires Valid(dm) && Valid(statWin) && Valid(dummy)
    ensures var train := TrainingRows(dm, trainEnd);
            var fore := ForecastRegressors(statWin, dummy, trainEnd);
            Before(Slice(train, 0, 1), Dates(Slice(fore, 1, |fore.names|).rows))
  {
    var train := TrainingRows(dm, trainEnd);
    var fore := ForecastRegressors(statWin, dummy, trainEnd);
    var endog := Slice(train, 0, 1);
    var future := Dates(Slice(fore, 1, |fore.names|).rows);
    TrainingBeforeForecast(dm, statWin, dummy, trainEnd);
    forall i, j | 0 <= i < |endog.rows| && 0 <= j < |future| ensures endog.rows[i].date < future[j] {
      assert endog.rows[i].date == Dates(train.rows)[i];
      assert future[j] == Dates(fore.rows)[j];
    }
  }

  /** z_main.py lines 205-306: the windows of the adjusted and the
      stationary tables, the indicators, the design matrix and the split,
      handed to a new model. */
  method PrepareModel(seasonal: Table, stationary: Table, specs: seq<DummySpec>, trainInit: Date, trainEnd: Date,
                      predictEnd: Date, freq: string, dateRange: seq<Date>, folder: string)
    returns (model: ModelExecute, dataDummy: Table)
    requires Valid(seasonal) && Valid(stationary) && DistinctNames(specs)
    requires IsDateRange(dateRange, trainInit, predictEnd)
    ensures fresh(model) && model.Valid() && !model.executed && model.folder == folder
    ensures RangeSpecs(specs) == [] ==> dataDummy == Table([], [])
    ensures RangeSpecs(specs) != [] ==> (Valid(dataDummy) && Dates(dataDummy.rows) == dateRange &&
              dataDummy.names == NamesOf(RangeSpecs(specs)))
    ensures RangeSpecs(specs) != [] ==>
              forall k :: 0 <= k < |RangeSpecs(specs)| ==>
                Column(dataDummy, k) == IndicatorColumn(dateRange, RangeSpecs(specs)[k].start, RangeSpecs(specs)[k].end)
    ensures Valid(dataDummy)
    ensures var seasonalWin := Between(seasonal, trainInit, predictEnd);
            var statWin := Between(stationary, trainInit, predictEnd);
            var train := TrainingRows(DesignMatrix(seasonalWin, statWin, dataDummy), trainEnd);
            var fore := ForecastRegressors(statWin, dataDummy, trainEnd);
            model.dataEndog == Slice(train, 0, 1) && model.dataExogs == Slice(train, 1, |train.names|) &&
            model.dataExogsFore == Slice(fore, 1, |fore.names|)
    ensures Before(model.dataEndog, Dates(model.dataExogsFore.rows))
  {
    var statWin := Between(stationary, trainInit, predictEnd);
    var seasonalWin := Between(seasonal, trainInit, predictEnd);
    dataDummy := BuildIndicators(specs, trainInit, predictEnd, freq, dateRange);
    var designMatrix := DesignMatrix(seasonalWin, statWin, dataDummy);
    var dataModel := TrainingRows(designMatrix, trainEnd);
    var dataExogsFore := ForecastRegressors(statWin, dataDummy, trainEnd);
    SplitBefore(designMatrix, statWin, dataDummy, trainEnd);
    model := new ModelExecute(dataModel, dataExogsFore, folder);
  }

  /** z_main.py lines 342-346: monthly data goes to `adjust_predict_m`, daily data to
      `adjust_predict_d`, any other frequency to neither. */
  method Dispatch(model: ModelExecute, freq: string, datePredictInit: Date, inSample: seq<real>,
                  r2Score: (seq<Cell>, seq<Cell>) -> real, prediction: seq<Prediction>)
    returns (out: Option<Outcome>, fittedLine: seq<Cell>)
    requires model.Valid() && model.executed
    requires WarmUp(model.dTerm, model.sTerm) < |model.dataEndog.rows| ==>
               |inSample| == |model.dataEndog.rows| - WarmUp(model.dTerm, model.sTerm)
    requires |prediction| == |model.dataExogsFore.rows| + 1
    modifies model`dataEndog, model`dataExogsFore
    ensures model.Valid()
    ensures freq == "MS" || freq == "D" ==>
              out.Some? &&
              Adjusted(model.folder, old(model.dataEndog), old(model.dataExogsFore), WarmUp(model.dTerm, model.sTerm),
                       inSample, r2Score, prediction, out.value, model.dataEndog, model.dataExogsFore)
    ensures freq == "MS" && out.Some? && out.value.Done? ==> fittedLine == PlotFitted(out.value.table, datePredictInit)
    ensures freq != "MS" ==> fittedLine == []
    ensures freq != "MS" && freq != "D" ==>
              out == None && model.dataEndog == old(model.dataEndog) && model.dataExogsFore == old(model.dataExogsFore)
  {
    out := None;
    fittedLine := [];
    if freq == "MS" {
      var o, line := model.AdjustPredictM(datePredictInit, inSample, r2Score, prediction);
      out, fittedLine := Some(o), line;
    }
    if freq == "D" {
      var o := model.AdjustPredict(inSample, r2Score, prediction);
      out := Some(o);
    }
  }
}
