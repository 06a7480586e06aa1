# Stock price predictor: a Dafny model of the forecasting pipeline

The stock price predictor forecasts one dependent series, for example a
share price, from a few explanatory series. It does this for each series
and period in its configuration:

- forecasts every explanatory series over the prediction window with its
  own automatically selected seasonal ARIMA model;
- seasonally adjusts monthly data;
- differences the dependent and explanatory series until an augmented
  Dickey–Fuller (ADF) test accepts them as stationary;
- builds date-range indicator ("dummy") columns;
- joins everything into one design matrix;
- splits that matrix into training rows and forecast regressors;
- fits a regression with seasonal ARIMA errors;
- writes one table that puts the observed values, the in-sample fit, the
  forecast, its standard error and its 95% interval side by side.

This project models that bookkeeping. The statistics are inputs: the ADF
p-value, the selected model's text form, the fitted model's predictions
and forecasts, and the R² score all enter as functions or sequences
supplied by the caller. What the model proves is everything the program
does around them. That covers:

- which rows and columns go where, and when a loop stops;
- what each loop leaves in each field;
- how the forecast rows line up with the training rows;
- what the output table holds, row by row.

Data frames are modelled in module `Frames` (`frames.dfy`):

- A table is a list of column names and a list of rows. Dates are
  strictly increasing, and each row carries one optional number per
  column (`None` is pandas' NaN).
- `concat(axis=1)` is an outer join on the dates (`Join`).
- `frame[name] = column` replaces or appends a column (`AssignColumn`).
- Boolean-mask filters and `dropna` keep the rows that satisfy a
  predicate (`Where`).
- `iloc` column slices are clamped like Python slices (`Slice`).

The modules follow the program's files:

| module | file | flavour |
|---|---|---|
| `Stationarity` | `stationarity.dfy` | class `StationarityDiff`: loops that difference fields in place |
| `Dummy` | `dummy.dfy` | class `DummyGenerator`: a frame field updated by each range call |
| `ExogForecast` | `arima_indep.dfy` | class `ArimaIndep`: the column loop, the text-form parse, the laid-out forecast |
| `ModelExecution` | `model_execute.dfy` | class `ModelExecute`: warm-up, fitted column, R² window, output table |
| `Driver` | `driver.dfy` | the driver's windows, indicator loop, design matrix, split and dispatch |

## Model

| member | source | states |
|---|---|---|
| Frames.Join | z_main.py:263-275 | `concat(axis=1)` keeps both column lists in order. Its dates are exactly those either table has, strictly increasing. |
| Frames.CellsAtJoin | z_main.py:263-275 | At any date, the joined row is the first table's cells followed by the second's, with missing cells where a table lacks the date. |
| Frames.JoinDates | z_main.py:295-306 | If a strictly increasing sequence holds exactly the dates of both tables, the join's index is that sequence. |
| Frames.MergeOrdered | z_main.py:295-306 | When every date of one index precedes every date of the other, the joined index is the first followed by the second. |
| Frames.AssignColumn | h_model_execute.py:250 | `frame[name] = col` keeps the index. It overwrites the column called `name` if there is one and appends it otherwise, leaving every other cell unchanged. |
| Frames.FromColumns | c_pred_indep_var.py:111-117 | Building a frame from an index and columns gives back each column and the index unchanged. |
| Frames.FromItsColumns | c_pred_indep_var.py:111-117 | Taking a frame apart into index and columns and building it again gives the same frame. |
| Frames.Between | z_main.py:205-210 | A row survives the window filter exactly when it was in the table and its date lies in [init, end]. The result is still sorted. |
| Frames.UpTo | z_main.py:292 | A row survives exactly when its date is on or before the bound. |
| Frames.After | z_main.py:299-300 | A row survives exactly when its date is strictly after the bound. |
| Frames.DatesAfter | z_main.py:299-300 | A date is in the filtered index iff the table has it and it is strictly after the bound. |
| Frames.CellsAtAfter | z_main.py:299-300 | At a date after the bound the filtered frame has the table's cells; at any other date it has only missing cells. |
| Frames.DropMissingRows | z_main.py:292 | `dropna()` keeps exactly the rows with no missing cell. |
| Frames.FilterKeepsAll | c_pred_indep_var.py:121 | A filter that every row passes returns the rows unchanged. |
| Frames.FillZero | h_model_execute.py:265 | `fillna(0)` turns every missing cell into 0, keeps every present value, and keeps the index and names. No missing cell is left. |
| Frames.Slice | h_model_execute.py:56-58 | `iloc[:, a:b]` keeps the index and takes the clamped column range `[min(a,w), min(b,w))`, cell by cell. |
| Frames.CellsAtAbsent | h_model_execute.py:303-316 | A date the frame lacks contributes only missing cells to a join. |
| Stationarity.DiffRoundTrip | f_stationarity.py:86 | `diff().fillna(0)` loses nothing beyond the first value: summing the differences from the first value rebuilds the series. |
| Stationarity.DiffPartialSums | f_stationarity.py:86 | Each value equals the first value plus the sum of the differences up to it. |
| Stationarity.DiffColValues | f_stationarity.py:134 | The first difference is 0 (the NaN that `fillna(0)` replaces), and where both operands are present the difference is the value minus the previous value. |
| Stationarity.DiffColAgrees | f_stationarity.py:134 | On a column with no missing cell, the per-column difference is the series difference. |
| Stationarity.GapDiffersFromZeroFill | f_stationarity.py:130-134 | With a gap, the column that is differenced is not the zero-filled column that was tested: `[5, NaN, 7]` differences to all zeros, while its zero-filled form differences to `[0, -5, 7]`. |
| Stationarity.DropMissing | f_stationarity.py:31 | `dropna()` on the dependent column keeps exactly its present values. |
| Stationarity.DropMissingAppend | f_stationarity.py:31 | `dropna()` works cell by cell: on a concatenation it is the concatenation of the results, so order and repeats are kept. |
| Stationarity.DropMissingOne | f_stationarity.py:31 | One cell: a present value is kept and a missing one dropped. |
| Stationarity.DropMissingComplete | f_stationarity.py:31 | On a column with no missing value, `dropna()` returns the series itself. |
| Stationarity.StationarityDiff.constructor | f_stationarity.py:18-38 | The dependent series is column 0 without its missing rows, and the whole table is kept as given. |
| Stationarity.StationarityDiff.DiffData | f_stationarity.py:71-116 | The series is left differenced exactly `countDiff` times. The test accepts the result and rejected every earlier order, so `countDiff` is the least accepted order. |
| Stationarity.StationarityDiff.DiffColumn | f_stationarity.py:128-138 | One column is left differenced the least number of times the test accepts on its zero-filled form. Every other column is unchanged. |
| Stationarity.StationarityDiff.IndependentVarStationarity | f_stationarity.py:119-142 | Every column ends differenced its own least accepted number of times, and the test accepts each final column. |
| Dummy.OnesInRange | g_dummy.py:51-52 | The masked assignment writes 1 into every column of every row dated inside [start, end] and leaves other rows as they were. |
| Dummy.WithRangeColumn | g_dummy.py:49-54 | After a range call, the named column is 1 exactly on the dates in range and 0 elsewhere. Other columns become 1 in range and keep their values outside it. A 0/1 frame stays 0/1. |
| Dummy.EmptyRangeAllZero | g_dummy.py:49-52 | A range whose start lies after its end leaves the new column all 0. |
| Dummy.ReuseOverwritesEarlierColumn | g_dummy.py:51-52 | On a reused generator, a later range writes 1 into an earlier indicator column too. |
| Dummy.DummyGenerator.constructor | g_dummy.py:15-35 | The generator's frame has one row per date of the range and no column. |
| Dummy.DummyGenerator.DummyGeneratorRange | g_dummy.py:38-54 | The frame field becomes the range-assigned frame and is returned. |
| ExogForecast.ReadDigitsSpec | c_pred_indep_var.py:80-85 | Reading the digit positions succeeds iff every position holds a decimal digit, and yields their values. It fails at the first position that is past the end (IndexError) or not a digit (ValueError). |
| ExogForecast.ParsableReads | c_pred_indep_var.py:80-85 | The text parses iff all six positions 7, 9, 11, 14, 16 and 18 are readable digits. |
| ExogForecast.ParseOrdersAsWritten | c_pred_indep_var.py:80-85 | As written, a parsable text yields p from position 7, q from 9, d from 11 and P, D, Q from 14, 16 and 18. It fails exactly when some position is unreadable, at the first such one. |
| ExogForecast.ParseOrders | c_pred_indep_var.py:80-85 | The intended reading succeeds iff the text is parsable, and yields single-digit orders. |
| ExogForecast.ParseOrdersFailure | c_pred_indep_var.py:80-85 | The intended reading fails at the first unreadable position, with the error `int()` or indexing raises there. |
| ExogForecast.DigitChar | c_pred_indep_var.py:80-85 | Rendering a single digit and reading it back gives the digit. |
| ExogForecast.Render | c_pred_indep_var.py:78 | The text form `" ARIMA(p,d,q)(P,D,Q)" + tail` has 20 characters before the tail. |
| ExogForecast.ParseRender | c_pred_indep_var.py:78-85 | Round trip: reading the selected model's text form gives back its orders. |
| ExogForecast.AsWrittenSwapsDQ | c_pred_indep_var.py:81-82 | The code as written returns the intended orders with d and q exchanged, and fails on the same texts. |
| ExogForecast.AsWrittenRightIffDEqualsQ | c_pred_indep_var.py:81-82 | The as-written parse is right on a rendered text iff d equals q. |
| ExogForecast.AsWrittenMisreadsExample | c_pred_indep_var.py:81-82 | `" ARIMA(0,1,2)(0,1,1)[12] intercept"` is read as `d = 2`, `q = 1`. |
| ExogForecast.ShortTextFails | c_pred_indep_var.py:85 | A text of at most 18 characters whose earlier positions are digits fails with an IndexError at position 18. |
| ExogForecast.Slug | c_pred_indep_var.py:47 | `replace(" ", "_").lower()` keeps the length, turns each space into `_`, lower-cases each capital letter (code + 32), leaves no space and no capital letter, and keeps every other character. |
| ExogForecast.SlugIdempotent | c_pred_indep_var.py:47 | Slugging twice is slugging once. |
| ExogForecast.Laid | c_pred_indep_var.py:111-119 | The forecast frame is indexed by the prediction dates and holds each column's forecast in order. The dependent column is appended (or overwritten) and entirely empty. |
| ExogForecast.Assembled | c_pred_indep_var.py:113-121 | After the final filter no row is dated after the end of the prediction window, and the columns are those laid out. |
| ExogForecast.AssembledKeepsAll | c_pred_indep_var.py:101-121 | Because the forecast dates are the range ending at the end of the window, the final filter drops nothing. |
| ExogForecast.AssembledContents | c_pred_indep_var.py:101-121 | The written frame has one row per prediction date, each holding every column's forecast for that step and an empty dependent cell. |
| ExogForecast.ArimaIndep.constructor | c_pred_indep_var.py:22-47 | Keeps the settings and the training table, and no model has been fitted yet. |
| ExogForecast.ArimaIndep.FitColumn | c_pred_indep_var.py:62-109 | One column pass: the orders are the parse of the selected text form. A failed parse raises before the fit, leaving the last fit unchanged. Otherwise the last fit becomes this column's model and the forecast is its forecast. |
| ExogForecast.ArimaIndep.AutoArimaModel | c_pred_indep_var.py:50-121 | With no column the run fails. On success, every column parsed, the result is the assembled frame of all forecasts, and the last fit is the last column's. Otherwise it stops at the first column whose text does not parse, reports that column and keeps the fit of the column before. |
| ModelExecution.SliceBound | h_model_execute.py:257-258 | Python's slice-bound rule: a negative bound counts from the end and is clamped at 0; a bound past the end is clamped to the length; any other is itself. |
| ModelExecution.R2Window | h_model_execute.py:253-258 | While warm-up rows remain, `iloc[k-n : -1]` scores rows k to n-2: from the first fitted value, leaving out the last row. The window is empty iff k = n-1. |
| ModelExecution.FittedColumn | h_model_execute.py:249-250 | The fitted column is missing on the first `D*s+1` rows and holds the in-sample predictions, in order, from there on. |
| ModelExecution.PresentFitted | h_model_execute.py:249-250 | Exactly as many fitted values are present as residuals are kept. |
| ModelExecution.R2WindowFitted | h_model_execute.py:253-258 | Inside the R² window every fitted value is present: R² compares the in-sample predictions except the last. |
| ModelExecution.MeanFrame | h_model_execute.py:275-280 | Forecast date i carries prediction i's mean. |
| ModelExecution.SeFrame | h_model_execute.py:282-287 | Forecast date i carries prediction i+1's standard error. |
| ModelExecution.CiFrame | h_model_execute.py:289-294 | Forecast date i carries prediction i's 95% bounds. |
| ModelExecution.UndatedRow | h_model_execute.py:290-294 | The interval row left over has no date and six cells, of which the observed, fitted, mean and standard-error cells are missing. |
| ModelExecution.Forecasts | h_model_execute.py:303-316 | The join of the fitted frame and the three forecast frames is sorted and four columns wider. |
| ModelExecution.Joined | h_model_execute.py:303-316 | The joined rows are all dated and six cells wide, followed by the undated interval row. |
| ModelExecution.Reconciled | h_model_execute.py:303-330 | Dropping the first row leaves as many rows as the dated join, each six cells wide, ending with the undated interval row and carrying the six output names. |
| ModelExecution.ForecastsDates | h_model_execute.py:303-316 | When the forecast dates follow the training dates, the joined index is the training index followed by the forecast dates. |
| ModelExecution.ForecastsCellsAt | h_model_execute.py:303-316 | At any date, the joined row is the fitted frame's cells, then mean, standard error and interval. |
| ModelExecution.ForecastsTrainingCells | h_model_execute.py:303-316 | A training date gets its observed and fitted values and four missing cells. |
| ModelExecution.ForecastsFutureCells | h_model_execute.py:303-316 | A forecast date gets two missing cells, then mean i, standard error i+1 and interval i. |
| ModelExecution.ForecastsTrainingRow | h_model_execute.py:303-316 | The j-th joined row is the j-th training row, widened by four missing cells. |
| ModelExecution.ForecastsFutureRow | h_model_execute.py:303-316 | The joined row after the training rows at offset i is forecast date i with its four forecast values. |
| ModelExecution.ReconciledTrainingRows | h_model_execute.py:303-330 | The written rows before the forecast are the training rows from the second on, unchanged and widened by four missing cells. |
| ModelExecution.ReconciledFutureRows | h_model_execute.py:275-330 | The written row for forecast date i holds mean i, standard error i+1 and interval i, with no observed or fitted value. |
| ModelExecution.ReconciledLayout | h_model_execute.py:275-330 | The whole written table: the training rows from the second on, then one row per forecast date, then the undated interval row. |
| ModelExecution.PlotFitted | h_model_execute.py:346-347 | The plotted fitted line is the table's fitted column, except that the row dated `date_predict_init` shows its predicted value. |
| ModelExecution.PlotJoinsForecast | h_model_execute.py:346-347 | When `date_predict_init` is the first forecast date, the plotted line takes the first predicted mean exactly where the written table has no fitted value, and agrees with the table everywhere else. |
| ModelExecution.AdjustedDone | h_model_execute.py:248-330 | Success case: when the warm-up fits, the fitted column lands second and the R² window is non-empty, the outcome is the R² in percent over that window together with the reconciled table over the zero-filled forecast regressors. |
| ModelExecution.AdjustedOutOfSample | h_model_execute.py:249-250 | Failure case: a warm-up that reaches past the training rows fails before anything changes. |
| ModelExecution.AdjustedFailed | h_model_execute.py:250-258 | Failure case: a fitted column that is not there to read (`iloc[:, 1]` out of bounds) or an empty R² window fails after the fitted column is assigned and before the forecast regressors are filled. |
| ModelExecution.AssignFittedShape | h_model_execute.py:250 | Assigning the fitted column keeps the dependent frame to its own column plus, second, the fitted one. |
| ModelExecution.ModelExecute.constructor | h_model_execute.py:34-72 | The dependent frame is the first training column, the regressors are the rest, and the forecast regressors lose their first column. |
| ModelExecution.ModelExecute.Execute | h_model_execute.py:74-110 | Records the seven orders and `D`, `s`, and keeps the residuals from position `D*s+1` on (none if the warm-up covers them all). |
| ModelExecution.ModelExecute.AdjustPredict | h_model_execute.py:421-521 | The daily step leaves the state and returns the outcome that `Adjusted` prescribes for each case. |
| ModelExecution.ModelExecute.AdjustPredictM | h_model_execute.py:243-347 | The monthly step does the same, then returns the plotted fitted line of the written table. |
| Driver.ExogInput | z_main.py:65 | The regressor-forecast input keeps exactly the rows up to the end of training. |
| Driver.SeasonalTable | z_main.py:120-157 | Monthly data uses the seasonally adjusted table itself. Otherwise it has the dependent names followed by the explanatory ones, and exactly the dates either table has. |
| Driver.UnadjustedCells | z_main.py:149-157 | Without adjustment, each date holds the dependent values followed by the explanatory ones. |
| Driver.RangeSpecs | z_main.py:240-242 | The entries that make a column are exactly those of type `range`. |
| Driver.RangeSpecsAppend | z_main.py:240-242 | Selection works entry by entry: selecting from a concatenation concatenates the selections, so order is kept. |
| Driver.RangeSpecsOne | z_main.py:240-242 | One entry: itself if it is of type `range`, nothing otherwise. |
| Driver.RangeSpecsSnoc | z_main.py:240-242 | Appending one entry appends it to the selection exactly when it is of type `range`. |
| Driver.IndicatorColumn | g_dummy.py:49-52 | An indicator is 1 iff the date lies in its range, and 0 iff it does not. |
| Driver.FreshIndicator | z_main.py:244-258 | A fresh generator's frame after one range call has one column, exactly the indicator of that range. |
| Driver.AlignedSameIndex | z_main.py:252 | Two frames on the same index align row by row. |
| Driver.EarlierNames | z_main.py:240 | With distinct entry names, a new entry's name is not among the columns already built. |
| Driver.IndicatorsStep | z_main.py:252-258 | One range entry adds its indicator after those already there: the first comes with the generator's index, and later ones are aligned on it. |
| Driver.BuildIndicators | z_main.py:237-258 | With no range entry the indicator frame stays empty. Otherwise it is indexed by the model's date range and holds one column per range entry, in order, each the indicator of its range. |
| Driver.DesignMatrix | z_main.py:263-275 | The design matrix's columns are the dependent one, the explanatory ones after the first, then the indicators, over every date any table has. |
| Driver.DesignMatrixCells | z_main.py:263-275 | Each date holds the dependent value, the differenced explanatory values, then the indicators. |
| Driver.DesignMatrixNames | z_main.py:263-275 | The design matrix's names are `[dependent] + explanatory[1..] + indicators`. |
| Driver.TrainingRows | z_main.py:292 | The training rows are exactly the design-matrix rows up to the end of training with no missing cell. |
| Driver.ForecastRegressors | z_main.py:295-306 | The forecast regressors are the stationary columns, then the indicators. A date is in their index iff it is strictly after the end of training and either table has it. |
| Driver.ForecastRegressorsCells | z_main.py:295-306 | After the end of training, a date holds the stationary cells followed by the indicator cells, missing where a table lacks it. Before or at it, only missing cells. |
| Driver.TrainingBeforeForecast | z_main.py:292-306 | Every training date precedes every forecast date. |
| Driver.SliceNames | h_model_execute.py:56-58 | Splitting off the first column gives that column and the rest. |
| Driver.TrainingRegressorNames | h_model_execute.py:57 | The training regressors are the explanatory columns, then the indicators. |
| Driver.ForecastRegressorNames | h_model_execute.py:58 | The forecast regressors, once their first column is dropped, are the same explanatory columns, then the indicators. |
| Driver.RegressorNamesAgree | z_main.py:263-306 | The model is trained and forecast on the same regressors in the same order. |
| Driver.SplitBefore | z_main.py:292-313 | What the model receives keeps the split: its training dates precede its forecast dates. |
| Driver.PrepareModel | z_main.py:205-324 | The model gets the windowed training rows and forecast regressors, split as the constructor does. The indicators are the range entries, in order, over the model's date range, and indicator k is 1 on the dates of its range and 0 elsewhere. The training dates precede the forecast dates. |
| Driver.Dispatch | z_main.py:342-346 | Monthly data runs the monthly step and daily data the daily step, each with its full outcome. Any other frequency changes nothing. |

## Left out

- Files, folders and plots are not modelled: CSV reads and writes, directory setup, summaries written to text, and every figure. The one exception is the fitted line of the monthly plot, which is modelled because it overwrites a value after the table is written.
- The statistics are inputs, not computations:
  - the ADF p-value;
  - `auto_arima`'s model choice and its text form;
  - the SARIMAX fit, residuals, in-sample predictions and forecast summary;
  - `r2_score`.
  Their numerical correctness and floating point are outside the model.
- The ADF reports of `adf_teste` and `diff_data` (f_stationarity.py:41-68, 91-112) only format numbers into files, so they are not modelled.
- `date_range` is an input: a strictly increasing sequence from the start to at most the end. Calendar semantics of `freq` are not modelled.
- X-13ARIMA-SEATS seasonal adjustment (e_x13arima_seas_adjust.py), data input (b_data_input.py) and descriptive statistics (d_descriptive_statistics.py) are not part of this model. The adjusted table is an input to `Driver.SeasonalTable`.
- The `except` branch of z_main.py:277-290 is not modelled. It drops the indicators if the join raises, and the join of sorted tables modelled here never raises.
- The `Driver` module is not itself a class. It models the driver's per-series steps that build values from the tables read back, and its loop over settings is left to the caller.
- Stationarity.StationarityDiff.DiffData: requires that some number of differences is accepted. Without that the source's loop never ends, so the model does not capture non-termination.
- Stationarity.StationarityDiff.IndependentVarStationarity: requires the same of every column, for the same reason.
- Stationarity.StationarityDiff.IndependentVarStationarity: returns the order reached per column as a ghost value. The source does not record it.
- The residual plots and the daily forecast plot (h_model_execute.py:113-240, 523-603) are not modelled, including the daily plot's tail window.
- ModelExecution.ModelExecute.Execute: requires one residual per training row, and AdjustPredict requires one in-sample prediction per row from the warm-up on. statsmodels' own shape checks are not modelled.
- ModelExecution.ModelExecute.AdjustPredict: requires one more prediction row than forecast dates, which is what `get_prediction` over the asked range returns. A forecast of zero steps is not treated separately.
- Writing `''` into the dependent column (c_pred_indep_var.py:119) is modelled as a missing cell, since both print as an empty CSV field. The type difference is not captured.
- ExogForecast.ParseOrders: `int()` on a single character is modelled for ASCII digits only. Other Unicode decimal digits are not accepted.
- ExogForecast.Slug: lower-cases ASCII letters only. Unicode case mapping is not modelled.
- The undated row of the output table is placed last, which is where pandas sorts NaT. Sorting of NaT is not derived.
- Column names within a table are assumed distinct, as pandas would otherwise create duplicate columns. Driver.BuildIndicators requires distinct indicator names for the same reason.
- Object identity and aliasing between frames (pandas views versus copies) are not modelled: every frame is a value.
- ExogForecast.ArimaIndep.AutoArimaModel: reads the orders with the corrected parse (see Findings). The as-written parse is modelled beside it.
- ExogForecast.ArimaIndep.FitColumn: refits with the orders from the corrected `ParseOrders`, that is `(p, d, q)`. c_pred_indep_var.py:80-82 as written reads `(p, q, d)`; ExogForecast.AsWrittenSwapsDQ relates the two, and the refit differs exactly when d and q differ.
- The range passed to `get_prediction` (h_model_execute.py:267-273) is not a separate function. It appears as ModelExecution.ModelExecute.AdjustPredict's requirement of one prediction row per forecast date plus one, the first made at the last training position.

## Findings

| source | as written | input that shows it | evidently intended | confidence | as-written member | corrected member |
|---|---|---|---|---|---|---|
| c_pred_indep_var.py:80-82 | `q` is read from position 9 and `d` from position 11 of the text `" ARIMA(p,d,q)(P,D,Q)[m] intercept"`, so the refit uses order `(p, q, d)` | `" ARIMA(0,1,2)(0,1,1)[12] intercept"` gives `d = 2, q = 1` | `d` from position 9 and `q` from position 11, so the refit uses the selected `(p, d, q)` | not executed | ExogForecast.ParseOrdersAsWritten | ExogForecast.ParseOrders |
