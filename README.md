# QuantXVision forecasting core in Dafny

QuantXVision is a stock forecasting dashboard for the NIFTY-50 equities. This
project models its core:

- **Indicator engine** (`src/features.py`): per-stock SMA_20, SMA_50, Returns,
  Volatility_20 and RSI_14, then concatenation and `dropna()`.
- **Batch trainers**:
  - the LSTM trainer (`src/train_lstm_model.py`): MinMaxScaler, 60-step
    training windows, one network and one scaler per stock;
  - the random-forest trainer (`src/train_rf_model.py`): next-day-close
    labels and an 80/20 time split;
  - the Prophet trainer (`src/train_prophet_model.py`): a (ds, y) frame per
    stock with at least 300 rows;
  - the ARIMA baseline (`src/models/classical/arima_model.py`): ADF-driven
    differencing, an 80/20 time split and order (5, d, 0).
- **Forecasters**:
  - `predict_lstm`: a 60-wide window rolled forward one prediction at a time
    and dated with the following business days;
  - `predict_prophet`: the last `365 × years` rows of the model's future frame.
- **Market Analysis page**: display names, the date-range filter, the latest
  row, and trend, RSI and trading signals.

How the model is built:

- **Tables.** Tables are sequences of row records. Dates are day numbers, and
  pandas' NaN is `None`.
- **The `models/` directory.** It is the `Registry.ArtifactStore` class: one map
  per kind of file, keyed by path. The trainers change it in place, through
  methods with `modifies` clauses.
- **Loops.** Each loop of the source is a method whose loop invariant ties it
  to a recursive specification function. The properties are proved as lemmas
  about that function:
  - `Batch.Run` is shared by the random-forest and Prophet trainers;
  - `LstmTraining.SavedLstm` is the LSTM trainer's loop;
  - `LstmService.Rollout` is the forecast loop;
  - `Arima.Differenced` is the differencing loop.
- **Fitting libraries.** An artifact records what it was fitted on. What a
  loaded model predicts is a function parameter: the network's
  `model.predict`, Prophet's future frame and `yhat`, and the ADF test's
  p-value.
- **Exceptions.** In the random-forest and Prophet trainers, the `try` block
  becomes two parameters. The `raises` set holds the stocks whose fit raises;
  no file is written for them. `torn(stock)` is what a `joblib.dump` that raises
  leaves at the model path, which it opened before pickling.

Behaviours of the code that the model keeps as written:

- **RSI on a flat window.** A 14-day window with no price change gives
  `avg_gain / avg_loss = 0 / 0`, which is NaN. The RSI is then undefined and
  the row is dropped (`Features.RsiFormula`, `Features.RsiDefinedAfterWarmUp`).
  An all-gains window gives an infinite `rs` and an RSI of 100.
- **Signal thresholds.** The RSI condition calls 70 and 30 neutral, and the
  suggested action needs an RSI strictly below 70 to buy and strictly above 30
  to sell. So an uptrend at RSI exactly 70, or a downtrend at exactly 30, is a
  hold (`MarketAnalysis.SignalBoundaries`).
- **Indicator rows dropped.** Each stock loses its first 49 rows by date. Later
  rows with a flat RSI window are dropped too (`Features.CompleteAfterWarmUp`).
- **No stocks.** `build_all_indicators` on an empty table calls `pd.concat` on an
  empty list, which raises. `Features.BuildAll` fails with
  `NoObjectsToConcatenate` exactly then.
- **Forecast dates after a weekend.** `predict_lstm` dates its forecast with
  `bdate_range(start=last, periods=n + 1)[1:]`. When the history ends on a
  weekend, the range starts on the Monday and `[1:]` drops it, so the first
  forecast is dated Tuesday (`LstmService.SaturdayHistorySkipsMonday`).
- **Zero-day forecast.** `predict_lstm` with `future_days = 0` reaches
  `inverse_transform` with zero rows, which raises. The model returns
  `EmptyForecast`.
- **ARIMA differencing.** `run_arima` fits ARIMA(5, d, 0) on a series that
  `make_stationary` has already differenced d times. The order's own d then
  differences it again, so the autoregressive part sees the closes differenced
  2d times (`Arima.DiffNAdd`).
- **The 80/20 split.** `int(n * 0.8)` is modelled as `n * 8 / 10`. The
  difference could only come from floating-point rounding, which is not
  modelled.

## Model

| member | source | states |
|---|---|---|
| Sequences.Unique | src/features.py:68 | `unique()` returns each stock once, keeps exactly the stocks of the column, and is no longer than the column |
| Sequences.UniqueFirstAppearance | src/features.py:68 | `unique()` lists the stocks in order of first appearance: an earlier stock of the result occurs in the column before the first occurrence of a later one |
| Frames.PriceRowsOf | src/features.py:72 | `df[df["Stock"] == stock]` keeps exactly the rows of the table that belong to that stock: each kept row is one of them, and each of them is kept |
| Frames.TechRowsOf | src/train_rf_model.py:102 | the same selection on the technical table: exactly the rows of that stock |
| Frames.SortPricesByDate | src/features.py:22 | `sort_values("Date")` returns a permutation of the rows, sorted by date |
| Frames.StockHistory | src/train_prophet_model.py:59-60 | one stock's rows in date order: a permutation of its rows, sorted by date, each of them from the table and of that stock, and every row of that stock present |
| Frames.TechHistory | app/pages/2_Market_Analysis.py:41 | the same selection and sort on the technical table, every row of the stock present |
| Features.ComputeIndicators | src/features.py:17-55 | one output row per input row; the original columns come out unchanged, as a permutation of the input sorted by date |
| Features.RollingMean | src/features.py:27-28 | `rolling(w).mean()` is defined only from row w-1 on, and only when every value of its window is present |
| Features.RollingVariance | src/features.py:38 | the rolling sample variance is defined only when the whole window is present, and is never negative |
| Features.PctChange | src/features.py:33 | `pct_change()` has one value per close, defined exactly from row 1 on where the previous close is non-zero |
| Features.RsiAt | src/features.py:43-53 | RSI_14 at row i is defined only from row 14 on, and then lies in [0, 100] |
| Features.IndicatorsAt | src/features.py:22-53 | row i keeps the i-th row by date; SMA_20 and SMA_50 are defined exactly from rows 19 and 49 on; Returns exactly from row 1 on where the previous close is non-zero; Volatility_20 only from row 20 on and non-negative; RSI_14 only from row 14 on and within [0, 100] |
| Features.ComputeIndicatorsColumns | src/features.py:22-53 | row i of the computed frame is the i-th row by date with each indicator column computed on the closes in date order |
| Features.RollingPrefix | src/features.py:27-38 | a rolling window at row i reads no value after row i |
| Features.IndicatorsNoLookAhead | src/features.py:22-53 | the indicators of a row depend only on the rows up to it by date: cutting off later rows leaves them unchanged |
| Features.SmaDefinedFrom | src/features.py:27-28 | the w-day SMA is defined exactly from row w-1 on |
| Features.SmaIsWindowMean | src/features.py:27-28 | where defined, the SMA is the mean of the last w closes and lies within any bounds of those closes |
| Features.ReturnsCompound | src/features.py:33 | Returns is defined exactly from row 1 on where the previous close is non-zero; compounding the previous close by it gives the close |
| Features.VarianceDefinedFrom20 | src/features.py:38 | with no zero close, the squared Volatility_20 is defined exactly from row 20 on and is never negative |
| Features.GainLossSplit | src/features.py:46-47 | gain and loss are non-negative, at most one of them is non-zero, and their difference is the delta |
| Features.RsiFromWindows | src/features.py:44-53 | from row 14 on, RSI_14 is computed from the means of the 14 gains and the 14 losses of its window |
| Features.FlatWindow | src/features.py:44-50 | both window sums are zero exactly when all 14 deltas are zero |
| Features.RsiFormula | src/features.py:52-53 | RSI is 100·g/(g+l), in [0, 100), when the window has losses; 100 with gains only; undefined with neither |
| Features.RsiDefinedAfterWarmUp | src/features.py:43-53 | RSI_14 is defined exactly from row 14 on, when the window's deltas are not all zero, and lies in [0, 100] |
| Features.DropNa | src/features.py:77 | `dropna()` keeps exactly the rows with no missing indicator |
| Features.CompleteAfterWarmUp | src/features.py:27-53 | with no zero close, a row survives `dropna()` exactly when it is at least the 50th row by date and its RSI is defined |
| Features.WarmUpRowsDropped | src/features.py:62-77 | every stock loses at least its first 49 rows by date |
| Features.BuildAllIndicators | src/features.py:62-79 | an empty table fails with `NoObjectsToConcatenate` (`pd.concat` of an empty list), and only it; otherwise the loop computes one frame per stock, in order of first appearance, concatenates them and drops incomplete rows, and every output row is complete |
| Features.StockIsolation | src/features.py:62-79 | when the build succeeds, one stock's rows in the output are exactly its own indicator rows less the incomplete ones; other stocks do not affect them |
| Symbols.StripSuffix | app/models/lstm_service.py:13 | `replace(".NS", "")` never lengthens the name and only keeps its characters |
| Symbols.StripSuffixNoDot | app/models/lstm_service.py:13 | `replace(".NS", "")` leaves a name without a dot unchanged |
| Symbols.StripSuffixOfTicker | app/models/lstm_service.py:13 | `replace(".NS", "")` turns "NAME.NS" into "NAME" |
| Symbols.LstmPathsShared | src/train_lstm_model.py:87-90 | two stocks share an LSTM network or scaler file exactly when their names without ".NS" agree |
| Symbols.LstmModelNotScaler | src/train_lstm_model.py:89-90 | a network file is never a scaler file |
| Symbols.KeptSuffixPathsInjective | src/train_rf_model.py:92 | distinct stocks never share a Prophet, random-forest or ARIMA model file |
| Symbols.SortedSymbolsSpec | src/train_rf_model.py:81 | `sorted(df["Stock"].unique())` is in Python's string order, holds each stock once, and holds exactly the stocks of the table |
| Registry.ScalerRoundTrip | app/models/lstm_service.py:18-32 | `inverse_transform` undoes `transform` and the other way round |
| LstmTraining.DataRange | src/train_lstm_model.py:62-63 | the scaler's range is positive: the data range, or 1 for a flat series |
| LstmTraining.FitMinMax | src/train_lstm_model.py:62-63 | the fitted scaler has a positive scale, so it preserves the order of prices |
| LstmTraining.MinMaxScalesIntoUnit | src/train_lstm_model.py:62-63 | the fitted scaler maps every close into [0, 1], the smallest to 0 and, unless the series is flat, the largest to 1 |
| LstmTraining.TrainingPairs | src/train_lstm_model.py:39-44 | pair k is the window `data[k..k+lookback]` with target `data[k+lookback]`; there are `len(data) - lookback` pairs, or none |
| LstmTraining.CreateSequences | src/train_lstm_model.py:39-44 | the loop builds exactly those pairs |
| LstmTraining.WindowsSlide | src/train_lstm_model.py:39-44 | the next window is the previous one less its oldest value, followed by the previous target |
| LstmTraining.TeacherForcing | src/train_lstm_model.py:66-84 | a network that reproduces every training target regenerates the rest of the series when the forecast loop starts from the first 60 values |
| LstmTraining.TrainStock | src/train_lstm_model.py:54-90 | the loop body: a stock with fewer than 200 closes leaves the store unchanged; any other one has its network and scaler written; no other directory changes |
| LstmTraining.TrainAll | src/train_lstm_model.py:50-92 | the loop leaves the network and scaler files as the specification function says, and no other directory changes |
| LstmTraining.TrainLstmModels | src/train_lstm_model.py:29-92 | the script runs over the sorted distinct stocks of the price table |
| LstmTraining.TrainedStockArtifacts | src/train_lstm_model.py:50-90 | a stock with at least 200 closes, whose name without ".NS" no other stock shares, ends with the network and scaler fitted on its own closes |
| LstmTraining.UntouchedPaths | src/train_lstm_model.py:50-90 | a path that no trained stock writes keeps what it held before the run |
| LstmService.Rollout | app/models/lstm_service.py:23-28 | the loop makes exactly `future_days` predictions |
| LstmService.RolloutStep | app/models/lstm_service.py:21-28 | step k of the loop predicts from the last 60 values of the initial window followed by the k predictions made so far |
| LstmService.RolloutUnique | app/models/lstm_service.py:21-28 | the rollout is the only sequence with that property |
| LstmService.RunRollout | app/models/lstm_service.py:23-28 | the loop returns the rollout and calls the network `future_days` times |
| LstmService.FutureDatesAreNextBusinessDays | app/models/lstm_service.py:34-37 | the forecast dates are consecutive, strictly increasing business days after the last history date, starting with the next business day (after the Monday when that date is a weekend day) |
| LstmService.FutureDates | app/models/lstm_service.py:34-37 | `[1:]` of the `future_days + 1` business dates leaves `future_days` dates |
| Calendar.BDateRange | app/models/lstm_service.py:34-37 | `bdate_range(start, periods=n)` gives n consecutive business days, the first being the first business day on or after `start` |
| LstmService.SaturdayHistorySkipsMonday | app/models/lstm_service.py:34-37 | a history ending on a Saturday is forecast from the Tuesday, and the Monday is a business day |
| LstmService.PredictLstm | app/models/lstm_service.py:11-39 | a missing network or scaler file fails with that path; fewer than 60 closes fails; zero days fails; otherwise the result is the dated, inverse-scaled rollout from the last 60 scaled closes |
| LstmService.ForecastFeedsBack | app/models/lstm_service.py:18-32 | the forecast holds `future_days` dated prices, and each price, scaled, is the network's prediction from the last 60 scaled closes followed by the scaled earlier forecasts |
| LstmService.LstmForecast | app/models/lstm_service.py:18-37 | a forecast from at least 60 closes has as many dates as prices, `future_days` of each; the dates are consecutive business days after the last history date |
| Arima.CheckStationarity | src/models/classical/arima_model.py:37-54 | a series is found non-stationary only when it has at least 10 points after `dropna` |
| Arima.ShortSeriesNeedsNoTest | src/models/classical/arima_model.py:37-42 | a series with fewer than 10 points after `dropna` counts as stationary, whatever the test says |
| Arima.LongSeriesFollowsTest | src/models/classical/arima_model.py:44-54 | any longer series is stationary exactly when the ADF p-value is below 0.05 |
| Arima.StationarityIgnoresGaps | src/models/classical/arima_model.py:37-38 | the test looks only at the points left by `dropna`: a series and its gap-free version get the same answer |
| Arima.DiffPass | src/models/classical/arima_model.py:74 | `diff().dropna()` shortens a non-empty series and leaves no gap |
| Arima.DiffPassPresent | src/models/classical/arima_model.py:74 | on a series without gaps, `diff().dropna()` is plain first differencing |
| Arima.IntegrateDiff | src/models/classical/arima_model.py:74 | differencing loses only the first value: summing the differences back up from it rebuilds the series |
| Arima.Differenced | src/models/classical/arima_model.py:60-78 | the loop removes at least one point per pass, and after a pass the series has no gap |
| Arima.DifferencedExit | src/models/classical/arima_model.py:60-78 | the loop ends on a series with fewer than 10 points or one the test accepts |
| Arima.DifferencedPresent | src/models/classical/arima_model.py:60-78 | on a series without gaps, the result is the series differenced d times and is d points shorter, and every earlier series was long enough to test and failed the test |
| Arima.StationaryUnchanged | src/models/classical/arima_model.py:71-72 | a series the first test accepts comes back unchanged with d = 0 |
| Arima.MakeStationary | src/models/classical/arima_model.py:60-78 | the `while True` loop returns the differenced series and its d |
| Arima.TimeSplit | src/models/classical/arima_model.py:95-102 | the two parts concatenate to the series, and the first has `int(n * 0.8)` points |
| Arima.TimeSplitSizes | src/models/classical/arima_model.py:95-102 | the test part is the rest, non-empty for a non-empty series, and at least a quarter of the training part |
| Arima.ArimaFit | src/models/classical/arima_model.py:121-128 | the model has order (5, d, 0), with d the number of differencing passes, and is fitted on the first 80% of the series differenced d times |
| Arima.DiffNAdd | src/models/classical/arima_model.py:127-128 | differencing a times, then b times, is differencing a + b times |
| Arima.RunArima | src/models/classical/arima_model.py:115-136 | `models/arima_{stock}.pkl` is written with that fit, replacing any earlier file, and nothing else changes |
| Batch.Record | src/train_rf_model.py:97-119 | one outcome adds one to exactly its own counter |
| Batch.Step | src/train_rf_model.py:89-119 | a stock with a model file is skipped without a write; a skipped stock writes nothing; a trained stock writes its fit under its path; no step touches a path but its own |
| Batch.Run | src/train_rf_model.py:87-119 | trained + skipped + failed is the number of stocks |
| Batch.RunCountsNewFiles | src/train_rf_model.py:87-119 | each `trained` is one new model file and each `failed` adds at most one, the file a failed dump leaves |
| Batch.RunWithoutTornFiles | src/train_rf_model.py:87-119 | when no dump fails, the new model files are exactly the trained stocks |
| Batch.RunKeepsExisting | src/train_rf_model.py:97-100 | a model file that exists before the run is neither replaced nor removed |
| Batch.RunCovers | src/train_rf_model.py:87-119 | after the run every stock has a model file, unless the data guard rejected it or its fit raised |
| Batch.RunLeavesOthers | src/train_rf_model.py:87-119 | a path that is no stock's file is left as it was |
| Batch.RunSavesFit | src/train_rf_model.py:87-119 | a new stock whose fit and save succeed ends with exactly that model under its path; one whose save raised ends with the file the dump left; one rejected or whose fit raised ends with no file |
| Batch.RunWithNothingToDo | src/train_rf_model.py:97-109 | when every stock has a file, is rejected or raises, the run changes nothing and trains nothing |
| Batch.RerunTrainsNothing | src/train_rf_model.py:97-100 | a second run on the same data writes nothing and trains nothing, because every file it could write, a torn one included, exists already |
| RfTraining.Labelled | src/train_rf_model.py:43-44 | `shift(-1)` then `dropna()` leaves every row but the last, labelled with the next row's close |
| RfTraining.TrainSingleStock | src/train_rf_model.py:38-66 | a forest is fitted exactly when the stock has at least 201 rows, on `int(0.8 × (n - 1))` examples, fewer than the n - 1 labelled rows |
| RfTraining.TrainSingleStockSpec | src/train_rf_model.py:38-66 | example i of a fitted forest is day i's five features in date order, labelled with day i+1's close; the last fifth, with the final close, is held out |
| RfTraining.SplitLeavesLastOut | src/train_rf_model.py:52-55 | with at least 200 labelled rows, the split leaves at least one of them out |
| RfTraining.ProcessStock | src/train_rf_model.py:89-119 | the `try` block is one step of the shared loop on the forest directory; the other directories do not change |
| RfTraining.TrainAll | src/train_rf_model.py:87-119 | the loop leaves the forest directory and the counters as the shared loop says |
| RfTraining.RunTraining | src/train_rf_model.py:72-119 | `run_training()` runs that loop over the sorted distinct stocks, with the forest `train_single_stock` fits on each stock's rows |
| RfTraining.RunTrainingSpec | src/train_rf_model.py:72-119 | every stock is counted once, each `trained` is one new file and each `failed` at most one; a new stock ends with its own forest when fit and save succeed, with the torn file when only the save raised, and with no file when rejected or when its fit raised; existing files stay as they were |
| ProphetTraining.FitProphet | src/train_prophet_model.py:59-87 | a model is fitted exactly when the stock has at least 300 rows, on a frame with one point per row |
| ProphetTraining.FitProphetSpec | src/train_prophet_model.py:59-87 | a fitted model's frame is that stock's own (date, close) pairs in date order: every point comes from one of its rows, and every one of its rows is a point |
| ProphetTraining.ProcessStock | src/train_prophet_model.py:46-100 | the `try` block is one step of the shared loop on the Prophet directory; the other directories do not change |
| ProphetTraining.TrainAll | src/train_prophet_model.py:44-100 | the loop leaves the Prophet directory and the counters as the shared loop says |
| ProphetTraining.TrainProphetModels | src/train_prophet_model.py:32-100 | the script runs that loop over the sorted distinct stocks of the price table |
| ProphetTraining.TrainProphetModelsSpec | src/train_prophet_model.py:44-100 | every stock is counted once, each `trained` is one new file and each `failed` at most one; a new stock with at least 300 rows ends with the model on its own frame when fit and save succeed, with the torn file when only the save raised, and with no file when its fit raised; existing files stay as they were |
| ProphetService.Tail | app/models/prophet_service.py:25-28 | `tail(n)` is the last n elements, or all of them when there are fewer |
| ProphetService.PredictProphet | app/models/prophet_service.py:5-28 | a missing model file fails with the stock and the expected path, and only then; otherwise the dates are the last `365 × years` of the future frame, each with the model's `yhat` |
| ProphetService.ForecastCoversNewDates | app/models/prophet_service.py:16-28 | when the future frame is the history followed by the new dates, the forecast covers exactly the new dates, `365 × years` of them |
| ProphetService.ZeroYearsIsEmpty | app/models/prophet_service.py:16-28 | a zero-year horizon forecasts nothing |
| MarketAnalysis.GetTrend | app/pages/2_Market_Analysis.py:112-118 | uptrend exactly when price > SMA20 > SMA50; downtrend exactly when price < SMA20 < SMA50; sideways otherwise |
| MarketAnalysis.GetRsiSignal | app/pages/2_Market_Analysis.py:120-126 | overbought exactly above 70, oversold exactly below 30, neutral in [30, 70] |
| MarketAnalysis.TradingSignal | app/pages/2_Market_Analysis.py:234-240 | buy exactly when price > SMA20 and RSI < 70; sell exactly when price < SMA20 and RSI > 30; hold otherwise |
| MarketAnalysis.SignalFollowsTrend | app/pages/2_Market_Analysis.py:234-240 | an uptrend with RSI below 70 is a buy, and a downtrend with RSI above 30 is a sell; an overbought stock is never a buy and an oversold one never a sell; a price on its SMA20 is a hold |
| MarketAnalysis.SignalBoundaries | app/pages/2_Market_Analysis.py:120-240 | an uptrend at RSI exactly 70 and a downtrend at RSI exactly 30 are neutral in the RSI condition yet hold in the suggested action |
| MarketAnalysis.DisplayMap | app/pages/2_Market_Analysis.py:36 | every display name maps to a listed stock whose name without ".NS" it is |
| MarketAnalysis.DisplayMapOffersEveryStock | app/pages/2_Market_Analysis.py:35-39 | every stock is offered under its display name, and is the one selected when no other stock shares that name |
| MarketAnalysis.DisplayMapLastWins | app/pages/2_Market_Analysis.py:36 | when stocks share a display name, the last one listed is selected: no stock after it carries that name |
| MarketAnalysis.SelectStock | app/pages/2_Market_Analysis.py:38-39 | the selected stock is in the table and its display name is the one chosen |
| MarketAnalysis.InRange | app/pages/2_Market_Analysis.py:77-80 | the filter keeps exactly the rows dated within [start, end], both ends included |
| MarketAnalysis.InRangeKeepsOrder | app/pages/2_Market_Analysis.py:41-80 | filtering rows sorted by date leaves them sorted |
| MarketAnalysis.RowsInRange | app/pages/2_Market_Analysis.py:77-85 | a row of the stock is kept exactly when it lies in the range, so the filtered frame is empty exactly when no such row exists |
| MarketAnalysis.SnapshotStops | app/pages/2_Market_Analysis.py:71-93 | the page stops for a range without two dates, and for an empty range exactly when the stock has no row in it |
| MarketAnalysis.LatestRow | app/pages/2_Market_Analysis.py:100 | `iloc[-1]` of the filtered frame is a row of the stock in the range with the latest date there |
| MarketAnalysis.StockSnapshot | app/pages/2_Market_Analysis.py:71-129 | a range without two dates stops the page; when the page does not stop, it shows the snapshot of a row of the stock in the range with the latest date there |
| MarketAnalysis.MarketSnapshot | app/pages/2_Market_Analysis.py:35-129 | the same for the display name chosen: the row shown belongs to a stock whose name without ".NS" is that display name |

## Left out

- Streamlit layout, charts, captions and the default date range of the Market Analysis page; the Home, Dashboard and Prediction pages; the ARIMA `forecast`, `summary` and plot (`src/models/classical/arima_model.py:108-109`, `:130-144`): these are presentation only.
- CSV reading and writing, `load_stock` (`src/models/classical/arima_model.py:22-31`) and the data download and cleaning scripts: the tables and the loaded close series are parameters. `app/core/config.py` is not part of this model; its directory constants are written into `Symbols`.
- Floating point: prices are mathematical reals, so rounding and overflow are not modelled.
- The fitting libraries (Keras, Prophet, scikit-learn's forest, statsmodels' ARIMA and ADF test): an artifact records what it was fitted on. Predictions, the future frame and the ADF p-value are function parameters. Training randomness (epochs, dropout) is not modelled.
- Features.ComputeIndicators: Volatility_20 is modelled as its square, the rolling sample variance (divisor 19), because square roots are not modelled.
- Features.ComputeIndicators: a zero previous close, where `pct_change` gives an infinity that `dropna()` keeps, is modelled as a missing return.
- Frames.SortPricesByDate and Frames.SortTechByDate: `sort_values("Date")` is modelled as a stable sort. pandas' default sort is not stable, so rows with equal dates may come out in another order.
- Batch.Step: an exception is raised by the fit (a stock in `raises`) or by `joblib.dump` (`torn`) of a stock that passed the data guard. An exception raised earlier in the `try` block is not modelled, and what a failed dump leaves in the file is a parameter, not computed.
- Arima.RunArima: `run_arima` has no `try`, so an exception from the ADF test, the ARIMA fit or `joblib.dump` stops the script; this is not modelled.
- LstmTraining.TrainLstmModels: the LSTM script has no `try`, so an exception there stops the whole script; this is not modelled.
- LstmService.PredictLstm: `future_days` is a natural number, so negative horizons are not modelled. The same holds for `years` in `ProphetService.PredictProphet`.
- The ADF statistic of `check_stationarity` is not computed: its p-value is a function parameter.
- Features.DropNa: every price cell (Open, High, Low, Close, Volume) is assumed present. Rows that `dropna()` removes for a missing price cell, and rolling windows made NaN by a missing close, are not modelled.
