/** `predict_lstm` of `app/models/lstm_service.py`: the short-horizon forecast.
    Load the stock's network and scaler, scale the close series, roll a 60-wide
    window forward one predicted step at a time, scale the predictions back and
    date them with the following business days. */
module LstmService {
  import opened Wrappers
  import opened Frames
  import opened Calendar
  import opened Registry
  import opened Symbols

  const Lookback: nat := 60

  /** `model.predict(window)[0][0]`: what a loaded network predicts from a window. */
  type Predictor = (KerasModel, seq<real>) -> real

  datatype LstmError =
    | MissingArtifact(path: string)  // load_model / joblib.load on a missing file
    | ShortHistory(rows: nat)        // fewer than 60 closes: the reshape to (1, 60, 1) fails
    | EmptyForecast                  // no prediction to inverse-transform

  datatype Forecast = Forecast(dates: seq<int>, prices: seq<real>)

  /** The last `n` elements (`s[-n:]`). */
  function Last(s: seq<real>, n: nat): (r: seq<real>)
    requires n <= |s|
    ensures |r| == n
  {
    s[|s| - n..]
  }

  /** The rollout: predict from the window, drop its oldest value, append the
      prediction, and go on for `n` steps. */
  function Rollout(predict: Predictor, net: KerasModel, window: seq<real>, n: nat): (r: seq<real>)
    requires |window| == Lookback
    ensures |r| == n
    decreases n
  {
    if n == 0 then []
    else
      var p := predict(net, window);
      [p] + Rollout(predict, net, window[1..] + [p], n - 1)
  }

  lemma LastOfTail(s: seq<real>, n: nat)
    requires 0 < |s| && n <= |s| - 1
    ensures Last(s[1..], n) == Last(s, n)
  {
  }

  /** Step k of the rollout sees the last 60 values of the initial window followed
      by the k predictions made so far. */
  lemma {:induction false} RolloutStep(predict: Predictor, net: KerasModel, w: seq<real>, n: nat, k: nat)
    requires |w| == Lookback && k < n
    ensures Rollout(predict, net, w, n)[k] ==
            predict(net, Last(w + Rollout(predict, net, w, n)[..k], Lookback))
    decreases k
  {
    var r := Rollout(predict, net, w, n);
    if k == 0 {
      assert w + r[..0] == w;
    } else {
      var p := predict(net, w);
      var w' := w[1..] + [p];
      var r' := Rollout(predict, net, w', n - 1);
      assert r == [p] + r';
      RolloutStep(predict, net, w', n - 1, k - 1);
      assert w' + r'[..k - 1] == (w + r[..k])[1..];
      LastOfTail(w + r[..k], Lookback);
    }
  }

  /** Conversely, any sequence whose every element is the prediction from the last
      60 values before it is the rollout: the rollout is the only such sequence. */
  lemma {:induction false} RolloutUnique(predict: Predictor, net: KerasModel, w: seq<real>, preds: seq<real>)
    requires |w| == Lookback
    requires forall k :: 0 <= k < |preds| ==> preds[k] == predict(net, Last(w + preds[..k], Lookback))
    ensures preds == Rollout(predict, net, w, |preds|)
  {
    var r := Rollout(predict, net, w, |preds|);
    PrefixesAgree(predict, net, w, preds, |preds|);
    assert preds == preds[..|preds|] && r == r[..|preds|];
  }

  lemma {:induction false} PrefixesAgree(predict: Predictor, net: KerasModel, w: seq<real>, preds: seq<real>, m: nat)
    requires |w| == Lookback && m <= |preds|
    requires forall k :: 0 <= k < |preds| ==> preds[k] == predict(net, Last(w + preds[..k], Lookback))
    ensures preds[..m] == Rollout(predict, net, w, |preds|)[..m]
    decreases m
  {
    var r := Rollout(predict, net, w, |preds|);
    if m > 0 {
      PrefixesAgree(predict, net, w, preds, m - 1);
      RolloutStep(predict, net, w, |preds|, m - 1);
      assert preds[..m] == preds[..m - 1] + [preds[m - 1]];
      assert r[..m] == r[..m - 1] + [r[m - 1]];
    }
  }

  /** One step of the loop: the prediction from the current window is appended and
      the window moves on by one. */
  lemma RolloutShift(predict: Predictor, net: KerasModel, window0: seq<real>, preds: seq<real>, m: nat)
    requires |window0| == Lookback && m > 0
    ensures var window := Last(window0 + preds, Lookback);
            var p := predict(net, window);
            Last(window0 + (preds + [p]), Lookback) == window[1..] + [p] &&
            (preds + [p]) + Rollout(predict, net, window[1..] + [p], m - 1) ==
            preds + Rollout(predict, net, window, m)
  {
    var window := Last(window0 + preds, Lookback);
    var p := predict(net, window);
    assert window0 + (preds + [p]) == (window0 + preds) + [p];
    assert Rollout(predict, net, window, m) == [p] + Rollout(predict, net, window[1..] + [p], m - 1);
  }

  /** The `for _ in range(future_days)` loop: one network call per step, the
      window shifted by one and extended with the prediction. */
  method RunRollout(predict: Predictor, net: KerasModel, window0: seq<real>, futureDays: nat)
    returns (preds: seq<real>, calls: nat)
    requires |window0| == Lookback
    ensures preds == Rollout(predict, net, window0, futureDays)
    ensures calls == futureDays
  {
    var window := window0;
    preds, calls := [], 0;
    for step := 0 to futureDays
      invariant |window| == Lookback && |preds| == step && calls == step
      invariant window == Last(window0 + preds, Lookback)
      invariant preds + Rollout(predict, net, window, futureDays - step) ==
                Rollout(predict, net, window0, futureDays)
    {
      var p := predict(net, window);
      calls := calls + 1;
      RolloutShift(predict, net, window0, preds, futureDays - step);
      preds := preds + [p];
      window := window[1..] + [p];
    }
  }

  /** `pd.bdate_range(start=last, periods=n + 1)[1:]`. */
  function FutureDates(last: int, n: nat): (r: seq<int>)
    ensures |r| == n
  {
    BDateRange(last, n + 1)[1..]
  }

  /** The forecast dates are `n` consecutive business days after the last history
      date; when that date is a business day they start with the very next one.
      When it falls on a weekend, the range first rolls forward to the Monday,
      which the `[1:]` then drops. */
  lemma FutureDatesAreNextBusinessDays(last: int, n: nat)
    ensures BusinessRun(FutureDates(last, n))
    ensures forall i, j :: 0 <= i < j < n ==> FutureDates(last, n)[i] < FutureDates(last, n)[j]
    ensures n > 0 ==> FutureDates(last, n)[0] > last
    ensures n > 0 && IsBusinessDay(last) ==> FutureDates(last, n)[0] == NextBusinessDay(last)
    ensures n > 0 && !IsBusinessDay(last) ==> FutureDates(last, n)[0] == NextBusinessDay(RollForward(last))
  {
    var first := RollForward(last);
    assert FutureDates(last, n) == BusinessDaysFrom(NextBusinessDay(first), n);
    BusinessDaysFromRun(NextBusinessDay(first), n);
    BusinessRunIncreasing(FutureDates(last, n));
  }

  /** A history ending on a Saturday (day 5) is dated from the Tuesday (day 8):
      the Monday (day 7) is left out. */
  lemma SaturdayHistorySkipsMonday()
    ensures FutureDates(5, 1) == [8]
    ensures IsBusinessDay(7)
  {
    assert BDateRange(5, 2) == [7, 8];
  }

  /** What `predict_lstm` returns once both artifacts are loaded and the history
      holds at least 60 closes. */
  function LstmForecast(stockDf: seq<PriceRow>, net: KerasModel, scaler: Scaler,
                        predict: Predictor, futureDays: nat): (r: Forecast)
    requires |stockDf| >= Lookback
    ensures |r.dates| == |r.prices| == futureDays
    ensures BusinessRun(r.dates)
    ensures futureDays > 0 ==> r.dates[0] > stockDf[|stockDf| - 1].date
  {
    FutureDatesAreNextBusinessDays(stockDf[|stockDf| - 1].date, futureDays);
    var scaled := TransformAll(scaler, Closes(stockDf));
    var preds := Rollout(predict, net, Last(scaled, Lookback), futureDays);
    Forecast(FutureDates(stockDf[|stockDf| - 1].date, futureDays), InverseAll(scaler, preds))
  }

  /** `predict_lstm(stock_df, stock, future_days)`, with the artifact directory as
      two maps from path to file content and the network's prediction as
      `predict`.  `calls` counts the network invocations. */
  method PredictLstm(stockDf: seq<PriceRow>, stock: string, futureDays: nat,
                     nets: map<string, KerasModel>, scalers: map<string, Scaler>,
                     predict: Predictor)
    returns (r: Result<Forecast, LstmError>, calls: nat)
    ensures LstmModelPath(stock) !in nets ==> r == Failure(MissingArtifact(LstmModelPath(stock)))
    ensures LstmModelPath(stock) in nets && LstmScalerPath(stock) !in scalers ==>
              r == Failure(MissingArtifact(LstmScalerPath(stock)))
    ensures LstmModelPath(stock) in nets && LstmScalerPath(stock) in scalers && |stockDf| < Lookback ==>
              r == Failure(ShortHistory(|stockDf|))
    ensures LstmModelPath(stock) in nets && LstmScalerPath(stock) in scalers && |stockDf| >= Lookback ==>
              r == (if futureDays == 0 then Failure(EmptyForecast)
                    else Success(LstmForecast(stockDf, nets[LstmModelPath(stock)],
                                              scalers[LstmScalerPath(stock)], predict, futureDays)))
    ensures calls == if r.Success? || r == Failure(EmptyForecast) then futureDays else 0
  {
    var modelPath := LstmModelPath(stock);
    if modelPath !in nets {
      return Failure(MissingArtifact(modelPath)), 0;
    }
    var net := nets[modelPath];
    var scalerPath := LstmScalerPath(stock);
    if scalerPath !in scalers {
      return Failure(MissingArtifact(scalerPath)), 0;
    }
    var scaler := scalers[scalerPath];
    var scaled := TransformAll(scaler, Closes(stockDf));
    if |scaled| < Lookback {
      return Failure(ShortHistory(|scaled|)), 0;
    }
    var window := Last(scaled, Lookback);
    var preds;
    preds, calls := RunRollout(predict, net, window, futureDays);
    if |preds| == 0 {
      return Failure(EmptyForecast), calls;
    }
    var prices := InverseAll(scaler, preds);
    var dates := FutureDates(stockDf[|stockDf| - 1].date, futureDays);
    r := Success(Forecast(dates, prices));
  }

  /** The forecast is `future_days` dated prices, and each price, scaled, is the
      network's prediction from the last 60 scaled closes followed by the scaled
      prices forecast before it. */
  lemma ForecastFeedsBack(stockDf: seq<PriceRow>, net: KerasModel, scaler: Scaler,
                          predict: Predictor, n: nat, k: nat)
    requires |stockDf| >= Lookback && k < n
    ensures |LstmForecast(stockDf, net, scaler, predict, n).prices| == n
    ensures |LstmForecast(stockDf, net, scaler, predict, n).dates| == n
    ensures var f := LstmForecast(stockDf, net, scaler, predict, n);
            var scaled := TransformAll(scaler, Closes(stockDf));
            Transform(scaler, f.prices[k]) ==
            predict(net, Last(scaled + TransformAll(scaler, f.prices[..k]), Lookback))
  {
    var f := LstmForecast(stockDf, net, scaler, predict, n);
    var scaled := TransformAll(scaler, Closes(stockDf));
    var w := Last(scaled, Lookback);
    var preds := Rollout(predict, net, w, n);
    forall j | 0 <= j < n ensures Transform(scaler, f.prices[j]) == preds[j] {
      ScalerRoundTrip(scaler, 0.0, preds[j]);
    }
    assert TransformAll(scaler, f.prices[..k]) == preds[..k];
    RolloutStep(predict, net, w, n, k);
    assert Last(scaled + preds[..k], Lookback) == Last(w + preds[..k], Lookback);
  }
}
