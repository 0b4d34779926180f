/** `predict_prophet` of `app/models/prophet_service.py`: the long-horizon
    forecast from a saved Prophet model. */
module ProphetService {
  import opened Wrappers
  import opened Symbols
  import opened Registry

  /** `model.make_future_dataframe(periods=days, freq="B")["ds"]`: the model's
      history dates followed by `days` business days. */
  type FutureFrame = (ProphetModel, nat) -> seq<int>

  /** `model.predict(future)["yhat"]` at one date of the frame. */
  type Yhat = (ProphetModel, int) -> real

  datatype ProphetError = ModelNotFound(stock: string, expected: string)

  datatype LongForecast = LongForecast(dates: seq<int>, prices: seq<real>)

  /** `s.tail(n)`: the last n elements, or all of them when there are fewer. */
  function Tail<T>(s: seq<T>, n: nat): (r: seq<T>)
    ensures |r| == if n < |s| then n else |s|
    ensures forall k :: 0 <= k < |r| ==> r[k] == s[|s| - |r| + k]
  {
    if n < |s| then s[|s| - n..] else s
  }

  /** `predict_prophet(stock, years)`, with the model directory as a map from path
      to model and the Prophet calls as parameters. */
  function PredictProphet(stock: string, years: nat, models: map<string, ProphetModel>,
                          future: FutureFrame, yhat: Yhat): (r: Result<LongForecast, ProphetError>)
    ensures ProphetModelPath(stock) !in models <==> r == Failure(ModelNotFound(stock, ProphetModelPath(stock)))
    ensures r.Success? ==>
              var frame := future(models[ProphetModelPath(stock)], years * 365);
              r.value.dates == Tail(frame, years * 365) &&
              |r.value.prices| == |r.value.dates| &&
              forall k :: 0 <= k < |r.value.dates| ==>
                r.value.prices[k] == yhat(models[ProphetModelPath(stock)], r.value.dates[k])
  {
    var path := ProphetModelPath(stock);
    if path !in models then Failure(ModelNotFound(stock, path))
    else
      var model := models[path];
      var days := years * 365;
      var dates := future(model, days);
      var forecast := seq(|dates|, i requires 0 <= i < |dates| => yhat(model, dates[i]));
      Success(LongForecast(Tail(dates, days), Tail(forecast, days)))
  }

  /** When the future frame is the model's history followed by `days` new dates,
      the forecast covers exactly the new dates, one price for each of the
      `365 * years` days asked for. */
  lemma ForecastCoversNewDates(stock: string, years: nat, models: map<string, ProphetModel>,
                               future: FutureFrame, yhat: Yhat, history: seq<int>, added: seq<int>)
    requires ProphetModelPath(stock) in models
    requires |added| == years * 365
    requires future(models[ProphetModelPath(stock)], years * 365) == history + added
    ensures PredictProphet(stock, years, models, future, yhat).Success?
    ensures PredictProphet(stock, years, models, future, yhat).value.dates == added
    ensures |PredictProphet(stock, years, models, future, yhat).value.prices| == years * 365
  {
    var frame := history + added;
    assert Tail(frame, years * 365) == added;
  }

  /** A zero-year horizon forecasts nothing. */
  lemma ZeroYearsIsEmpty(stock: string, models: map<string, ProphetModel>, future: FutureFrame, yhat: Yhat)
    requires ProphetModelPath(stock) in models
    ensures PredictProphet(stock, 0, models, future, yhat) == Success(LongForecast([], []))
  {
  }
}
