/** `src/train_lstm_model.py`: for every stock with enough history, fit a
    MinMaxScaler to its closes, build the 60-step training pairs, fit a network
    on them and save network and scaler under the symbol without ".NS". */
module LstmTraining {
  import opened Frames
  import opened Symbols
  import opened Registry
  import opened LstmService

  /** Stocks with fewer closes than this are skipped. */
  const MinCloses: nat := 200

  function Min(xs: seq<real>): (r: real)
    requires |xs| > 0
    ensures exists k :: 0 <= k < |xs| && r == xs[k]
    ensures forall k :: 0 <= k < |xs| ==> r <= xs[k]
  {
    if |xs| == 1 then xs[0]
    else
      var m := Min(xs[..|xs| - 1]);
      if xs[|xs| - 1] < m then xs[|xs| - 1] else m
  }

  function Max(xs: seq<real>): (r: real)
    requires |xs| > 0
    ensures exists k :: 0 <= k < |xs| && r == xs[k]
    ensures forall k :: 0 <= k < |xs| ==> xs[k] <= r
  {
    if |xs| == 1 then xs[0]
    else
      var m := Max(xs[..|xs| - 1]);
      if xs[|xs| - 1] > m then xs[|xs| - 1] else m
  }

  /** `data_max_ - data_min_`, with a zero range replaced by 1 as scikit-learn does. */
  function DataRange(xs: seq<real>): (r: real)
    requires |xs| > 0
    ensures r > 0.0
    ensures Max(xs) > Min(xs) ==> r == Max(xs) - Min(xs)
  {
    if Max(xs) - Min(xs) == 0.0 then 1.0 else Max(xs) - Min(xs)
  }

  /** `MinMaxScaler().fit(series)` with the default feature range (0, 1). */
  function FitMinMax(xs: seq<real>): (r: Scaler)
    requires |xs| > 0
    ensures r.scale > 0.0
    ensures forall x, y :: x < y ==> Transform(r, x) < Transform(r, y)
  {
    var range := DataRange(xs);
    assert 1.0 / range > 0.0;
    AffineMap(1.0 / range, -Min(xs) / range)
  }

  lemma AffineIsQuotient(sc: Scaler, x: real, lo: real, range: real)
    requires range > 0.0 && sc == AffineMap(1.0 / range, -lo / range)
    ensures Transform(sc, x) == (x - lo) / range
  {
  }

  lemma ScaledIsOffsetOverRange(xs: seq<real>, x: real)
    requires |xs| > 0
    ensures Transform(FitMinMax(xs), x) == (x - Min(xs)) / DataRange(xs)
  {
    AffineIsQuotient(FitMinMax(xs), x, Min(xs), DataRange(xs));
  }

  lemma QuotientInUnit(num: real, range: real)
    requires 0.0 <= num <= range && range > 0.0
    ensures 0.0 <= num / range <= 1.0
  {
    assert num / range * range == num;
  }

  lemma EndsOfUnit(lo: real, hi: real, range: real)
    requires range > 0.0 && (hi > lo ==> range == hi - lo)
    ensures (lo - lo) / range == 0.0
    ensures hi > lo ==> (hi - lo) / range == 1.0
  {
  }

  /** The fitted scaler maps every close into [0, 1], the smallest close to 0 and,
      unless the series is flat, the largest to 1. */
  lemma MinMaxScalesIntoUnit(xs: seq<real>)
    requires |xs| > 0
    ensures forall k :: 0 <= k < |xs| ==>
              0.0 <= Transform(FitMinMax(xs), xs[k]) <= 1.0
    ensures Transform(FitMinMax(xs), Min(xs)) == 0.0
    ensures Max(xs) > Min(xs) ==> Transform(FitMinMax(xs), Max(xs)) == 1.0
  {
    forall k | 0 <= k < |xs| ensures 0.0 <= Transform(FitMinMax(xs), xs[k]) <= 1.0 {
      ScaledInUnit(xs, k);
    }
    MinMaxEnds(xs);
  }

  lemma ScaledInUnit(xs: seq<real>, k: nat)
    requires k < |xs|
    ensures 0.0 <= Transform(FitMinMax(xs), xs[k]) <= 1.0
  {
    ScaledIsOffsetOverRange(xs, xs[k]);
    QuotientInUnit(xs[k] - Min(xs), DataRange(xs));
  }

  lemma MinMaxEnds(xs: seq<real>)
    requires |xs| > 0
    ensures Transform(FitMinMax(xs), Min(xs)) == 0.0
    ensures Max(xs) > Min(xs) ==> Transform(FitMinMax(xs), Max(xs)) == 1.0
  {
    ScaledIsOffsetOverRange(xs, Min(xs));
    ScaledIsOffsetOverRange(xs, Max(xs));
    EndsOfUnit(Min(xs), Max(xs), DataRange(xs));
  }

  /** `create_sequences(data, lookback)`: pair each window of `lookback`
      consecutive values with the value that follows it. */
  function TrainingPairs(data: seq<real>, lookback: nat): (r: (seq<seq<real>>, seq<real>))
    ensures |r.0| == |r.1| == if |data| > lookback then |data| - lookback else 0
    ensures forall k :: 0 <= k < |r.0| ==>
              r.0[k] == data[k..k + lookback] && r.1[k] == data[k + lookback]
  {
    if |data| <= lookback then ([], [])
    else
      (seq(|data| - lookback, k requires 0 <= k < |data| - lookback => data[k..k + lookback]),
       seq(|data| - lookback, k requires 0 <= k < |data| - lookback => data[k + lookback]))
  }

  /** The `for i in range(lookback, len(data))` loop of `create_sequences`. */
  method CreateSequences(data: seq<real>, lookback: nat) returns (xs: seq<seq<real>>, ys: seq<real>)
    ensures (xs, ys) == TrainingPairs(data, lookback)
  {
    xs, ys := [], [];
    var i := lookback;
    while i < |data|
      invariant lookback <= i && (i <= |data| || i == lookback)
      invariant |xs| == |ys| == i - lookback
      invariant forall k :: 0 <= k < |xs| ==>
                  xs[k] == data[k..k + lookback] && ys[k] == data[k + lookback]
      decreases |data| - i
    {
      xs := xs + [data[i - lookback..i]];
      ys := ys + [data[i]];
      i := i + 1;
    }
    assert xs == TrainingPairs(data, lookback).0;
    assert ys == TrainingPairs(data, lookback).1;
  }

  /** Consecutive training windows overlap: the next window is the previous one
      without its oldest value, followed by the previous target. */
  lemma WindowsSlide(data: seq<real>, lookback: nat, k: nat)
    requires 0 < lookback && k + 1 < |TrainingPairs(data, lookback).0|
    ensures TrainingPairs(data, lookback).0[k + 1] ==
            TrainingPairs(data, lookback).0[k][1..] + [TrainingPairs(data, lookback).1[k]]
  {
  }

  /** A network that reproduces every training target from its window rolls the
      series forward exactly: started from the first 60 values, the forecast loop
      regenerates the rest of the series. */
  lemma TeacherForcing(predict: Predictor, net: KerasModel, data: seq<real>)
    requires |data| >= Lookback
    requires forall k :: 0 <= k < |TrainingPairs(data, Lookback).0| ==>
               predict(net, TrainingPairs(data, Lookback).0[k]) == TrainingPairs(data, Lookback).1[k]
    ensures Rollout(predict, net, data[..Lookback], |data| - Lookback) == data[Lookback..]
  {
    var w, preds := data[..Lookback], data[Lookback..];
    forall k | 0 <= k < |preds|
      ensures preds[k] == predict(net, LstmService.Last(w + preds[..k], Lookback))
    {
      assert w + preds[..k] == data[..Lookback + k];
      assert LstmService.Last(w + preds[..k], Lookback) == TrainingPairs(data, Lookback).0[k];
    }
    RolloutUnique(predict, net, w, preds);
  }

  /** The closes of one stock in date order (`stock_df["Close"].values`). */
  function StockCloses(df: seq<PriceRow>, stock: string): (r: seq<real>)
    ensures |r| == |PriceRowsOf(df, stock)|
  {
    var h := StockHistory(df, stock);
    assert |h| == |multiset(h)|;
    Closes(h)
  }

  /** The network fitted on a series: trained on the windows of its scaled values. */
  function NetFor(series: seq<real>): KerasModel
    requires |series| > 0
  {
    var pairs := TrainingPairs(TransformAll(FitMinMax(series), series), Lookback);
    KerasModel(pairs.0, pairs.1)
  }

  /** The `Close` column of every stock, in date order. */
  function CloseSeries(df: seq<PriceRow>): string -> seq<real>
  {
    stock => StockCloses(df, stock)
  }

  /** One pass of the loop body: a stock with fewer than 200 closes leaves both
      directories as they are; any other one has its network and scaler written. */
  function LstmStep(nets: map<string, KerasModel>, scalers: map<string, Scaler>, stock: string,
                    series: seq<real>)
    : (r: (map<string, KerasModel>, map<string, Scaler>))
  {
    if |series| < MinCloses then (nets, scalers)
    else (nets[LstmModelPath(stock) := NetFor(series)], scalers[LstmScalerPath(stock) := FitMinMax(series)])
  }

  /** The network and scaler files after the loop has handled `stocks`, with
      `closesOf(stock)` the stock's close series. */
  function SavedLstm(nets: map<string, KerasModel>, scalers: map<string, Scaler>,
                     closesOf: string -> seq<real>, stocks: seq<string>)
    : (r: (map<string, KerasModel>, map<string, Scaler>))
    decreases |stocks|
  {
    if stocks == [] then (nets, scalers)
    else
      var prev := SavedLstm(nets, scalers, closesOf, stocks[..|stocks| - 1]);
      var stock := stocks[|stocks| - 1];
      LstmStep(prev.0, prev.1, stock, closesOf(stock))
  }

  lemma SavedLstmStep(nets: map<string, KerasModel>, scalers: map<string, Scaler>,
                      closesOf: string -> seq<real>, stocks: seq<string>, k: nat)
    requires k < |stocks|
    ensures var prev := SavedLstm(nets, scalers, closesOf, stocks[..k]);
            SavedLstm(nets, scalers, closesOf, stocks[..k + 1]) ==
            LstmStep(prev.0, prev.1, stocks[k], closesOf(stocks[k]))
  {
    assert stocks[..k + 1][..k] == stocks[..k];
  }

  /** The loop body for one stock: scale, build the training pairs, fit, save. */
  method TrainStock(store: ArtifactStore, stock: string, series: seq<real>)
    modifies store
    ensures (store.kerasModels, store.scalers) == LstmStep(old(store.kerasModels), old(store.scalers), stock, series)
    ensures store.prophetModels == old(store.prophetModels)
    ensures store.rfModels == old(store.rfModels) && store.arimaModels == old(store.arimaModels)
  {
    if |series| < MinCloses {
      return;
    }
    var scaler := FitMinMax(series);
    var scaled := TransformAll(scaler, series);
    var xs, ys := CreateSequences(scaled, Lookback);
    var net := KerasModel(xs, ys);
    store.kerasModels := store.kerasModels[LstmModelPath(stock) := net];
    store.scalers := store.scalers[LstmScalerPath(stock) := scaler];
  }

  /** The `for stock in stocks` loop. */
  method TrainAll(store: ArtifactStore, stocks: seq<string>, closesOf: string -> seq<real>)
    modifies store
    ensures (store.kerasModels, store.scalers) ==
            SavedLstm(old(store.kerasModels), old(store.scalers), closesOf, stocks)
    ensures store.prophetModels == old(store.prophetModels)
    ensures store.rfModels == old(store.rfModels) && store.arimaModels == old(store.arimaModels)
  {
    for k := 0 to |stocks|
      invariant (store.kerasModels, store.scalers) ==
                SavedLstm(old(store.kerasModels), old(store.scalers), closesOf, stocks[..k])
      invariant store.prophetModels == old(store.prophetModels)
      invariant store.rfModels == old(store.rfModels) && store.arimaModels == old(store.arimaModels)
    {
      SavedLstmStep(old(store.kerasModels), old(store.scalers), closesOf, stocks, k);
      TrainStock(store, stocks[k], closesOf(stocks[k]));
    }
    assert stocks[..|stocks|] == stocks;
  }

  /** The training script: every distinct stock in sorted order; a stock with
      fewer than 200 closes is skipped, any other one has its network and scaler
      written, replacing files already there. */
  method TrainLstmModels(store: ArtifactStore, df: seq<PriceRow>)
    modifies store
    ensures (store.kerasModels, store.scalers) ==
            SavedLstm(old(store.kerasModels), old(store.scalers), CloseSeries(df), SortedSymbols(PriceStocks(df)))
    ensures store.prophetModels == old(store.prophetModels)
    ensures store.rfModels == old(store.rfModels) && store.arimaModels == old(store.arimaModels)
  {
    TrainAll(store, SortedSymbols(PriceStocks(df)), CloseSeries(df));
  }

  /** A stock with at least 200 closes, and no other stock in the list with the
      same name once ".NS" is removed, ends with the network and the scaler fitted
      on its own closes, whatever was stored under those paths before. */
  lemma {:induction false} TrainedStockArtifacts(nets: map<string, KerasModel>, scalers: map<string, Scaler>,
                                                 closesOf: string -> seq<real>, stocks: seq<string>, s: string)
    requires s in stocks && |closesOf(s)| >= MinCloses
    requires forall k :: 0 <= k < |stocks| && StripSuffix(stocks[k]) == StripSuffix(s) ==> stocks[k] == s
    ensures LstmModelPath(s) in SavedLstm(nets, scalers, closesOf, stocks).0
    ensures LstmScalerPath(s) in SavedLstm(nets, scalers, closesOf, stocks).1
    ensures SavedLstm(nets, scalers, closesOf, stocks).0[LstmModelPath(s)] == NetFor(closesOf(s))
    ensures SavedLstm(nets, scalers, closesOf, stocks).1[LstmScalerPath(s)] == FitMinMax(closesOf(s))
    decreases |stocks|
  {
    var init, last := stocks[..|stocks| - 1], stocks[|stocks| - 1];
    var prev := SavedLstm(nets, scalers, closesOf, init);
    assert SavedLstm(nets, scalers, closesOf, stocks) == LstmStep(prev.0, prev.1, last, closesOf(last));
    if last == s {
      StepWrites(prev.0, prev.1, s, closesOf(s));
    } else {
      assert s in init by {
        var k :| 0 <= k < |stocks| && stocks[k] == s;
        assert k < |stocks| - 1;
        assert init[k] == s;
      }
      assert forall k :: 0 <= k < |init| ==> init[k] == stocks[k];
      TrainedStockArtifacts(nets, scalers, closesOf, init, s);
      StepKeeps(prev.0, prev.1, last, closesOf(last), s);
    }
  }

  lemma StepWrites(nets: map<string, KerasModel>, scalers: map<string, Scaler>, stock: string, series: seq<real>)
    requires |series| >= MinCloses
    ensures LstmStep(nets, scalers, stock, series).0 == nets[LstmModelPath(stock) := NetFor(series)]
    ensures LstmStep(nets, scalers, stock, series).1 == scalers[LstmScalerPath(stock) := FitMinMax(series)]
  {
  }

  /** A stock whose name without ".NS" differs leaves the other stock's files alone. */
  lemma StepKeeps(nets: map<string, KerasModel>, scalers: map<string, Scaler>, stock: string,
                  series: seq<real>, s: string)
    requires StripSuffix(stock) != StripSuffix(s)
    ensures LstmModelPath(s) in LstmStep(nets, scalers, stock, series).0 <==> LstmModelPath(s) in nets
    ensures LstmScalerPath(s) in LstmStep(nets, scalers, stock, series).1 <==> LstmScalerPath(s) in scalers
    ensures LstmModelPath(s) in nets ==> LstmStep(nets, scalers, stock, series).0[LstmModelPath(s)] == nets[LstmModelPath(s)]
    ensures LstmScalerPath(s) in scalers ==>
              LstmStep(nets, scalers, stock, series).1[LstmScalerPath(s)] == scalers[LstmScalerPath(s)]
  {
    LstmPathsShared(stock, s);
  }

  /** A path that no stock with at least 200 closes writes to keeps what it held
      before the run. */
  lemma {:induction false} UntouchedPaths(nets: map<string, KerasModel>, scalers: map<string, Scaler>,
                                          closesOf: string -> seq<real>, stocks: seq<string>, p: string)
    requires forall k :: 0 <= k < |stocks| && |closesOf(stocks[k])| >= MinCloses ==>
               LstmModelPath(stocks[k]) != p && LstmScalerPath(stocks[k]) != p
    ensures p in SavedLstm(nets, scalers, closesOf, stocks).0 <==> p in nets
    ensures p in nets ==> SavedLstm(nets, scalers, closesOf, stocks).0[p] == nets[p]
    ensures p in SavedLstm(nets, scalers, closesOf, stocks).1 <==> p in scalers
    ensures p in scalers ==> SavedLstm(nets, scalers, closesOf, stocks).1[p] == scalers[p]
    decreases |stocks|
  {
    if stocks != [] {
      UntouchedPaths(nets, scalers, closesOf, stocks[..|stocks| - 1], p);
    }
  }
}
