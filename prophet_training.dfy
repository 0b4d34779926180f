/** `src/train_prophet_model.py`: one Prophet model per stock with at least 300
    rows, fitted on its (ds, y) = (Date, Close) frame in date order. */
module ProphetTraining {
  import opened Wrappers
  import opened Frames
  import opened Symbols
  import opened Registry
  import opened Batch

  /** `MIN_DATA_POINTS`: stocks with fewer rows are skipped. */
  const MinDataPoints: nat := 300

  /** `stock_df[["Date", "Close"]]` renamed to `["ds", "y"]`. */
  function ProphetFrame(rows: seq<PriceRow>): (r: seq<(int, real)>)
    ensures |r| == |rows|
    ensures forall i :: 0 <= i < |rows| ==> r[i] == (rows[i].date, rows[i].close)
  {
    seq(|rows|, i requires 0 <= i < |rows| => (rows[i].date, rows[i].close))
  }

  /** The model fitted for one stock: None when the data guard skips it. */
  function FitProphet(df: seq<PriceRow>, stock: string): (r: Option<ProphetModel>)
    ensures r.Some? <==> |PriceRowsOf(df, stock)| >= MinDataPoints
    ensures r.Some? ==> |r.value.frame| == |PriceRowsOf(df, stock)|
  {
    var stockDf := StockHistory(df, stock);
    assert |stockDf| == |multiset(stockDf)| == |PriceRowsOf(df, stock)|;
    if |stockDf| < MinDataPoints then None else Some(ProphetModel(ProphetFrame(stockDf)))
  }

  /** A fitted model's frame is the stock's own dates and closes, in date order:
      every point is one of its rows and every one of its rows is a point. */
  lemma FitProphetSpec(df: seq<PriceRow>, stock: string)
    ensures FitProphet(df, stock).Some? ==>
              var frame := FitProphet(df, stock).value.frame;
              |frame| == |PriceRowsOf(df, stock)| &&
              (forall i, j :: 0 <= i < j < |frame| ==> frame[i].0 <= frame[j].0) &&
              (forall i :: 0 <= i < |frame| ==>
                 exists k :: 0 <= k < |df| && df[k].stock == stock && frame[i] == (df[k].date, df[k].close)) &&
              (forall k :: 0 <= k < |df| && df[k].stock == stock ==> (df[k].date, df[k].close) in frame)
  {
    if FitProphet(df, stock).Some? {
      assert FitProphet(df, stock).value.frame == ProphetFrame(StockHistory(df, stock));
      HistoryFrameOrdered(df, stock);
      HistoryFrameFromRows(df, stock);
      HistoryFrameCoversRows(df, stock);
    }
  }

  lemma HistoryFrameOrdered(df: seq<PriceRow>, stock: string)
    ensures var frame := ProphetFrame(StockHistory(df, stock));
            forall i, j :: 0 <= i < j < |frame| ==> frame[i].0 <= frame[j].0
  {
    var h := StockHistory(df, stock);
    var frame := ProphetFrame(h);
    forall i, j | 0 <= i < j < |frame| ensures frame[i].0 <= frame[j].0 {
      assert PriceByDate(h[i], h[j]);
    }
  }

  lemma HistoryFrameFromRows(df: seq<PriceRow>, stock: string)
    ensures var frame := ProphetFrame(StockHistory(df, stock));
            forall i :: 0 <= i < |frame| ==>
              exists k :: 0 <= k < |df| && df[k].stock == stock && frame[i] == (df[k].date, df[k].close)
  {
    var h := StockHistory(df, stock);
    var frame := ProphetFrame(h);
    forall i | 0 <= i < |frame|
      ensures exists k :: 0 <= k < |df| && df[k].stock == stock && frame[i] == (df[k].date, df[k].close)
    {
      assert h[i] in h;
      var k :| 0 <= k < |df| && df[k] == h[i];
      assert frame[i] == (df[k].date, df[k].close);
    }
  }

  lemma HistoryFrameCoversRows(df: seq<PriceRow>, stock: string)
    ensures var frame := ProphetFrame(StockHistory(df, stock));
            forall k :: 0 <= k < |df| && df[k].stock == stock ==> (df[k].date, df[k].close) in frame
  {
    var h := StockHistory(df, stock);
    var frame := ProphetFrame(h);
    forall k | 0 <= k < |df| && df[k].stock == stock ensures (df[k].date, df[k].close) in frame {
      assert df[k] in df;
      assert df[k] in h;
      var i :| 0 <= i < |h| && h[i] == df[k];
      assert frame[i] == (df[k].date, df[k].close);
    }
  }

  function Fits(df: seq<PriceRow>): string -> Option<ProphetModel>
  {
    stock => FitProphet(df, stock)
  }

  /** The `try` block of the loop for one stock. */
  method ProcessStock(store: ArtifactStore, fits: string -> Option<ProphetModel>, raises: set<string>,
                      torn: string -> Option<ProphetModel>, stock: string)
    returns (outcome: Outcome)
    modifies store
    ensures (store.prophetModels, outcome) == Step(old(store.prophetModels), ProphetModelPath, fits, raises, torn, stock)
    ensures store.kerasModels == old(store.kerasModels) && store.scalers == old(store.scalers)
    ensures store.rfModels == old(store.rfModels) && store.arimaModels == old(store.arimaModels)
  {
    var modelPath := ProphetModelPath(stock);
    if modelPath in store.prophetModels {
      return Skipped;
    }
    var model := fits(stock);
    if model.None? {
      return Skipped;
    }
    if stock in raises {
      return Failed;
    }
    if torn(stock).Some? {
      // `joblib.dump` has opened the file when pickling raises
      store.prophetModels := store.prophetModels[modelPath := torn(stock).value];
      return Failed;
    }
    store.prophetModels := store.prophetModels[modelPath := model.value];
    outcome := Trained;
  }

  /** The `for stock in stocks` loop. */
  method TrainAll(store: ArtifactStore, stocks: seq<string>, fits: string -> Option<ProphetModel>,
                  raises: set<string>, torn: string -> Option<ProphetModel>)
    returns (tally: Tally)
    modifies store
    ensures (store.prophetModels, tally) == Run(old(store.prophetModels), ProphetModelPath, fits, raises, torn, stocks)
    ensures store.kerasModels == old(store.kerasModels) && store.scalers == old(store.scalers)
    ensures store.rfModels == old(store.rfModels) && store.arimaModels == old(store.arimaModels)
  {
    tally := Tally(0, 0, 0);
    for k := 0 to |stocks|
      invariant (store.prophetModels, tally) ==
                Run(old(store.prophetModels), ProphetModelPath, fits, raises, torn, stocks[..k])
      invariant store.kerasModels == old(store.kerasModels) && store.scalers == old(store.scalers)
      invariant store.rfModels == old(store.rfModels) && store.arimaModels == old(store.arimaModels)
    {
      RunStep(old(store.prophetModels), ProphetModelPath, fits, raises, torn, stocks, k);
      var outcome := ProcessStock(store, fits, raises, torn, stocks[k]);
      tally := Record(tally, outcome);
    }
    assert stocks[..|stocks|] == stocks;
  }

  /** The training script over the processed price table: every distinct stock, in
      sorted order. */
  method TrainProphetModels(store: ArtifactStore, df: seq<PriceRow>, raises: set<string>,
                             torn: string -> Option<ProphetModel>) returns (tally: Tally)
    modifies store
    ensures (store.prophetModels, tally) ==
            Run(old(store.prophetModels), ProphetModelPath, Fits(df), raises, torn, SortedSymbols(PriceStocks(df)))
    ensures store.kerasModels == old(store.kerasModels) && store.scalers == old(store.scalers)
    ensures store.rfModels == old(store.rfModels) && store.arimaModels == old(store.arimaModels)
  {
    tally := TrainAll(store, SortedSymbols(PriceStocks(df)), Fits(df), raises, torn);
  }

  /** A run of the script: every stock without a model file before the run ends
      with the model fitted on its own frame when fitting and saving succeed,
      with whatever the failed `joblib.dump` left when only saving raised, and
      with no file when it has fewer than 300 rows or its fit raised; existing
      files stay as they were; each stock is counted once, each `trained` is one
      new file and each `failed` at most one. */
  lemma TrainProphetModelsSpec(models: map<string, ProphetModel>, df: seq<PriceRow>, raises: set<string>,
                               torn: string -> Option<ProphetModel>, s: string)
    requires s in PriceStocks(df)
    ensures var stocks := SortedSymbols(PriceStocks(df));
            var r := Run(models, ProphetModelPath, Fits(df), raises, torn, stocks);
            Total(r.1) == |stocks| &&
            |models.Keys| + r.1.trained <= |r.0.Keys| <= |models.Keys| + r.1.trained + r.1.failed
    ensures var r := Run(models, ProphetModelPath, Fits(df), raises, torn, SortedSymbols(PriceStocks(df)));
            ProphetModelPath(s) !in models && s !in raises && |PriceRowsOf(df, s)| >= MinDataPoints &&
            torn(s).None? ==>
              ProphetModelPath(s) in r.0 &&
              r.0[ProphetModelPath(s)] == ProphetModel(ProphetFrame(StockHistory(df, s)))
    ensures var r := Run(models, ProphetModelPath, Fits(df), raises, torn, SortedSymbols(PriceStocks(df)));
            ProphetModelPath(s) !in models && s !in raises && |PriceRowsOf(df, s)| >= MinDataPoints &&
            torn(s).Some? ==>
              ProphetModelPath(s) in r.0 && r.0[ProphetModelPath(s)] == torn(s).value
    ensures var r := Run(models, ProphetModelPath, Fits(df), raises, torn, SortedSymbols(PriceStocks(df)));
            ProphetModelPath(s) !in models && (s in raises || |PriceRowsOf(df, s)| < MinDataPoints) ==>
              ProphetModelPath(s) !in r.0
    ensures var r := Run(models, ProphetModelPath, Fits(df), raises, torn, SortedSymbols(PriceStocks(df)));
            ProphetModelPath(s) in models ==>
              ProphetModelPath(s) in r.0 && r.0[ProphetModelPath(s)] == models[ProphetModelPath(s)]
  {
    var stocks := SortedSymbols(PriceStocks(df));
    SortedSymbolsSpec(PriceStocks(df));
    FitProphetSpec(df, s);
    RunCountsNewFiles(models, ProphetModelPath, Fits(df), raises, torn, stocks);
    if ProphetModelPath(s) in models {
      RunKeepsExisting(models, ProphetModelPath, Fits(df), raises, torn, stocks, ProphetModelPath(s));
    } else {
      forall k | 0 <= k < |stocks| && stocks[k] != s ensures ProphetModelPath(stocks[k]) != ProphetModelPath(s) {
        KeptSuffixPathsInjective(stocks[k], s);
      }
      RunSavesFit(models, ProphetModelPath, Fits(df), raises, torn, stocks, s);
    }
  }
}
