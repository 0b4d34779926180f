/** `src/train_rf_model.py`: one random forest per stock, trained to predict the
    next day's close from the five indicator columns of the technical table. */
module RfTraining {
  import opened Wrappers
  import opened Sequences
  import opened Frames
  import opened Symbols
  import opened Registry
  import opened Batch

  /** Fewer labelled rows than this and the stock is skipped. */
  const MinRows: nat := 200

  /** `stock_df[FEATURES]` on one row: SMA_20, SMA_50, RSI_14, Volatility_20,
      Returns, in that order. */
  function FeatureVector(row: TechRow): (r: seq<real>)
    ensures |r| == 5
  {
    [row.sma20, row.sma50, row.rsi14, row.volatility20, row.dayReturn]
  }

  /** `stock_df["Close"].shift(-1)` as the `Target` column: each row with the
      close of the row after it, and NaN (None) on the last row. */
  function ShiftTarget(rows: seq<TechRow>): seq<(TechRow, Option<real>)>
  {
    seq(|rows|, i requires 0 <= i < |rows| =>
      (rows[i], if i + 1 < |rows| then Some(rows[i + 1].base.close) else None))
  }

  /** `dropna()`: the rows whose target is present, in order. */
  function DropUnlabelled(rows: seq<(TechRow, Option<real>)>): seq<(TechRow, real)>
  {
    if rows == [] then []
    else
      match rows[0].1
      case None => DropUnlabelled(rows[1..])
      case Some(t) => [(rows[0].0, t)] + DropUnlabelled(rows[1..])
  }

  lemma {:induction false} DropUnlabelledAllPresent(rows: seq<(TechRow, Option<real>)>)
    requires forall i :: 0 <= i < |rows| ==> rows[i].1.Some?
    ensures |DropUnlabelled(rows)| == |rows|
    ensures forall i :: 0 <= i < |rows| ==> DropUnlabelled(rows)[i] == (rows[i].0, rows[i].1.value)
  {
    if rows != [] {
      DropUnlabelledAllPresent(rows[1..]);
    }
  }

  lemma {:induction false} DropUnlabelledTrailingGap(rows: seq<(TechRow, Option<real>)>, last: (TechRow, Option<real>))
    requires last.1.None?
    ensures DropUnlabelled(rows + [last]) == DropUnlabelled(rows)
  {
    if rows == [] {
      assert DropUnlabelled([last]) == DropUnlabelled([last][1..]);
    } else {
      assert (rows + [last])[1..] == rows[1..] + [last];
      DropUnlabelledTrailingGap(rows[1..], last);
    }
  }

  /** The labelled training rows: every row but the last, paired with the close
      of the row after it. */
  function Labelled(rows: seq<TechRow>): (r: seq<(TechRow, real)>)
    ensures |r| == if rows == [] then 0 else |rows| - 1
    ensures forall i :: 0 <= i < |r| ==> r[i] == (rows[i], rows[i + 1].base.close)
  {
    var shifted := ShiftTarget(rows);
    if rows == [] then DropUnlabelled(shifted)
    else
      var init := shifted[..|rows| - 1];
      assert shifted == init + [shifted[|rows| - 1]];
      DropUnlabelledTrailingGap(init, shifted[|rows| - 1]);
      DropUnlabelledAllPresent(init);
      DropUnlabelled(shifted)
  }

  /** `train_single_stock(stock_df)`: None with fewer than 200 labelled rows, else
      the forest fitted on the first `int(0.8 * n)` of the n labelled rows. */
  function TrainSingleStock(stockDf: seq<TechRow>): (r: Option<RfModel>)
    ensures r.Some? <==> |stockDf| >= MinRows + 1
    ensures r.Some? ==> |r.value.features| == |r.value.targets| == (|stockDf| - 1) * 8 / 10 < |stockDf| - 1
  {
    var sorted := SortTechByDate(stockDf);
    assert |sorted| == |multiset(sorted)| == |stockDf|;
    var labelled := Labelled(sorted);
    if |labelled| < MinRows then None
    else
      SplitLeavesLastOut(|labelled|);
      var split := |labelled| * 8 / 10;
      Some(RfModel(seq(split, i requires 0 <= i < split => FeatureVector(labelled[i].0)),
                   seq(split, i requires 0 <= i < split => labelled[i].1)))
  }

  /** When a forest is fitted, training example i is day i's features (in date order) labelled with day
      i + 1's close, and the last fifth of the labelled days, with the final close
      among them, is never used. */
  lemma TrainSingleStockSpec(stockDf: seq<TechRow>)
    ensures TrainSingleStock(stockDf).Some? ==>
              var m := TrainSingleStock(stockDf).value;
              var sorted := SortTechByDate(stockDf);
              var split := (|stockDf| - 1) * 8 / 10;
              |m.features| == |m.targets| == split && split + 1 < |stockDf| &&
              forall i :: 0 <= i < split ==>
                m.features[i] == FeatureVector(sorted[i]) && m.targets[i] == sorted[i + 1].base.close
  {
    var sorted := SortTechByDate(stockDf);
    assert |sorted| == |multiset(sorted)| == |stockDf|;
    var labelled := Labelled(sorted);
    assert |labelled| == if stockDf == [] then 0 else |stockDf| - 1;
    if |stockDf| >= MinRows + 1 {
      var split := |labelled| * 8 / 10;
      SplitLeavesLastOut(|labelled|);
      var m := TrainSingleStock(stockDf).value;
      assert m.features == seq(split, i requires 0 <= i < split => FeatureVector(labelled[i].0));
      assert m.targets == seq(split, i requires 0 <= i < split => labelled[i].1);
      forall i | 0 <= i < split
        ensures m.features[i] == FeatureVector(sorted[i]) && m.targets[i] == sorted[i + 1].base.close
      {
        assert labelled[i] == (sorted[i], sorted[i + 1].base.close);
      }
    }
  }

  /** `int(0.8 * n)` for n >= 200 labelled rows leaves at least one of them out. */
  lemma SplitLeavesLastOut(n: nat)
    requires n >= MinRows
    ensures n * 8 / 10 < n
  {
  }

  /** `train_single_stock(df[df["Stock"] == stock])` for every stock of the table. */
  function Fits(df: seq<TechRow>): string -> Option<RfModel>
  {
    stock => TrainSingleStock(TechRowsOf(df, stock))
  }

  /** The `try` block of the loop for one stock. */
  method ProcessStock(store: ArtifactStore, fits: string -> Option<RfModel>, raises: set<string>,
                      torn: string -> Option<RfModel>, stock: string)
    returns (outcome: Outcome)
    modifies store
    ensures (store.rfModels, outcome) == Step(old(store.rfModels), RfModelPath, fits, raises, torn, stock)
    ensures store.kerasModels == old(store.kerasModels) && store.scalers == old(store.scalers)
    ensures store.prophetModels == old(store.prophetModels) && store.arimaModels == old(store.arimaModels)
  {
    var modelPath := RfModelPath(stock);
    if modelPath in store.rfModels {
      return Skipped;
    }
    var model := fits(stock);
    if model.None? {
      return Skipped;
    }
    if stock in raises {
      return Failed;
    }
    if torn(stock).Some? {
      // `joblib.dump` has opened the file when pickling raises
      store.rfModels := store.rfModels[modelPath := torn(stock).value];
      return Failed;
    }
    store.rfModels := store.rfModels[modelPath := model.value];
    outcome := Trained;
  }

  /** The `for stock in stocks` loop, with `fits(stock)` what `train_single_stock`
      returns for each stock. */
  method TrainAll(store: ArtifactStore, stocks: seq<string>, fits: string -> Option<RfModel>,
                  raises: set<string>, torn: string -> Option<RfModel>)
    returns (tally: Tally)
    modifies store
    ensures (store.rfModels, tally) == Run(old(store.rfModels), RfModelPath, fits, raises, torn, stocks)
    ensures store.kerasModels == old(store.kerasModels) && store.scalers == old(store.scalers)
    ensures store.prophetModels == old(store.prophetModels) && store.arimaModels == old(store.arimaModels)
  {
    tally := Tally(0, 0, 0);
    for k := 0 to |stocks|
      invariant (store.rfModels, tally) == Run(old(store.rfModels), RfModelPath, fits, raises, torn, stocks[..k])
      invariant store.kerasModels == old(store.kerasModels) && store.scalers == old(store.scalers)
      invariant store.prophetModels == old(store.prophetModels) && store.arimaModels == old(store.arimaModels)
    {
      RunStep(old(store.rfModels), RfModelPath, fits, raises, torn, stocks, k);
      var outcome := ProcessStock(store, fits, raises, torn, stocks[k]);
      tally := Record(tally, outcome);
    }
    assert stocks[..|stocks|] == stocks;
  }

  /** `run_training()`, with the technical table as `df` and the model directory
      as the store's `rfModels`: every distinct stock, in sorted order. */
  method RunTraining(store: ArtifactStore, df: seq<TechRow>, raises: set<string>,
                     torn: string -> Option<RfModel>) returns (tally: Tally)
    modifies store
    ensures (store.rfModels, tally) == Run(old(store.rfModels), RfModelPath, Fits(df), raises, torn, SortedSymbols(TechStocks(df)))
    ensures store.kerasModels == old(store.kerasModels) && store.scalers == old(store.scalers)
    ensures store.prophetModels == old(store.prophetModels) && store.arimaModels == old(store.arimaModels)
  {
    tally := TrainAll(store, SortedSymbols(TechStocks(df)), Fits(df), raises, torn);
  }

  /** A run of the script over a table: every stock without a model file before
      the run ends with the forest `train_single_stock` fits on its rows when
      fitting and saving succeed, with whatever the failed `joblib.dump` left when
      only saving raised, and with no file when that returned None or raised;
      existing files stay as they were; each stock is counted once, each
      `trained` is one new file and each `failed` at most one. */
  lemma RunTrainingSpec(models: map<string, RfModel>, df: seq<TechRow>, raises: set<string>,
                        torn: string -> Option<RfModel>, s: string)
    requires s in TechStocks(df)
    ensures var stocks := SortedSymbols(TechStocks(df));
            var r := Run(models, RfModelPath, Fits(df), raises, torn, stocks);
            Total(r.1) == |stocks| &&
            |models.Keys| + r.1.trained <= |r.0.Keys| <= |models.Keys| + r.1.trained + r.1.failed
    ensures var r := Run(models, RfModelPath, Fits(df), raises, torn, SortedSymbols(TechStocks(df)));
            RfModelPath(s) !in models && s !in raises && TrainSingleStock(TechRowsOf(df, s)).Some? &&
            torn(s).None? ==>
              RfModelPath(s) in r.0 && r.0[RfModelPath(s)] == TrainSingleStock(TechRowsOf(df, s)).value
    ensures var r := Run(models, RfModelPath, Fits(df), raises, torn, SortedSymbols(TechStocks(df)));
            RfModelPath(s) !in models && s !in raises && TrainSingleStock(TechRowsOf(df, s)).Some? &&
            torn(s).Some? ==>
              RfModelPath(s) in r.0 && r.0[RfModelPath(s)] == torn(s).value
    ensures var r := Run(models, RfModelPath, Fits(df), raises, torn, SortedSymbols(TechStocks(df)));
            RfModelPath(s) !in models && (s in raises || TrainSingleStock(TechRowsOf(df, s)).None?) ==>
              RfModelPath(s) !in r.0
    ensures var r := Run(models, RfModelPath, Fits(df), raises, torn, SortedSymbols(TechStocks(df)));
            RfModelPath(s) in models ==> RfModelPath(s) in r.0 && r.0[RfModelPath(s)] == models[RfModelPath(s)]
  {
    var stocks := SortedSymbols(TechStocks(df));
    SortedSymbolsSpec(TechStocks(df));
    RunCountsNewFiles(models, RfModelPath, Fits(df), raises, torn, stocks);
    if RfModelPath(s) in models {
      RunKeepsExisting(models, RfModelPath, Fits(df), raises, torn, stocks, RfModelPath(s));
    } else {
      forall k | 0 <= k < |stocks| && stocks[k] != s ensures RfModelPath(stocks[k]) != RfModelPath(s) {
        KeptSuffixPathsInjective(stocks[k], s);
      }
      RunSavesFit(models, RfModelPath, Fits(df), raises, torn, stocks, s);
    }
  }
}
