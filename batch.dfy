/** The loop shared by the two batch trainers (random forest and Prophet): for
    every stock, skip it when its model file exists, skip it when there is too
    little data, count it as failed when fitting or saving raises, else save the
    model and count it as trained.  A model directory is a map from path to model,
    `path(stock)` the stock's file, `fits(stock)` the model fitted for it (None
    when the data guard rejects the stock), `raises` the stocks whose fit raises
    (no file is written), and `torn(stock)` what a `joblib.dump` that raises
    leaves at the path, which it opened before pickling (None when the dump
    succeeds). */
module Batch {
  import opened Wrappers
  import opened Sequences

  datatype Outcome = Trained | Skipped | Failed

  /** The `trained`, `skipped` and `failed` counters. */
  datatype Tally = Tally(trained: nat, skipped: nat, failed: nat)

  function Total(t: Tally): nat
  {
    t.trained + t.skipped + t.failed
  }

  /** One `+= 1` on the counter the outcome names. */
  function Record(t: Tally, o: Outcome): (r: Tally)
    ensures Total(r) == Total(t) + 1
    ensures r.trained == t.trained + (if o == Trained then 1 else 0)
    ensures r.skipped == t.skipped + (if o == Skipped then 1 else 0)
    ensures r.failed == t.failed + (if o == Failed then 1 else 0)
  {
    match o
    case Trained => t.(trained := t.trained + 1)
    case Skipped => t.(skipped := t.skipped + 1)
    case Failed => t.(failed := t.failed + 1)
  }

  /** One pass of the loop body for `stock`: a stock with a file is skipped
      without a write, a skipped stock writes nothing, and no step touches a path
      other than the stock's own. */
  function Step<M>(models: map<string, M>, path: string -> string, fits: string -> Option<M>,
                   raises: set<string>, torn: string -> Option<M>, stock: string)
    : (r: (map<string, M>, Outcome))
    ensures path(stock) in models ==> r == (models, Skipped)
    ensures r.1 == Skipped ==> r.0 == models
    ensures r.1 == Trained ==> fits(stock).Some? && r.0 == models[path(stock) := fits(stock).value]
    ensures r.0 == models || (path(stock) in r.0 && r.0 == models[path(stock) := r.0[path(stock)]])
  {
    if path(stock) in models then (models, Skipped)
    else
      match fits(stock)
      case None => (models, Skipped)
      case Some(m) =>
        if stock in raises then (models, Failed)
        else
          match torn(stock)
          case Some(partial) => (models[path(stock) := partial], Failed)
          case None => (models[path(stock) := m], Trained)
  }

  /** The model directory and the counters after the loop has handled `stocks`:
      every stock is counted exactly once. */
  function Run<M>(models: map<string, M>, path: string -> string, fits: string -> Option<M>,
                  raises: set<string>, torn: string -> Option<M>, stocks: seq<string>)
    : (r: (map<string, M>, Tally))
    ensures r.1.trained + r.1.skipped + r.1.failed == |stocks|
    decreases |stocks|
  {
    if stocks == [] then (models, Tally(0, 0, 0))
    else
      var prev := Run(models, path, fits, raises, torn, stocks[..|stocks| - 1]);
      var step := Step(prev.0, path, fits, raises, torn, stocks[|stocks| - 1]);
      (step.0, Record(prev.1, step.1))
  }

  lemma RunStep<M>(models: map<string, M>, path: string -> string, fits: string -> Option<M>,
                   raises: set<string>, torn: string -> Option<M>, stocks: seq<string>, k: nat)
    requires k < |stocks|
    ensures var prev := Run(models, path, fits, raises, torn, stocks[..k]);
            var step := Step(prev.0, path, fits, raises, torn, stocks[k]);
            Run(models, path, fits, raises, torn, stocks[..k + 1]) == (step.0, Record(prev.1, step.1))
  {
    assert stocks[..k + 1][..k] == stocks[..k];
  }

  lemma StepAddsOneFile<M>(models: map<string, M>, path: string -> string, fits: string -> Option<M>,
                           raises: set<string>, torn: string -> Option<M>, stock: string)
    ensures var step := Step(models, path, fits, raises, torn, stock);
            (step.1 == Trained ==> |step.0.Keys| == |models.Keys| + 1) &&
            (step.1 == Skipped ==> |step.0.Keys| == |models.Keys|) &&
            (step.1 == Failed ==> |models.Keys| <= |step.0.Keys| <= |models.Keys| + 1) &&
            (torn(stock).None? && step.1 == Failed ==> |step.0.Keys| == |models.Keys|)
  {
    var step := Step(models, path, fits, raises, torn, stock);
    if step.0 != models {
      assert step.0.Keys == models.Keys + {path(stock)};
    }
  }

  /** Each `trained` is one new model file, and each `failed` adds at most one,
      the file a failed dump leaves. */
  lemma {:induction false} RunCountsNewFiles<M>(models: map<string, M>, path: string -> string,
                                                fits: string -> Option<M>, raises: set<string>,
                                                torn: string -> Option<M>, stocks: seq<string>)
    ensures var r := Run(models, path, fits, raises, torn, stocks);
            |models.Keys| + r.1.trained <= |r.0.Keys| <= |models.Keys| + r.1.trained + r.1.failed
    decreases |stocks|
  {
    if stocks != [] {
      var init := stocks[..|stocks| - 1];
      var last := stocks[|stocks| - 1];
      var prev := Run(models, path, fits, raises, torn, init);
      var step := Step(prev.0, path, fits, raises, torn, last);
      var r := Run(models, path, fits, raises, torn, stocks);
      assert r.0 == step.0 && r.1 == Record(prev.1, step.1);
      RunCountsNewFiles(models, path, fits, raises, torn, init);
      StepAddsOneFile(prev.0, path, fits, raises, torn, last);
    }
  }

  /** When no dump fails, the new model files are exactly the trained stocks. */
  lemma {:induction false} RunWithoutTornFiles<M>(models: map<string, M>, path: string -> string,
                                                  fits: string -> Option<M>, raises: set<string>,
                                                  torn: string -> Option<M>, stocks: seq<string>)
    requires forall k :: 0 <= k < |stocks| ==> torn(stocks[k]).None?
    ensures |Run(models, path, fits, raises, torn, stocks).0.Keys| ==
            |models.Keys| + Run(models, path, fits, raises, torn, stocks).1.trained
    decreases |stocks|
  {
    if stocks != [] {
      var init := stocks[..|stocks| - 1];
      var last := stocks[|stocks| - 1];
      var prev := Run(models, path, fits, raises, torn, init);
      var step := Step(prev.0, path, fits, raises, torn, last);
      var r := Run(models, path, fits, raises, torn, stocks);
      assert r.0 == step.0 && r.1 == Record(prev.1, step.1);
      forall k | 0 <= k < |init| ensures torn(init[k]).None? {
        assert init[k] == stocks[k];
      }
      RunWithoutTornFiles(models, path, fits, raises, torn, init);
      StepAddsOneFile(prev.0, path, fits, raises, torn, last);
    }
  }

  /** A model file that exists before the run is neither replaced nor removed. */
  lemma {:induction false} RunKeepsExisting<M>(models: map<string, M>, path: string -> string,
                                               fits: string -> Option<M>, raises: set<string>,
                                               torn: string -> Option<M>, stocks: seq<string>, p: string)
    requires p in models
    ensures p in Run(models, path, fits, raises, torn, stocks).0
    ensures Run(models, path, fits, raises, torn, stocks).0[p] == models[p]
    decreases |stocks|
  {
    if stocks != [] {
      var prev := Run(models, path, fits, raises, torn, stocks[..|stocks| - 1]);
      RunKeepsExisting(models, path, fits, raises, torn, stocks[..|stocks| - 1], p);
      var step := Step(prev.0, path, fits, raises, torn, stocks[|stocks| - 1]);
      assert Run(models, path, fits, raises, torn, stocks).0 == step.0;
    }
  }

  /** After the run every stock has a model file, unless the data guard rejected
      it or its fit raised. */
  lemma {:induction false} RunCovers<M>(models: map<string, M>, path: string -> string,
                                        fits: string -> Option<M>, raises: set<string>,
                                        torn: string -> Option<M>, stocks: seq<string>)
    ensures forall k :: 0 <= k < |stocks| ==>
              path(stocks[k]) in Run(models, path, fits, raises, torn, stocks).0 ||
              fits(stocks[k]).None? || stocks[k] in raises
    decreases |stocks|
  {
    if stocks != [] {
      var init := stocks[..|stocks| - 1];
      RunCovers(models, path, fits, raises, torn, init);
      forall k | 0 <= k < |stocks| - 1
        ensures path(stocks[k]) in Run(models, path, fits, raises, torn, init).0 ||
                fits(stocks[k]).None? || stocks[k] in raises
      {
        assert init[k] == stocks[k];
      }
    }
  }

  /** A path that is not the file of any stock in the list is left as it was. */
  lemma {:induction false} RunLeavesOthers<M>(models: map<string, M>, path: string -> string,
                                              fits: string -> Option<M>, raises: set<string>,
                                              torn: string -> Option<M>, stocks: seq<string>, p: string)
    requires forall k :: 0 <= k < |stocks| ==> path(stocks[k]) != p
    ensures p in Run(models, path, fits, raises, torn, stocks).0 <==> p in models
    ensures p in models ==> Run(models, path, fits, raises, torn, stocks).0[p] == models[p]
    decreases |stocks|
  {
    if stocks != [] {
      RunLeavesOthers(models, path, fits, raises, torn, stocks[..|stocks| - 1], p);
    }
  }

  /** With distinct stocks and one file per stock, a stock without a file before
      the run ends with the model fitted for it when fit and dump succeed, with
      what the failed dump left when only the dump raised, and with no file when
      the data guard rejected it or its fit raised. */
  lemma {:induction false} RunSavesFit<M>(models: map<string, M>, path: string -> string,
                                          fits: string -> Option<M>, raises: set<string>,
                                          torn: string -> Option<M>, stocks: seq<string>, s: string)
    requires Distinct(stocks) && s in stocks && path(s) !in models
    requires forall k :: 0 <= k < |stocks| && stocks[k] != s ==> path(stocks[k]) != path(s)
    ensures fits(s).Some? && s !in raises && torn(s).None? ==>
              path(s) in Run(models, path, fits, raises, torn, stocks).0 &&
              Run(models, path, fits, raises, torn, stocks).0[path(s)] == fits(s).value
    ensures fits(s).Some? && s !in raises && torn(s).Some? ==>
              path(s) in Run(models, path, fits, raises, torn, stocks).0 &&
              Run(models, path, fits, raises, torn, stocks).0[path(s)] == torn(s).value
    ensures fits(s).None? || s in raises ==> path(s) !in Run(models, path, fits, raises, torn, stocks).0
    decreases |stocks|
  {
    var init := stocks[..|stocks| - 1];
    var last := stocks[|stocks| - 1];
    assert Distinct(init);
    if last == s {
      assert s !in init;
      forall k | 0 <= k < |init| ensures path(init[k]) != path(s) {
        assert init[k] == stocks[k];
      }
      RunLeavesOthers(models, path, fits, raises, torn, init, path(s));
    } else {
      assert s in init by {
        var k :| 0 <= k < |stocks| && stocks[k] == s;
        assert init[k] == s;
      }
      forall k | 0 <= k < |init| && init[k] != s ensures path(init[k]) != path(s) {
        assert init[k] == stocks[k];
      }
      RunSavesFit(models, path, fits, raises, torn, init, s);
    }
  }

  lemma {:induction false} RunWithNothingToDo<M>(models: map<string, M>, path: string -> string,
                                                 fits: string -> Option<M>, raises: set<string>,
                                                 torn: string -> Option<M>, stocks: seq<string>)
    requires forall k :: 0 <= k < |stocks| ==>
               path(stocks[k]) in models || fits(stocks[k]).None? || stocks[k] in raises
    ensures Run(models, path, fits, raises, torn, stocks).0 == models
    ensures Run(models, path, fits, raises, torn, stocks).1.trained == 0
    decreases |stocks|
  {
    if stocks != [] {
      var init := stocks[..|stocks| - 1];
      forall k | 0 <= k < |init|
        ensures path(init[k]) in models || fits(init[k]).None? || init[k] in raises
      {
        assert init[k] == stocks[k];
      }
      RunWithNothingToDo(models, path, fits, raises, torn, init);
    }
  }

  /** Running the loop a second time on the same data writes nothing and trains
      nothing: every file it could write exists already, a torn one included. */
  lemma RerunTrainsNothing<M>(models: map<string, M>, path: string -> string, fits: string -> Option<M>,
                              raises: set<string>, torn: string -> Option<M>, stocks: seq<string>)
    ensures var first := Run(models, path, fits, raises, torn, stocks).0;
            Run(first, path, fits, raises, torn, stocks).0 == first &&
            Run(first, path, fits, raises, torn, stocks).1.trained == 0
  {
    RunCovers(models, path, fits, raises, torn, stocks);
    RunWithNothingToDo(Run(models, path, fits, raises, torn, stocks).0, path, fits, raises, torn, stocks);
  }
}
