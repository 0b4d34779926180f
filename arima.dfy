/** The classical baseline of `src/models/classical/arima_model.py`: difference
    the close series until the augmented Dickey-Fuller test calls it stationary,
    split it 80/20 in time order and fit ARIMA(5, d, 0) on the first part.
    Series are pandas series with missing values as None. */
module Arima {
  import opened Wrappers
  import opened Features
  import opened Registry
  import opened Symbols

  /** `adfuller(series)[1]`: the p-value of the test on a series without gaps. */
  type AdfPValue = seq<real> -> real

  /** Fewer points than this and no test is run. */
  const MinTestPoints: nat := 10

  /** `series.dropna()`. */
  function DropMissing(xs: seq<Option<real>>): (r: seq<real>)
    ensures |r| <= |xs|
  {
    if xs == [] then []
    else
      var last := xs[|xs| - 1];
      DropMissing(xs[..|xs| - 1]) + if last.Some? then [last.value] else []
  }

  /** A series without gaps loses nothing to `dropna`. */
  lemma {:induction false} DropMissingPresent(xs: seq<real>)
    ensures DropMissing(Present(xs)) == xs
  {
    if xs != [] {
      assert Present(xs)[..|xs| - 1] == Present(xs[..|xs| - 1]);
      DropMissingPresent(xs[..|xs| - 1]);
    }
  }

  /** `check_stationarity(series)`: true without testing when fewer than 10 points
      remain after `dropna`, else whether the test's p-value is below 0.05. */
  function CheckStationarity(series: seq<Option<real>>, pValue: AdfPValue): (r: bool)
    ensures !r ==> MinTestPoints <= |DropMissing(series)|
  {
    var present := DropMissing(series);
    |present| < MinTestPoints || pValue(present) < 0.05
  }

  /** A short series is accepted as it is: the test is not consulted. */
  lemma ShortSeriesNeedsNoTest(series: seq<Option<real>>, pValue: AdfPValue, other: AdfPValue)
    requires |DropMissing(series)| < MinTestPoints
    ensures CheckStationarity(series, pValue) && CheckStationarity(series, other)
  {
  }

  /** A long enough series is stationary exactly when the test rejects a unit root
      at the 5% level. */
  lemma LongSeriesFollowsTest(series: seq<Option<real>>, pValue: AdfPValue)
    requires |DropMissing(series)| >= MinTestPoints
    ensures CheckStationarity(series, pValue) <==> pValue(DropMissing(series)) < 0.05
  {
  }

  /** Missing values play no part in the verdict: the series and its `dropna()`
      are judged alike. */
  lemma StationarityIgnoresGaps(series: seq<Option<real>>, pValue: AdfPValue)
    ensures CheckStationarity(series, pValue) == CheckStationarity(Present(DropMissing(series)), pValue)
  {
    DropMissingPresent(DropMissing(series));
  }

  /** First differences of a series without gaps: `s[i + 1] - s[i]`. */
  function Diff(s: seq<real>): (r: seq<real>)
    ensures |r| == if s == [] then 0 else |s| - 1
  {
    if s == [] then [] else seq(|s| - 1, i requires 0 <= i < |s| - 1 => s[i + 1] - s[i])
  }

  /** `n` differencing passes. */
  function DiffN(s: seq<real>, n: nat): (r: seq<real>)
    ensures |r| == if |s| <= n then 0 else |s| - n
    decreases n
  {
    if n == 0 then s else DiffN(Diff(s), n - 1)
  }

  /** Running sums from a first value: the inverse of differencing. */
  function Integrate(first: real, diffs: seq<real>): (r: seq<real>)
    ensures |r| == |diffs| + 1 && r[0] == first
    decreases |diffs|
  {
    if diffs == [] then [first]
    else Integrate(first, diffs[..|diffs| - 1]) + [Integrate(first, diffs[..|diffs| - 1])[|diffs| - 1] + diffs[|diffs| - 1]]
  }

  /** Differencing loses only the first value: summing the differences back up from
      it rebuilds the series. */
  lemma {:induction false} IntegrateDiff(s: seq<real>)
    requires |s| > 0
    ensures Integrate(s[0], Diff(s)) == s
    decreases |s|
  {
    if |s| > 1 {
      var n := |s| - 1;
      var init, d := s[..n], Diff(s);
      assert d[..n - 1] == Diff(init);
      IntegrateDiff(init);
      var r := Integrate(s[0], d);
      assert r == Integrate(s[0], d[..n - 1]) + [Integrate(s[0], d[..n - 1])[n - 1] + d[n - 1]];
      assert r[..n] == init;
      assert r[n] == s[n - 1] + (s[n] - s[n - 1]);
      assert r == r[..n] + [r[n]] && s == init + [s[n]];
    }
  }

  /** `temp_series.diff().dropna()`: a difference wherever both neighbours are
      present. */
  function DiffPass(t: seq<Option<real>>): (r: seq<Option<real>>)
    ensures |r| < |t| || t == []
    ensures forall k :: 0 <= k < |r| ==> r[k].Some?
  {
    if |t| <= 1 then []
    else
      var steps := seq(|t| - 1, i requires 0 <= i < |t| - 1 =>
                         if t[i].Some? && t[i + 1].Some? then Some(t[i + 1].value - t[i].value) else None);
      Present(DropMissing(steps))
  }

  /** On a series without gaps a pass is plain differencing. */
  lemma DiffPassPresent(s: seq<real>)
    ensures DiffPass(Present(s)) == Present(Diff(s))
  {
    var t := Present(s);
    if |t| > 1 {
      var steps := seq(|t| - 1, i requires 0 <= i < |t| - 1 =>
                         if t[i].Some? && t[i + 1].Some? then Some(t[i + 1].value - t[i].value) else None);
      assert steps == Present(Diff(s));
      DropMissingPresent(Diff(s));
    }
  }

  /** What `make_stationary` returns: the series after the differencing passes and
      their number `d`. */
  function Differenced(t: seq<Option<real>>, pValue: AdfPValue): (r: (seq<Option<real>>, nat))
    ensures |r.0| + r.1 <= |t|
    ensures r.1 > 0 ==> forall k :: 0 <= k < |r.0| ==> r.0[k].Some?
    decreases |t|
  {
    if |DropMissing(t)| < MinTestPoints || CheckStationarity(t, pValue) then (t, 0)
    else
      var rest := Differenced(DiffPass(t), pValue);
      (rest.0, rest.1 + 1)
  }

  /** The loop stops on a series with fewer than 10 points or one the test calls
      stationary. */
  lemma {:induction false} DifferencedExit(t: seq<Option<real>>, pValue: AdfPValue)
    ensures var r := Differenced(t, pValue);
            |DropMissing(r.0)| < MinTestPoints || pValue(DropMissing(r.0)) < 0.05
    decreases |t|
  {
    if !(|DropMissing(t)| < MinTestPoints || CheckStationarity(t, pValue)) {
      DifferencedExit(DiffPass(t), pValue);
    }
  }

  /** On a series without gaps: the result is the series differenced `d` times, its
      length is the original length minus `d`, and every series before it was
      long enough to test and failed the test. */
  lemma {:induction false} DifferencedPresent(s: seq<real>, pValue: AdfPValue)
    ensures var r := Differenced(Present(s), pValue);
            r.0 == Present(DiffN(s, r.1)) && |r.0| == |s| - r.1
    ensures var r := Differenced(Present(s), pValue);
            forall j :: 0 <= j < r.1 ==>
              |DiffN(s, j)| >= MinTestPoints && pValue(DiffN(s, j)) >= 0.05
    decreases |s|
  {
    var r := Differenced(Present(s), pValue);
    DropMissingPresent(s);
    if !(|s| < MinTestPoints || pValue(s) < 0.05) {
      DiffPassPresent(s);
      DifferencedPresent(Diff(s), pValue);
      forall j | 0 <= j < r.1
        ensures |DiffN(s, j)| >= MinTestPoints && pValue(DiffN(s, j)) >= 0.05
      {
        if j > 0 {
          assert DiffN(s, j) == DiffN(Diff(s), j - 1);
        }
      }
    }
  }

  /** A series the first test already accepts comes back unchanged with d = 0. */
  lemma StationaryUnchanged(t: seq<Option<real>>, pValue: AdfPValue)
    requires CheckStationarity(t, pValue)
    ensures Differenced(t, pValue) == (t, 0)
  {
  }

  /** `make_stationary(series)`: the `while True` loop with its two exits. */
  method MakeStationary(series: seq<Option<real>>, pValue: AdfPValue)
    returns (t: seq<Option<real>>, d: nat)
    ensures (t, d) == Differenced(series, pValue)
  {
    t, d := series, 0;
    while true
      invariant Differenced(t, pValue).0 == Differenced(series, pValue).0
      invariant Differenced(t, pValue).1 + d == Differenced(series, pValue).1
      decreases |t|
    {
      if |DropMissing(t)| < MinTestPoints {
        break;
      }
      if CheckStationarity(t, pValue) {
        break;
      }
      t := DiffPass(t);
      d := d + 1;
    }
  }

  /** `time_split(series)`: the first `int(n * 0.8)` points for training, the rest
      for testing. */
  function TimeSplit<T>(s: seq<T>): (r: (seq<T>, seq<T>))
    ensures r.0 + r.1 == s
    ensures |r.0| == |s| * 8 / 10
  {
    var split := |s| * 8 / 10;
    (s[..split], s[split..])
  }

  /** The test part is the remaining fifth, rounded up, and never empty once there
      is at least one point. */
  lemma TimeSplitSizes<T>(s: seq<T>)
    ensures |TimeSplit(s).1| == |s| - |s| * 8 / 10
    ensures |s| > 0 ==> |TimeSplit(s).1| > 0
    ensures |TimeSplit(s).0| <= |TimeSplit(s).1| * 4
  {
  }

  /** The model `run_arima` saves for a loaded close series: order (5, d, 0) with
      d the number of differencing passes, fitted on the first 80% of the series
      differenced d times. */
  function ArimaFit(series: seq<real>, pValue: AdfPValue): (m: ArimaModel)
    ensures m.p == 5 && m.q == 0 && m.d == Differenced(Present(series), pValue).1
    ensures m.train == TimeSplit(Present(DiffN(series, m.d))).0
  {
    var r := Differenced(Present(series), pValue);
    DifferencedPresent(series, pValue);
    ArimaModel(TimeSplit(r.0).0, 5, r.1, 0)
  }

  /** Differencing passes compose: the order's own d differences the already
      differenced training series again, so the autoregressive part of the saved
      model sees the closes differenced 2d times. */
  lemma DiffNAdd(s: seq<real>, a: nat, b: nat)
    ensures DiffN(DiffN(s, a), b) == DiffN(s, a + b)
  {
    DiffNIterate(s, a);
    DiffNIterate(DiffN(s, a), b);
    DiffNIterate(s, a + b);
    IterateAdd(Diff, s, a, b);
  }

  /** `n` applications of `f`. */
  function Iterate<T>(f: T -> T, x: T, n: nat): T
    decreases n
  {
    if n == 0 then x else Iterate(f, f(x), n - 1)
  }

  lemma {:induction false} IterateAdd<T>(f: T -> T, x: T, a: nat, b: nat)
    ensures Iterate(f, Iterate(f, x, a), b) == Iterate(f, x, a + b)
    decreases a
  {
    if a > 0 {
      IterateAdd(f, f(x), a - 1, b);
    }
  }

  lemma {:induction false} DiffNIterate(s: seq<real>, n: nat)
    ensures DiffN(s, n) == Iterate(Diff, s, n)
    decreases n
  {
    if n > 0 {
      DiffNIterate(Diff(s), n - 1);
    }
  }

  /** `run_arima(stock)` on the stock's loaded close series: difference, split,
      fit ARIMA(5, d, 0) on the training part and write `models/arima_{stock}.pkl`,
      replacing any earlier file. */
  method RunArima(store: ArtifactStore, stock: string, series: seq<real>, pValue: AdfPValue)
    modifies store
    ensures store.arimaModels == old(store.arimaModels)[ArimaModelPath(stock) := ArimaFit(series, pValue)]
    ensures store.kerasModels == old(store.kerasModels) && store.scalers == old(store.scalers)
    ensures store.prophetModels == old(store.prophetModels) && store.rfModels == old(store.rfModels)
  {
    var stationary, d := MakeStationary(Present(series), pValue);
    var split := TimeSplit(stationary);
    var model := ArimaModel(split.0, 5, d, 0);
    store.arimaModels := store.arimaModels[ArimaModelPath(stock) := model];
  }
}
