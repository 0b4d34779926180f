/** The indicator engine of `src/features.py`: per-stock rolling windows over the
    close series, then the concatenation of all stocks and `dropna()`.

    pandas' NaN is `None`.  A rolling window of width w at row i is defined when
    rows i-w+1..i exist and all hold a value (pandas' default `min_periods = w`). */
module Features {
  import opened Wrappers
  import opened Sequences
  import opened Frames

  const ShortWindow: nat := 20
  const LongWindow: nat := 50
  const VolatilityWindow: nat := 20
  const RsiWindow: nat := 14

  /** A price row with the indicator columns added.  `variance20` is the square of
      `Volatility_20`: the rolling sample variance of the returns. */
  datatype IndicatorRow = IndicatorRow(base: PriceRow, sma20: Option<real>, sma50: Option<real>,
                                       dayReturn: Option<real>, variance20: Option<real>,
                                       rsi14: Option<real>)

  function Sum(xs: seq<real>): real
  {
    if xs == [] then 0.0 else Sum(xs[..|xs| - 1]) + xs[|xs| - 1]
  }

  /** A sum lies between |xs| times a lower and |xs| times an upper bound of its terms. */
  lemma {:induction false} SumBounds(xs: seq<real>, lo: real, hi: real)
    requires forall k :: 0 <= k < |xs| ==> lo <= xs[k] <= hi
    ensures |xs| as real * lo <= Sum(xs) <= |xs| as real * hi
  {
    if xs != [] {
      var init, x := xs[..|xs| - 1], xs[|xs| - 1];
      var m := |init| as real;
      SumBounds(init, lo, hi);
      assert m * lo <= Sum(init) <= m * hi;
      assert Sum(xs) == Sum(init) + x;
      assert |xs| as real * lo == m * lo + lo && |xs| as real * hi == m * hi + hi;
    }
  }

  lemma MeanBounds(total: real, w: real, lo: real, hi: real)
    requires w > 0.0 && w * lo <= total <= w * hi
    ensures lo <= total / w <= hi
  {
    assert total / w * w == total;
  }

  lemma QuotientIs(a: real, b: real, q: real)
    requires b != 0.0 && q * b == a
    ensures a / b == q
  {
  }

  /** A sum of non-negative terms is zero exactly when every term is. */
  lemma {:induction false} SumZero(xs: seq<real>)
    requires forall k :: 0 <= k < |xs| ==> xs[k] >= 0.0
    ensures Sum(xs) >= 0.0
    ensures Sum(xs) == 0.0 <==> forall k :: 0 <= k < |xs| ==> xs[k] == 0.0
  {
    if xs != [] {
      var init := xs[..|xs| - 1];
      SumZero(init);
      if Sum(xs) == 0.0 {
        forall k | 0 <= k < |xs| ensures xs[k] == 0.0 {
          if k < |xs| - 1 { assert xs[k] == init[k]; }
        }
      }
    }
  }

  predicate AllPresent(xs: seq<Option<real>>)
  {
    forall k :: 0 <= k < |xs| ==> xs[k].Some?
  }

  function Values(xs: seq<Option<real>>): (v: seq<real>)
    requires AllPresent(xs)
    ensures |v| == |xs| && forall k :: 0 <= k < |xs| ==> v[k] == xs[k].value
  {
    seq(|xs|, k requires 0 <= k < |xs| => xs[k].value)
  }

  /** A column with no missing value. */
  function Present(xs: seq<real>): (r: seq<Option<real>>)
    ensures |r| == |xs| && forall k :: 0 <= k < |xs| ==> r[k] == Some(xs[k])
  {
    seq(|xs|, k requires 0 <= k < |xs| => Some(xs[k]))
  }

  /** `column.rolling(w).mean()` at row i. */
  function RollingMean(xs: seq<Option<real>>, i: nat, w: nat): (r: Option<real>)
    requires 0 < w && i < |xs|
    ensures r.Some? ==> w <= i + 1 && forall k :: i + 1 - w <= k <= i ==> xs[k].Some?
  {
    if i + 1 < w then None
    else
      var win := xs[i + 1 - w..i + 1];
      if AllPresent(win) then Some(Sum(Values(win)) / w as real) else None
  }

  function SquaredDeviations(v: seq<real>, m: real): real
  {
    if v == [] then 0.0
    else SquaredDeviations(v[..|v| - 1], m) + (v[|v| - 1] - m) * (v[|v| - 1] - m)
  }

  lemma {:induction false} SquaredDeviationsNonNegative(v: seq<real>, m: real)
    ensures SquaredDeviations(v, m) >= 0.0
  {
    if v != [] {
      SquaredDeviationsNonNegative(v[..|v| - 1], m);
      var e := v[|v| - 1] - m;
      if e < 0.0 {
        assert e * e == (-e) * (-e);
      }
    }
  }

  /** `column.rolling(w).std()` squared: the sample variance (divisor w - 1). */
  function RollingVariance(xs: seq<Option<real>>, i: nat, w: nat): (r: Option<real>)
    requires 1 < w && i < |xs|
    ensures r.Some? ==> w <= i + 1 && forall k :: i + 1 - w <= k <= i ==> xs[k].Some?
    ensures r.Some? ==> r.value >= 0.0
  {
    if i + 1 < w then None
    else
      var win := xs[i + 1 - w..i + 1];
      if AllPresent(win) then
        var v := Values(win);
        SquaredDeviationsNonNegative(v, Sum(v) / w as real);
        Some(SquaredDeviations(v, Sum(v) / w as real) / (w - 1) as real)
      else None
  }

  /** `close.diff()`. */
  function Deltas(c: seq<real>): (d: seq<Option<real>>)
    ensures |d| == |c|
  {
    seq(|c|, i requires 0 <= i < |c| => if i == 0 then None else Some(c[i] - c[i - 1]))
  }

  /** `close.pct_change()`.  A zero previous close, for which pandas gives an
      infinity or NaN, is taken as missing. */
  function PctChange(c: seq<real>): (r: seq<Option<real>>)
    ensures |r| == |c|
    ensures forall i :: 0 <= i < |c| ==> (r[i].Some? <==> 1 <= i && c[i - 1] != 0.0)
  {
    seq(|c|, i requires 0 <= i < |c| =>
      if i == 0 || c[i - 1] == 0.0 then None else Some((c[i] - c[i - 1]) / c[i - 1]))
  }

  /** `delta.clip(lower=0)` on one value. */
  function Gain(d: real): real
  {
    if d < 0.0 then 0.0 else d
  }

  /** `-delta.clip(upper=0)` on one value. */
  function Loss(d: real): real
  {
    -(if d > 0.0 then 0.0 else d)
  }

  /** A column mapped value by value, NaN staying NaN. */
  function MapPresent(xs: seq<Option<real>>, f: real -> real): (r: seq<Option<real>>)
    ensures |r| == |xs|
    ensures forall k :: 0 <= k < |xs| ==> r[k].Some? == xs[k].Some?
    ensures forall k :: 0 <= k < |xs| && xs[k].Some? ==> r[k].value == f(xs[k].value)
  {
    seq(|xs|, k requires 0 <= k < |xs| => if xs[k].Some? then Some(f(xs[k].value)) else None)
  }

  /** Gain and loss split a delta: both non-negative, at most one non-zero, and
      their difference is the delta. */
  lemma GainLossSplit(d: real)
    ensures Gain(d) >= 0.0 && Loss(d) >= 0.0
    ensures Gain(d) == 0.0 || Loss(d) == 0.0
    ensures Gain(d) - Loss(d) == d
  {
  }

  /** IEEE division of two non-negative numbers. */
  datatype Quotient = Finite(q: real) | PosInf | NaN

  function Divide(a: real, b: real): (r: Quotient)
    requires a >= 0.0 && b >= 0.0
    ensures r.Finite? ==> r.q >= 0.0
  {
    if b > 0.0 then Finite(a / b) else if a > 0.0 then PosInf else NaN
  }

  /** `100 - 100 / (1 + rs)` with `rs = avg_gain / avg_loss`: an infinite `rs` gives
      100, a NaN one (both averages zero) stays NaN. */
  function RsiOf(avgGain: Option<real>, avgLoss: Option<real>): (r: Option<real>)
    requires avgGain.Some? ==> avgGain.value >= 0.0
    requires avgLoss.Some? ==> avgLoss.value >= 0.0
    ensures r.Some? ==> avgGain.Some? && avgLoss.Some? && 0.0 <= r.value <= 100.0
  {
    if avgGain.None? || avgLoss.None? then None
    else
      match Divide(avgGain.value, avgLoss.value)
      case Finite(rs) =>
        MeanBounds(100.0, 1.0 + rs, 0.0, 100.0);
        Some(100.0 - 100.0 / (1.0 + rs))
      case PosInf => Some(100.0)
      case NaN => None
  }

  function Gains(c: seq<real>): seq<Option<real>>
  {
    MapPresent(Deltas(c), Gain)
  }

  function Losses(c: seq<real>): seq<Option<real>>
  {
    MapPresent(Deltas(c), Loss)
  }

  /** A rolling mean of a column of non-negative values is non-negative. */
  lemma RollingMeanNonNegative(xs: seq<Option<real>>, i: nat, w: nat)
    requires 0 < w && i < |xs|
    requires forall k :: 0 <= k < |xs| && xs[k].Some? ==> xs[k].value >= 0.0
    ensures RollingMean(xs, i, w).Some? ==> RollingMean(xs, i, w).value >= 0.0
  {
    if i + 1 >= w {
      var win := xs[i + 1 - w..i + 1];
      if AllPresent(win) {
        var v := Values(win);
        assert forall k :: 0 <= k < |v| ==> v[k] == xs[i + 1 - w + k].value;
        SumZero(v);
      }
    }
  }

  /** `RSI_14` at row i. */
  function RsiAt(c: seq<real>, i: nat): (r: Option<real>)
    requires i < |c|
    ensures r.Some? ==> RsiWindow <= i && 0.0 <= r.value <= 100.0
  {
    assert i + 1 == RsiWindow ==> Gains(c)[0..RsiWindow][0] == Gains(c)[0];
    var ag := RollingMean(Gains(c), i, RsiWindow);
    var al := RollingMean(Losses(c), i, RsiWindow);
    GainsNonNegative(c);
    RollingMeanNonNegative(Gains(c), i, RsiWindow);
    RollingMeanNonNegative(Losses(c), i, RsiWindow);
    RsiOf(ag, al)
  }

  lemma GainsNonNegative(c: seq<real>)
    ensures forall k :: 0 <= k < |c| && Gains(c)[k].Some? ==> Gains(c)[k].value >= 0.0
    ensures forall k :: 0 <= k < |c| && Losses(c)[k].Some? ==> Losses(c)[k].value >= 0.0
  {
    forall k | 0 <= k < |c| && Deltas(c)[k].Some?
      ensures Gains(c)[k].value >= 0.0 && Losses(c)[k].value >= 0.0
    {
      GainLossSplit(Deltas(c)[k].value);
    }
  }

  /** The indicator columns of row i of a date-sorted stock frame. */
  function IndicatorsAt(sorted: seq<PriceRow>, i: nat): (r: IndicatorRow)
    requires i < |sorted|
    ensures r.base == sorted[i]
    ensures r.sma20.Some? <==> ShortWindow <= i + 1
    ensures r.sma50.Some? <==> LongWindow <= i + 1
    ensures r.dayReturn.Some? <==> 1 <= i && sorted[i - 1].close != 0.0
    ensures r.variance20.Some? ==> VolatilityWindow <= i && r.variance20.value >= 0.0
    ensures r.rsi14.Some? ==> RsiWindow <= i && 0.0 <= r.rsi14.value <= 100.0
  {
    var c := Closes(sorted);
    var pct := PctChange(c);
    assert RollingVariance(pct, i, VolatilityWindow).Some? ==> pct[i + 1 - VolatilityWindow].Some?;
    IndicatorRow(sorted[i],
                 RollingMean(Present(c), i, ShortWindow),
                 RollingMean(Present(c), i, LongWindow),
                 pct[i],
                 RollingVariance(pct, i, VolatilityWindow),
                 RsiAt(c, i))
  }

  /** The original columns of each row. */
  function Bases(rows: seq<IndicatorRow>): (r: seq<PriceRow>)
    ensures |r| == |rows| && forall i :: 0 <= i < |rows| ==> r[i] == rows[i].base
  {
    seq(|rows|, i requires 0 <= i < |rows| => rows[i].base)
  }

  /** `compute_indicators`: sort one stock's rows by date and add the indicator
      columns.  The original rows come out unchanged, only reordered by date. */
  function ComputeIndicators(rows: seq<PriceRow>): (r: seq<IndicatorRow>)
    ensures |r| == |rows|
    ensures multiset(Bases(r)) == multiset(rows)
    ensures SortedBy(Bases(r), PriceByDate)
  {
    var sorted := SortPricesByDate(rows);
    var r := seq(|sorted|, i requires 0 <= i < |sorted| => IndicatorsAt(sorted, i));
    assert Bases(r) == sorted;
    r
  }

  /** Row i of the output holds row i of the date-sorted input with the indicator
      columns computed on the sorted closes. */
  lemma ComputeIndicatorsColumns(rows: seq<PriceRow>, i: nat)
    requires i < |rows|
    ensures var sorted := SortPricesByDate(rows);
            var c := Closes(sorted);
            var row := ComputeIndicators(rows)[i];
            row.base == sorted[i] &&
            row.sma20 == RollingMean(Present(c), i, ShortWindow) &&
            row.sma50 == RollingMean(Present(c), i, LongWindow) &&
            row.dayReturn == PctChange(c)[i] &&
            row.variance20 == RollingVariance(PctChange(c), i, VolatilityWindow) &&
            row.rsi14 == RsiAt(c, i)
  {
  }

  /** A rolling window at row i reads nothing after row i. */
  lemma RollingPrefix(xs: seq<Option<real>>, n: nat, i: nat, w: nat)
    requires 0 < w && i < n <= |xs|
    ensures RollingMean(xs[..n], i, w) == RollingMean(xs, i, w)
    ensures 1 < w ==> RollingVariance(xs[..n], i, w) == RollingVariance(xs, i, w)
  {
    if w <= i + 1 {
      assert xs[..n][i + 1 - w..i + 1] == xs[i + 1 - w..i + 1];
    }
  }

  /** No look-ahead: the indicators of row i are the same whether the frame ends
      at row i or goes on. */
  lemma IndicatorsNoLookAhead(sorted: seq<PriceRow>, i: nat, n: nat)
    requires i < n <= |sorted|
    ensures IndicatorsAt(sorted[..n], i) == IndicatorsAt(sorted, i)
  {
    var c, c' := Closes(sorted), Closes(sorted[..n]);
    assert c' == c[..n];
    assert Present(c') == Present(c)[..n];
    assert PctChange(c') == PctChange(c)[..n];
    assert Gains(c') == Gains(c)[..n];
    assert Losses(c') == Losses(c)[..n];
    RollingPrefix(Present(c), n, i, ShortWindow);
    RollingPrefix(Present(c), n, i, LongWindow);
    RollingPrefix(PctChange(c), n, i, VolatilityWindow);
    RollingPrefix(Gains(c), n, i, RsiWindow);
    RollingPrefix(Losses(c), n, i, RsiWindow);
  }

  /** No indicator of the row is NaN. */
  predicate Complete(row: IndicatorRow)
  {
    row.sma20.Some? && row.sma50.Some? && row.dayReturn.Some? &&
    row.variance20.Some? && row.rsi14.Some?
  }

  /** `dropna()`. */
  function DropNa(rows: seq<IndicatorRow>): (r: seq<IndicatorRow>)
    ensures forall x :: x in r ==> Complete(x) && x in rows
    ensures forall x :: x in rows && Complete(x) ==> x in r
  {
    Filter(rows, Complete)
  }

  /** `pd.concat` of a list of frames. */
  function Flatten<T>(frames: seq<seq<T>>): seq<T>
  {
    if frames == [] then [] else Flatten(frames[..|frames| - 1]) + frames[|frames| - 1]
  }

  /** The frames `build_all_indicators` collects, one per stock of `stocks`. */
  function StockFrames(df: seq<PriceRow>, stocks: seq<string>): (r: seq<seq<IndicatorRow>>)
    ensures |r| == |stocks|
    decreases |stocks|
  {
    if stocks == [] then []
    else StockFrames(df, stocks[..|stocks| - 1]) + [ComputeIndicators(PriceRowsOf(df, stocks[|stocks| - 1]))]
  }

  lemma StockFramesSnoc(df: seq<PriceRow>, stocks: seq<string>, k: nat)
    requires k < |stocks|
    ensures StockFrames(df, stocks[..k + 1]) ==
            StockFrames(df, stocks[..k]) + [ComputeIndicators(PriceRowsOf(df, stocks[k]))]
  {
    assert stocks[..k + 1][..k] == stocks[..k];
  }

  /** `pd.concat` raises on an empty list of frames. */
  datatype BuildError = NoObjectsToConcatenate

  /** What `build_all_indicators` returns: the concatenation fails when the table
      has no stock at all. */
  function BuildAll(df: seq<PriceRow>): Result<seq<IndicatorRow>, BuildError>
  {
    var stocks := Unique(PriceStocks(df));
    if stocks == [] then Failure(NoObjectsToConcatenate)
    else Success(DropNa(Flatten(StockFrames(df, stocks))))
  }

  /** `build_all_indicators`: one `compute_indicators` per stock, in order of
      first appearance, appended to a list, concatenated, then `dropna()`. */
  method BuildAllIndicators(df: seq<PriceRow>) returns (final: Result<seq<IndicatorRow>, BuildError>)
    ensures final == BuildAll(df)
    ensures final.Failure? <==> df == []
    ensures final.Success? ==> forall i :: 0 <= i < |final.value| ==> Complete(final.value[i])
  {
    var processed: seq<seq<IndicatorRow>> := [];
    var stocks := Unique(PriceStocks(df));
    for k := 0 to |stocks|
      invariant processed == StockFrames(df, stocks[..k])
    {
      var stockDf := PriceRowsOf(df, stocks[k]);
      var withIndicators := ComputeIndicators(stockDf);
      StockFramesSnoc(df, stocks, k);
      processed := processed + [withIndicators];
    }
    assert stocks[..|stocks|] == stocks;
    if df != [] {
      assert PriceStocks(df)[0] in stocks;
    }
    if processed == [] {
      return Failure(NoObjectsToConcatenate);
    }
    var rows := DropNa(Flatten(processed));
    forall i | 0 <= i < |rows| ensures Complete(rows[i]) {
      assert rows[i] in rows;
    }
    final := Success(rows);
  }

  // ---------------------------------------------------------------------------
  // Properties of the columns

  /** The SMA of width w is defined exactly from row w-1 on. */
  lemma SmaDefinedFrom(c: seq<real>, i: nat, w: nat)
    requires 0 < w && i < |c|
    ensures RollingMean(Present(c), i, w).Some? <==> i + 1 >= w
  {
  }

  /** Where defined, the SMA is the mean of closes i-w+1..i, and so lies between
      any bounds of those closes (a flat window gives its price). */
  lemma SmaIsWindowMean(c: seq<real>, i: nat, w: nat, lo: real, hi: real)
    requires 0 < w && w <= i + 1 && i < |c|
    requires forall k :: i + 1 - w <= k <= i ==> lo <= c[k] <= hi
    ensures RollingMean(Present(c), i, w).Some?
    ensures RollingMean(Present(c), i, w).value == Sum(c[i + 1 - w..i + 1]) / w as real
    ensures lo <= RollingMean(Present(c), i, w).value <= hi
  {
    var cs := c[i + 1 - w..i + 1];
    SmaValue(c, i, w);
    assert lo <= Sum(cs) / w as real <= hi by {
      forall k | 0 <= k < |cs| ensures lo <= cs[k] <= hi {
        assert cs[k] == c[i + 1 - w + k];
      }
      SumBounds(cs, lo, hi);
      MeanBounds(Sum(cs), w as real, lo, hi);
    }
  }

  lemma SmaValue(c: seq<real>, i: nat, w: nat)
    requires 0 < w && w <= i + 1 && i < |c|
    ensures RollingMean(Present(c), i, w) == Some(Sum(c[i + 1 - w..i + 1]) / w as real)
  {
    PresentWindow(c, i + 1 - w, i + 1);
    ValuesPresent(c[i + 1 - w..i + 1]);
  }

  lemma PresentWindow(c: seq<real>, from: nat, to: nat)
    requires from <= to <= |c|
    ensures Present(c)[from..to] == Present(c[from..to])
  {
  }

  lemma ValuesPresent(cs: seq<real>)
    ensures AllPresent(Present(cs)) && Values(Present(cs)) == cs
  {
  }

  /** The return at row i is defined from row 1 on (previous close non-zero), and
      compounding the previous close by it gives the close. */
  lemma ReturnsCompound(c: seq<real>, i: nat)
    requires i < |c|
    ensures PctChange(c)[i].Some? <==> i >= 1 && c[i - 1] != 0.0
    ensures PctChange(c)[i].Some? ==> c[i] == c[i - 1] * (1.0 + PctChange(c)[i].value)
  {
    if i >= 1 && c[i - 1] != 0.0 {
      var r := (c[i] - c[i - 1]) / c[i - 1];
      assert c[i - 1] * r == c[i] - c[i - 1];
    }
  }

  /** With no zero close, the squared volatility is defined exactly from row 20 on
      (its 20 returns start at row 1) and is never negative. */
  lemma VarianceDefinedFrom20(c: seq<real>, i: nat)
    requires i < |c|
    requires forall k :: 0 <= k < |c| ==> c[k] != 0.0
    ensures RollingVariance(PctChange(c), i, VolatilityWindow).Some? <==> i >= 20
    ensures RollingVariance(PctChange(c), i, VolatilityWindow).Some? ==>
              RollingVariance(PctChange(c), i, VolatilityWindow).value >= 0.0
  {
    var pct := PctChange(c);
    if i + 1 >= 20 {
      var win := pct[i + 1 - 20..i + 1];
      if i >= 20 {
        assert AllPresent(win);
        var v := Values(win);
        SquaredDeviationsNonNegative(v, Sum(v) / 20 as real);
      } else {
        assert win[0] == pct[0];
      }
    }
  }

  /** The RSI formula: with losses in the window it is 100·gain/(gain+loss), in
      [0, 100); with gains only it is 100; with neither it is undefined. */
  lemma RsiFormula(g: real, l: real)
    requires g >= 0.0 && l >= 0.0
    ensures l > 0.0 ==> RsiOf(Some(g), Some(l)) == Some(100.0 * g / (g + l))
    ensures l > 0.0 ==> 0.0 <= 100.0 * g / (g + l) < 100.0
    ensures l == 0.0 && g > 0.0 ==> RsiOf(Some(g), Some(l)) == Some(100.0)
    ensures l == 0.0 && g == 0.0 ==> RsiOf(Some(g), Some(l)) == None
  {
    if l > 0.0 {
      var t := g + l;
      RatioPlusOne(g, l);
      DivideByRatio(100.0, t, l);
      RsiComplement(g, l);
      RsiBelowHundred(g, l);
    }
  }

  lemma RatioPlusOne(g: real, l: real)
    requires l > 0.0
    ensures 1.0 + g / l == (g + l) / l
  {
    assert (1.0 + g / l) * l == g + l;
    QuotientIs(g + l, l, 1.0 + g / l);
  }

  lemma DivideByRatio(a: real, t: real, l: real)
    requires l > 0.0 && t > 0.0
    ensures a / (t / l) == a * l / t
  {
    var x := t / l;
    var q := a * l / t;
    assert x * l == t;
    assert q * t == a * l;
    assert q * x * l == a * l by {
      assert q * x * l == q * (x * l);
    }
    assert q * x == a;
    QuotientIs(a, x, q);
  }

  lemma RsiComplement(g: real, l: real)
    requires g >= 0.0 && l > 0.0
    ensures 100.0 - 100.0 * l / (g + l) == 100.0 * g / (g + l)
  {
    var t := g + l;
    var q := 100.0 * l / t;
    assert q * t == 100.0 * l;
    assert (100.0 - q) * t == 100.0 * g;
    QuotientIs(100.0 * g, t, 100.0 - q);
  }

  lemma RsiBelowHundred(g: real, l: real)
    requires g >= 0.0 && l > 0.0
    ensures 0.0 <= 100.0 * g / (g + l) < 100.0
  {
    var t := g + l;
    MeanBounds(100.0 * g, t, 0.0, 100.0);
    RsiComplement(g, l);
    assert 100.0 * l / t > 0.0;
  }

  /** The 14 gains and losses that RSI_14 at row i averages. */
  function GainWindow(c: seq<real>, i: nat): (g: seq<real>)
    requires RsiWindow <= i < |c|
    ensures |g| == RsiWindow
  {
    seq(RsiWindow, k requires 0 <= k < RsiWindow => Gain(c[i - 13 + k] - c[i - 14 + k]))
  }

  function LossWindow(c: seq<real>, i: nat): (l: seq<real>)
    requires RsiWindow <= i < |c|
    ensures |l| == RsiWindow
  {
    seq(RsiWindow, k requires 0 <= k < RsiWindow => Loss(c[i - 13 + k] - c[i - 14 + k]))
  }

  lemma GainMean(c: seq<real>, i: nat)
    requires RsiWindow <= i < |c|
    ensures RollingMean(Gains(c), i, RsiWindow) == Some(Sum(GainWindow(c, i)) / 14.0)
  {
    var lo := i + 1 - RsiWindow;
    var d := Deltas(c);
    var gwin := Gains(c)[lo..i + 1];
    forall k | 0 <= k < RsiWindow ensures gwin[k] == Some(GainWindow(c, i)[k]) {
      assert d[lo + k] == Some(c[lo + k] - c[lo + k - 1]);
      assert gwin[k] == Gains(c)[lo + k];
    }
    assert Values(gwin) == GainWindow(c, i);
  }

  lemma LossMean(c: seq<real>, i: nat)
    requires RsiWindow <= i < |c|
    ensures RollingMean(Losses(c), i, RsiWindow) == Some(Sum(LossWindow(c, i)) / 14.0)
  {
    var lo := i + 1 - RsiWindow;
    var d := Deltas(c);
    var lwin := Losses(c)[lo..i + 1];
    forall k | 0 <= k < RsiWindow ensures lwin[k] == Some(LossWindow(c, i)[k]) {
      assert d[lo + k] == Some(c[lo + k] - c[lo + k - 1]);
      assert lwin[k] == Losses(c)[lo + k];
    }
    assert Values(lwin) == LossWindow(c, i);
  }

  lemma RsiFromWindows(c: seq<real>, i: nat)
    requires RsiWindow <= i < |c|
    ensures Sum(GainWindow(c, i)) >= 0.0 && Sum(LossWindow(c, i)) >= 0.0
    ensures RsiAt(c, i) == RsiOf(Some(Sum(GainWindow(c, i)) / 14.0), Some(Sum(LossWindow(c, i)) / 14.0))
  {
    GainMean(c, i);
    LossMean(c, i);
    forall k | 0 <= k < RsiWindow ensures GainWindow(c, i)[k] >= 0.0 && LossWindow(c, i)[k] >= 0.0 {
      GainLossSplit(c[i - 13 + k] - c[i - 14 + k]);
    }
    SumZero(GainWindow(c, i));
    SumZero(LossWindow(c, i));
  }

  /** Both window sums vanish exactly when the 14 deltas are all zero. */
  lemma FlatWindow(c: seq<real>, i: nat)
    requires RsiWindow <= i < |c|
    ensures Sum(GainWindow(c, i)) == 0.0 && Sum(LossWindow(c, i)) == 0.0 <==>
              forall k :: i - 13 <= k <= i ==> c[k] == c[k - 1]
  {
    var g, l := GainWindow(c, i), LossWindow(c, i);
    forall k | 0 <= k < RsiWindow
      ensures g[k] >= 0.0 && l[k] >= 0.0
      ensures g[k] - l[k] == c[i - 13 + k] - c[i - 14 + k]
      ensures g[k] == 0.0 || l[k] == 0.0
    {
      GainLossSplit(c[i - 13 + k] - c[i - 14 + k]);
    }
    SumZero(g);
    SumZero(l);
    if forall k :: i - 13 <= k <= i ==> c[k] == c[k - 1] {
      forall j | 0 <= j < RsiWindow ensures g[j] == 0.0 && l[j] == 0.0 {
        assert c[i - 13 + j] == c[i - 13 + j - 1];
      }
    }
    if Sum(g) == 0.0 && Sum(l) == 0.0 {
      forall k | i - 13 <= k <= i ensures c[k] == c[k - 1] {
        assert g[k - i + 13] == 0.0 && l[k - i + 13] == 0.0;
      }
    }
  }

  /** RSI_14 is defined exactly from row 14 on (the delta of row 0 is NaN) and only
      when the 14 deltas of its window are not all zero; it lies in [0, 100]. */
  lemma RsiDefinedAfterWarmUp(c: seq<real>, i: nat)
    requires i < |c|
    ensures RsiAt(c, i).Some? <==>
              i >= RsiWindow && !(forall k :: i - 13 <= k <= i && 1 <= k ==> c[k] == c[k - 1])
    ensures RsiAt(c, i).Some? ==> 0.0 <= RsiAt(c, i).value <= 100.0
  {
    if i + 1 < RsiWindow {
    } else if i + 1 == RsiWindow {
      assert Gains(c)[0..14][0] == Gains(c)[0];
    } else {
      RsiFromWindows(c, i);
      FlatWindow(c, i);
      RsiFormula(Sum(GainWindow(c, i)) / 14.0, Sum(LossWindow(c, i)) / 14.0);
    }
  }

  /** The closes of the sorted frame are the input's closes, reordered. */
  lemma SortedClosesNonZero(rows: seq<PriceRow>)
    requires forall k :: 0 <= k < |rows| ==> rows[k].close != 0.0
    ensures forall k :: 0 <= k < |rows| ==> Closes(SortPricesByDate(rows))[k] != 0.0
  {
    var sorted := SortPricesByDate(rows);
    forall k | 0 <= k < |rows| ensures sorted[k].close != 0.0 {
      assert sorted[k] in multiset(rows);
    }
  }

  /** With no zero close, row i of a stock survives `dropna()` exactly when it is
      at least the 50th row by date and its RSI window is not flat. */
  lemma CompleteAfterWarmUp(rows: seq<PriceRow>, i: nat)
    requires i < |rows|
    requires forall k :: 0 <= k < |rows| ==> rows[k].close != 0.0
    ensures Complete(ComputeIndicators(rows)[i]) <==>
              i >= LongWindow - 1 && RsiAt(Closes(SortPricesByDate(rows)), i).Some?
  {
    var c := Closes(SortPricesByDate(rows));
    SortedClosesNonZero(rows);
    SmaDefinedFrom(c, i, ShortWindow);
    SmaDefinedFrom(c, i, LongWindow);
    ReturnsCompound(c, i);
    VarianceDefinedFrom20(c, i);
  }

  /** Every stock loses at least its first 49 rows by date. */
  lemma WarmUpRowsDropped(rows: seq<PriceRow>)
    ensures |DropNa(ComputeIndicators(rows))| <= if |rows| >= LongWindow - 1 then |rows| - (LongWindow - 1) else 0
  {
    var r := ComputeIndicators(rows);
    var n := if |r| < LongWindow - 1 then |r| else LongWindow - 1;
    assert r == r[..n] + r[n..];
    FilterConcat(r[..n], r[n..], Complete);
    assert DropNa(r[..n]) == [] by {
      forall k | 0 <= k < n ensures !Complete(r[..n][k]) {
        EarlyRowIncomplete(rows, k);
      }
      FilterNone(r[..n], Complete);
    }
  }

  lemma EarlyRowIncomplete(rows: seq<PriceRow>, k: nat)
    requires k < |rows| && k < LongWindow - 1
    ensures !Complete(ComputeIndicators(rows)[k])
  {
    SmaDefinedFrom(Closes(SortPricesByDate(rows)), k, LongWindow);
  }

  function IsStock(stock: string): IndicatorRow -> bool
  {
    (row: IndicatorRow) => row.base.stock == stock
  }

  /** One stock's rows of a table. */
  function StockRows(rows: seq<IndicatorRow>, stock: string): seq<IndicatorRow>
  {
    Filter(rows, IsStock(stock))
  }

  lemma FrameOfOneStock(df: seq<PriceRow>, t: string)
    ensures forall k :: 0 <= k < |ComputeIndicators(PriceRowsOf(df, t))| ==>
              ComputeIndicators(PriceRowsOf(df, t))[k].base.stock == t
  {
    var rows := PriceRowsOf(df, t);
    var r := ComputeIndicators(rows);
    forall k | 0 <= k < |r| ensures r[k].base.stock == t {
      assert Bases(r)[k] in multiset(rows);
    }
  }

  lemma FramesSnoc(df: seq<PriceRow>, stocks: seq<string>)
    requires stocks != []
    ensures Flatten(StockFrames(df, stocks)) ==
            Flatten(StockFrames(df, stocks[..|stocks| - 1])) + ComputeIndicators(PriceRowsOf(df, stocks[|stocks| - 1]))
  {
    var frames := StockFrames(df, stocks);
    assert frames[..|frames| - 1] == StockFrames(df, stocks[..|stocks| - 1]);
  }

  lemma StockRowsConcat(a: seq<IndicatorRow>, g: seq<IndicatorRow>, s: string)
    ensures StockRows(DropNa(a + g), s) == StockRows(DropNa(a), s) + StockRows(DropNa(g), s)
  {
    FilterConcat(a, g, Complete);
    FilterConcat(DropNa(a), DropNa(g), IsStock(s));
  }

  /** A stock's own frame holds no row of any other stock. */
  lemma OwnFrameRows(df: seq<PriceRow>, t: string, s: string)
    ensures StockRows(DropNa(ComputeIndicators(PriceRowsOf(df, t))), s) ==
            if t == s then DropNa(ComputeIndicators(PriceRowsOf(df, t))) else []
  {
    var dg := DropNa(ComputeIndicators(PriceRowsOf(df, t)));
    FrameOfOneStock(df, t);
    forall k | 0 <= k < |dg| ensures dg[k].base.stock == t {
      assert dg[k] in dg;
    }
    if t == s {
      FilterAll(dg, IsStock(s));
    } else {
      FilterNone(dg, IsStock(s));
    }
  }

  lemma {:induction false} IsolationPrefix(df: seq<PriceRow>, stocks: seq<string>, s: string)
    requires Distinct(stocks)
    ensures StockRows(DropNa(Flatten(StockFrames(df, stocks))), s) ==
            if s in stocks then DropNa(ComputeIndicators(PriceRowsOf(df, s))) else []
  {
    if stocks != [] {
      var n := |stocks| - 1;
      var init, t := stocks[..n], stocks[n];
      assert stocks == init + [t];
      assert Distinct(init);
      var a := Flatten(StockFrames(df, init));
      var g := ComputeIndicators(PriceRowsOf(df, t));
      FramesSnoc(df, stocks);
      StockRowsConcat(a, g, s);
      IsolationPrefix(df, init, s);
      OwnFrameRows(df, t, s);
      var whole := StockRows(DropNa(Flatten(StockFrames(df, stocks))), s);
      assert whole == StockRows(DropNa(a), s) + StockRows(DropNa(g), s);
      if t == s {
        assert s !in init;
        assert s in stocks;
        assert whole == [] + DropNa(g);
      } else {
        assert s in stocks <==> s in init;
        assert whole == StockRows(DropNa(a), s) + [];
      }
    }
  }

  /** The rows of one stock in the output of `build_all_indicators` are exactly
      that stock's own `compute_indicators` rows less the incomplete ones: no other
      stock's rows affect them. */
  lemma StockIsolation(df: seq<PriceRow>, s: string)
    ensures BuildAll(df).Success? ==>
              StockRows(BuildAll(df).value, s) == DropNa(ComputeIndicators(PriceRowsOf(df, s)))
  {
    var stocks := Unique(PriceStocks(df));
    IsolationPrefix(df, stocks, s);
    if s !in stocks {
      UniqueMembers(PriceStocks(df));
      forall k | 0 <= k < |df| ensures df[k].stock != s {
        assert PriceStocks(df)[k] == df[k].stock;
      }
      FilterNone(df, (row: PriceRow) => row.stock == s);
    }
  }
}
